/** What a turn enters in its ledger, and the figures of its trailer that no record shows. */
module TurnLedger {
  import opened Text
  import opened Framing
  import opened Sse
  import opened Vocabulary
  import opened Machine
  import opened Refinement
  import opened Handler
  import opened Throughput
  import opened AttemptSpec
  import opened AttemptTrace
  import opened AttemptIsolation
  import opened AttemptReceived
  import opened AttemptTranscript
  import opened TurnSpec
  import opened TurnFacts
  import AttemptPulse

  // ---- what an attempt leaves out ----

  /** Records of an attempt's own, which none of the ledger's is. */
  predicate OwnRecords(log: Log) { forall i | 0 <= i < |log| :: !log[i].Ledger? }

  lemma {:induction false} SettleOwn(a: Attempt, cause: StreamEndCause, why: EndCause)
    requires OwnRecords(a.log)
    ensures var b := Settle(a, cause, why); OwnRecords(b.log) && b.loc.polls == a.loc.polls
  {
    hide AnomaliesOf, Verdict;
  }

  lemma {:induction false} TakenOwn(decode: Decoder, st: StreamView, n: nat, data: Bytes)
    ensures OwnRecords(TakeInstallment(decode, st, n, DataKind, data).log)
  {
    hide Judge, TextBytes, HasText;
  }

  lemma {:induction false} HandOverOwn(ctx: Ctx, a: Attempt, data: Bytes)
    requires OwnRecords(a.log)
    ensures var b := HandOver(ctx, a, data); OwnRecords(b.log) && b.loc.polls == a.loc.polls
  {
    hide TakeInstallment, Settle;
    var t := TakeInstallment(ctx.decode, a.st, a.loc.instSeq, DataKind, data);
    TakenOwn(ctx.decode, a.st, a.loc.instSeq, data);
    var b := a.(st := t.st, log := a.log + t.log);
    SettleOwn(b, DoneSentinelConsumed, EndCause.StreamEnded);
    SettleOwn(b, HandlerAborted, HandlerAbort);
    SettleOwn(b, HandlerProtocolError, HandlerAbort);
  }

  lemma {:induction false} FramesOwn(ctx: Ctx, a: Attempt, at: nat, gap: nat, evs: seq<SseEvent>)
    requires OwnRecords(a.log)
    ensures var b := OnFrames(ctx, a, at, gap, evs); OwnRecords(b.log) && b.loc.polls == a.loc.polls
    decreases |evs|
  {
    hide HandOver, OwnRecords, OnFrame;
    if evs != [] {
      FramesOwn(ctx, a, at, gap, evs[..|evs| - 1]);
      FrameOwn(ctx, OnFrames(ctx, a, at, gap, evs[..|evs| - 1]), at, gap, evs[|evs| - 1]);
    }
  }

  lemma {:induction false} FrameOwn(ctx: Ctx, a: Attempt, at: nat, gap: nat, ev: SseEvent)
    requires OwnRecords(a.log)
    ensures var b := OnFrame(ctx, a, at, gap, ev); OwnRecords(b.log) && b.loc.polls == a.loc.polls
  {
    hide HandOver;
    if ev.payload.Data? { HandOverOwn(ctx, DataReady(a, at, gap, ev), ev.payload.data); }
  }

  lemma {:induction false} EofOwn(ctx: Ctx, a: Attempt)
    requires OwnRecords(a.log)
    ensures var b := OnEof(ctx, a); OwnRecords(b.log) && b.loc.polls == a.loc.polls
  {
    hide TailEvents, TakeInstallment, Settle;
    var tail, n := TailEvents(a.buf), a.loc.instSeq + 1;
    if tail != [] && tail[0].payload.Data? { TakenOwn(ctx.decode, a.st, n, tail[0].payload.data); }
    var b := Leftover(ctx, a);
    assert OwnRecords(b.log) && b.loc.polls == a.loc.polls;
    SettleOwn(b, if b.st.sawAnyContent then PeerClosed else ClosedWithNoContent, EndCause.StreamEnded);
    hide Leftover;
  }

  /** Each wake-up met is one poll. */
  lemma {:induction false} StepOwn(ctx: Ctx, a0: Attempt, w: Wake)
    requires OwnRecords(a0.log)
    ensures var b := Step(ctx, a0, w); OwnRecords(b.log) && b.loc.polls == a0.loc.polls + 1
  {
    hide Split, EventsOf, OnFrames, Evaluate, OnEof;
    var a := a0.(loc := a0.loc.(polls := a0.loc.polls + 1));
    match w.arm
    case ReadArm(bytes) =>
      var c := Split(a.buf + bytes);
      FramesOwn(ctx, CountRead(a, w.at, |bytes|).(buf := c.rest), w.at, Since(w.at, a.loc.lastReadAt),
                EventsOf(c.blocks));
    case EofArm => EofOwn(ctx, a);
    case _ =>
  }

  lemma {:induction false} MetOwn(ctx: Ctx, st: StreamView, met: seq<Wake>)
    requires met == [] || AfterWakes(ctx, st, met[..|met| - 1]).end.None?
    ensures OwnRecords(AfterWakes(ctx, st, met).log) && AfterWakes(ctx, st, met).loc.polls == |met|
    decreases |met|
  {
    hide Step;
    if met != [] {
      var init := met[..|met| - 1];
      if init != [] { AttemptPulse.RanBeforeLast(ctx, st, init); }
      MetOwn(ctx, st, init);
      StepOwn(ctx, AfterWakes(ctx, st, init), met[|met| - 1]);
    }
  }

  /** The data that the attempt accepted. */
  function Accepted(ctx: Ctx, w: World): nat {
    if w.dial != Streaming then 0
    else
      Heeded(ctx.decode, SeenOf(Met(ctx, w.wakes))) + HeededTail(ctx.decode, Met(ctx, w.wakes))
  }

  function Polled(ctx: Ctx, w: World): nat { if w.dial != Streaming then 0 else |Met(ctx, w.wakes)| }

  lemma {:induction false} AttemptFigures(ctx: Ctx, st: StreamView, w: World)
    requires st.fed == []
    ensures var a := AttemptRun(ctx, st, w);
            && OwnRecords(a.log) && a.loc.polls == Polled(ctx, w)
            && a.st.installments == st.installments + Accepted(ctx, w)
  {
    hide AfterWakes, Transcript, Told, Heeded, HeededTail, SeenOf;
    if w.dial == Streaming {
      AttemptTells(ctx, st, w.wakes);
      var met := Met(ctx, w.wakes);
      MetSuffices(ctx, st, w.wakes);
      if met != [] { AttemptsAreIsolated(ctx, st, NewStream(0), met[..|met| - 1]); }
      MetOwn(ctx, st, met);
    }
  }

  // ---- the ledger of a turn ----

  function LedgerIn(log: Log): Log {
    if log == [] then []
    else LedgerIn(log[..|log| - 1]) + if log[|log| - 1].Ledger? then [log[|log| - 1]] else []
  }

  lemma {:induction false} LedgerJoin(a: Log, b: Log)
    ensures LedgerIn(a + b) == LedgerIn(a) + LedgerIn(b)
    decreases |b|
  {
    if b == [] {
      assert a + b == a;
    } else {
      assert (a + b)[..|a + b| - 1] == a + b[..|b| - 1];
      LedgerJoin(a, b[..|b| - 1]);
    }
  }

  lemma {:induction false} NoLedger(log: Log)
    requires OwnRecords(log)
    ensures LedgerIn(log) == []
    decreases |log|
  {
    if log != [] { NoLedger(log[..|log| - 1]); }
  }

  lemma {:induction false} LedgerSnoc(log: Log, rec: EmissionRecord)
    requires rec.Ledger?
    ensures LedgerIn(log + [rec]) == LedgerIn(log) + [rec]
  {
    assert (log + [rec])[..|log|] == log;
  }

  /** Attempt `n`: a bucket taken and returned, or the refusal. */
  function AttemptEntries(stream: StreamId, n: nat, w: World): Log {
    if w.available == 0 then [Ledger(stream, n, SendBucketDenied)]
    else
      [Ledger(stream, n, SendBucketSpent(w.available - 1)),
       Ledger(stream, n, SendBucketReturned((w.onReturn + 1) % 0x1_0000_0000))]
  }

  /** The allowance granted, and attempts each of which is followed by a retry. */
  function Retried(s: Strategy, stream: StreamId, worlds: seq<World>): Log {
    if worlds == [] then [Ledger(stream, 0, RetryAllowanceGranted(s.allowance))]
    else
      var n := |worlds|;
      Retried(s, stream, worlds[..n - 1]) + AttemptEntries(stream, n, worlds[n - 1])
      + [Ledger(stream, n, RetryAllowanceSpent(if s.allowance >= n then s.allowance - n else 0))]
  }

  function PolledOver(ctx: Ctx, worlds: seq<World>): nat {
    if worlds == [] then 0
    else
      var w := worlds[|worlds| - 1];
      PolledOver(ctx, worlds[..|worlds| - 1]) + if w.available == 0 then 0 else Polled(ctx, w)
  }

  function AcceptedOver(ctx: Ctx, worlds: seq<World>): nat {
    if worlds == [] then 0
    else
      var w := worlds[|worlds| - 1];
      AcceptedOver(ctx, worlds[..|worlds| - 1]) + if w.available == 0 then 0 else Accepted(ctx, w)
  }

  /** The turn's ledger and figures after the attempts on `worlds`, the last of which decided if there is a verdict. */
  ghost predicate Entered(ctx: Ctx, s: Strategy, stream: StreamId, t: Turn, worlds: seq<World>) {
    && t.st.stream == stream && t.st.attempt == |worlds|
    && LedgerIn(t.log) == (
         if t.verdict.None? then Retried(s, stream, worlds)
         else if worlds == [] then []
         else Retried(s, stream, worlds[..|worlds| - 1]) + AttemptEntries(stream, |worlds|, worlds[|worlds| - 1]))
    && t.polls == PolledOver(ctx, worlds) && t.st.installments == AcceptedOver(ctx, worlds)
  }

  lemma {:induction false} AdmittedEnters(ctx: Ctx, t: Turn, w: World)
    requires t.st.fed == [] && w.available > 0
    ensures var t1 := Admitted(ctx, t, w);
            && LedgerIn(t1.log) == LedgerIn(t.log) + AttemptEntries(t.st.stream, t.st.attempt, w)
            && t1.polls == t.polls + Polled(ctx, w) && t1.st.installments == t.st.installments + Accepted(ctx, w)
            && t1.st.stream == t.st.stream && t1.st.attempt == t.st.attempt && t1.remaining == t.remaining
            && t1.verdict == t.verdict
  {
    hide AttemptRun, AttemptTime, LedgerIn, Polled, Accepted;
    var a := AttemptRun(ctx, t.st, w);
    AttemptFigures(ctx, t.st, w);
    AttemptKeepsIdentity(ctx, t.st, w);
    var spent := LedgerRecord(t, SendBucketSpent(w.available - 1));
    var returned := LedgerRecord(t.(st := a.st), SendBucketReturned((w.onReturn + 1) % U32));
    LedgerSnoc(t.log, spent);
    LedgerJoin(t.log + [spent], a.log);
    NoLedger(a.log);
    LedgerSnoc(t.log + [spent] + a.log, returned);
    assert LedgerIn(t.log) + [spent] + [] + [returned] == LedgerIn(t.log) + [spent, returned];
  }

  lemma {:induction false} DecideEnters(s: Strategy, t: Turn, end: AttemptEnd)
    requires t.verdict.None? && t.st.attempt + t.remaining == s.allowance + 1
    ensures var t1 := Decide(s, t, Some(end));
            && t1.st == t.st && t1.polls == t.polls
            && LedgerIn(t1.log) == LedgerIn(t.log) +
                 if t1.verdict.Some? then []
                 else [Ledger(t.st.stream, t.st.attempt, RetryAllowanceSpent(s.allowance - t.st.attempt))]
  {
    hide LedgerIn, WireFault;
    assert LedgerIn(t.log) + [] == LedgerIn(t.log);
    LedgerSnoc(t.log, Ledger(t.st.stream, t.st.attempt,
                             RetryAllowanceSpent(if t.remaining > 0 then t.remaining - 1 else 0)));
  }

  lemma {:induction false} OneAttemptEnters(ctx: Ctx, s: Strategy, stream: StreamId, t: Turn, init: seq<World>,
                                            w: World)
    requires Entered(ctx, s, stream, t, init) && t.verdict.None? && Concludes(w)
    requires |init| + t.remaining == s.allowance
    ensures Entered(ctx, s, stream, OneAttempt(ctx, s, t, w), init + [w])
  {
    hide LedgerIn, AttemptRun, AttemptTime, Admitted, Decide, Concludes, Polled, Accepted;
    var worlds := init + [w];
    var t1 := t.(st := NextAttempt(t.st));
    assert worlds[..|init|] == init;
    if w.available == 0 {
      LedgerSnoc(t.log, LedgerRecord(t1, SendBucketDenied));
    } else {
      ConcludesEnds(ctx, t1.st, w);
      AdmittedEnters(ctx, t1, w);
      DecideEnters(s, Admitted(ctx, t1, w), AttemptRun(ctx, t1.st, w).end.value);
      var entries := Retried(s, stream, init) + AttemptEntries(stream, |worlds|, w);
      assert entries + [] == entries;
    }
  }

  lemma {:induction false} TurnEnters(ctx: Ctx, s: Strategy, stream: StreamId, worlds: seq<World>)
    requires forall i | 0 <= i < |worlds| :: Concludes(worlds[i])
    ensures var t := AfterWorlds(ctx, s, stream, worlds);
            && t.st.attempt <= |worlds| && (t.verdict.None? ==> t.st.attempt == |worlds|)
            && Entered(ctx, s, stream, t, worlds[..t.st.attempt])
    decreases |worlds|
  {
    hide OneAttempt, Concludes, Entered;
    if worlds == [] {
      NothingEntered(ctx, s, stream);
      assert worlds[..0] == [];
    } else {
      var init, w := worlds[..|worlds| - 1], worlds[|worlds| - 1];
      assert forall i | 0 <= i < |init| :: init[i] == worlds[i];
      TurnEnters(ctx, s, stream, init);
      var t := AfterWorlds(ctx, s, stream, init);
      assert init[..t.st.attempt] == worlds[..t.st.attempt];
      if t.verdict.None? {
        TurnBudgeted(ctx, s, stream, init);
        OneAttemptEnters(ctx, s, stream, t, init, w);
        AttemptCounts(ctx, s, t, w);
        assert init + [w] == worlds && init[..|init|] == init && worlds[..|worlds|] == worlds;
      }
    }
  }

  lemma {:induction false} NothingEntered(ctx: Ctx, s: Strategy, stream: StreamId)
    ensures Entered(ctx, s, stream, BeginTurn(s, stream), [])
  {
    var log := BeginTurn(s, stream).log;
    assert [] + log == log;
    LedgerSnoc([], log[0]);
  }

  /** The ledger of a turn: the allowance granted; for each attempt the bucket taken, with what it left, and the bucket
      returned, or the refusal; and between one attempt and the next the retry, with what it left of the allowance. The
      trailer's polls are the wake-ups met, its installments the data accepted. */
  lemma {:induction false} LedgerIs(ctx: Ctx, s: Strategy, stream: StreamId, worlds: seq<World>)
    requires EnoughWorlds(s, worlds)
    ensures var t := AfterWorlds(ctx, s, stream, worlds); var n := t.st.attempt;
            && t.verdict.Some? && 1 <= n <= |worlds|
            && LedgerIn(t.log) == Retried(s, stream, worlds[..n - 1]) + AttemptEntries(stream, n, worlds[n - 1])
            && var trailer := Trailer(t, t.verdict.value);
               && trailer.selectPolls == PolledOver(ctx, worlds[..n])
               && trailer.installments == AcceptedOver(ctx, worlds[..n])
  {
    hide AfterWorlds, Concludes, LedgerIn, PolledOver, AcceptedOver;
    TurnEnds(ctx, s, stream, worlds);
    TurnEnters(ctx, s, stream, worlds);
    var n := AfterWorlds(ctx, s, stream, worlds).st.attempt;
    assert worlds[..n][..n - 1] == worlds[..n - 1];
  }
}
