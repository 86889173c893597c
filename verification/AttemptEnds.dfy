/** How the end of an attempt is recorded: which records, with which cause and with how many bytes unconsumed. */
module AttemptEnds {
  import opened Text
  import opened Framing
  import opened Sse
  import opened SseRuns
  import opened Vocabulary
  import opened Machine
  import opened Refinement
  import opened Handler
  import opened Throughput
  import opened AttemptSpec
  import opened AttemptTrace
  import opened AttemptOutcome
  import opened AttemptIsolation
  import opened AttemptReceived
  import opened AttemptEvidence
  import AttemptClock

  /** The records that belong to an attempt's end. */
  predicate Ends(rec: EmissionRecord) {
    rec.SelectWake? || rec.StreamEnd? || (rec.Wire? && rec.note.EofWithoutDoneSentinel?)
  }

  function EndingsIn(log: Log): Log {
    if log == [] then []
    else EndingsIn(log[..|log| - 1]) + if Ends(log[|log| - 1]) then [log[|log| - 1]] else []
  }

  predicate NoneEnds(log: Log) { forall i | 0 <= i < |log| :: !Ends(log[i]) }

  lemma {:induction false} EndingsJoin(a: Log, b: Log)
    ensures EndingsIn(a + b) == EndingsIn(a) + EndingsIn(b)
    decreases |b|
  {
    hide Ends;
    if b == [] {
      assert a + b == a;
    } else {
      assert (a + b)[..|a + b| - 1] == a + b[..|b| - 1];
      EndingsJoin(a, b[..|b| - 1]);
    }
  }

  lemma {:induction false} NoEndings(log: Log)
    requires NoneEnds(log)
    ensures EndingsIn(log) == []
    decreases |log|
  {
    hide Ends;
    if log != [] {
      assert !Ends(log[|log| - 1]);
      NoEndings(log[..|log| - 1]);
    }
  }

  lemma {:induction false} MoreEndings(log: Log, quiet: Log, rec: EmissionRecord, more: Log)
    requires NoneEnds(quiet) && Ends(rec) && NoneEnds(more)
    ensures EndingsIn(log + quiet) == EndingsIn(log)
    ensures EndingsIn(log + [rec] + more) == EndingsIn(log) + [rec]
  {
    hide Ends;
    EndingsJoin(log, quiet);
    NoEndings(quiet);
    EndingsJoin(log + [rec], more);
    NoEndings(more);
    EndingsJoin(log, [rec]);
    assert [rec][..0] == [] && EndingsIn([rec]) == [rec];
  }

  // ---- the handler's exits ----

  lemma {:induction false} SettleEndings(a: Attempt, cause: StreamEndCause, why: EndCause)
    ensures EndingsIn(Settle(a, cause, why).log) == EndingsIn(a.log) + [EndRecord(a, cause)]
  {
    hide AnomaliesOf, Verdict, EndingsIn;
    MoreEndings(a.log, [], EndRecord(a, cause), AnomalyRecords(a.st));
  }

  lemma {:induction false} TakenEndings(decode: Decoder, st: StreamView, n: nat, data: Bytes)
    ensures NoneEnds(TakeInstallment(decode, st, n, DataKind, data).log)
  {
    hide Judge, TextBytes, HasText;
  }

  /** The record of a stop by a frame. */
  function StopRecord(a: Attempt, st: StreamView, stop: AttemptOutcome.Stop): Log {
    match stop
    case Going => []
    case AtSentinel => [StreamEnd(st.stream, st.attempt, DoneSentinelConsumed, |a.buf|)]
    case AtRejection => [StreamEnd(st.stream, st.attempt, HandlerProtocolError, |a.buf|)]
  }

  lemma {:induction false} HandOverEndings(ctx: Ctx, a: Attempt, data: Bytes)
    requires a.end.None?
    ensures var b, j := HandOver(ctx, a, data), Judge(ctx.decode, data);
            && EndingsIn(b.log) == EndingsIn(a.log) +
                 StopRecord(a, a.st, if j.Reject? then AtRejection else if j.done then AtSentinel else Going)
            && b.buf == a.buf && b.st.stream == a.st.stream && b.st.attempt == a.st.attempt
  {
    hide TakeInstallment, Judge, EndingsIn, Settle, NoneEnds;
    var t := TakeInstallment(ctx.decode, a.st, a.loc.instSeq, DataKind, data);
    var b := a.(st := t.st, log := a.log + t.log);
    TakenEndings(ctx.decode, a.st, a.loc.instSeq, data);
    EndingsJoin(a.log, t.log);
    NoEndings(t.log);
    assert EndingsIn(a.log) + [] == EndingsIn(a.log);
    Directed(ctx.decode, a.st, a.loc.instSeq, data);
    SettleEndings(b, DoneSentinelConsumed, EndCause.StreamEnded);
    SettleEndings(b, HandlerProtocolError, HandlerAbort);
    SettlePlace(b, DoneSentinelConsumed, EndCause.StreamEnded);
    SettlePlace(b, HandlerProtocolError, HandlerAbort);
  }

  lemma SettlePlace(a: Attempt, cause: StreamEndCause, why: EndCause)
    ensures var b := Settle(a, cause, why);
            b.buf == a.buf && b.st.stream == a.st.stream && b.st.attempt == a.st.attempt
  {
  }

  lemma Directed(decode: Decoder, st: StreamView, n: nat, data: Bytes)
    ensures var t, j := TakeInstallment(decode, st, n, DataKind, data), Judge(decode, data);
            && t.st.stream == st.stream && t.st.attempt == st.attempt
            && match j
               case Reject(_, _) => t.directive.ProtocolFault?
               case Accept(_, _, done) => t.directive == if done then StopComplete else Continue
  {
    hide Judge, TextBytes, HasText;
  }

  lemma {:induction false} FrameEndings(ctx: Ctx, a: Attempt, at: nat, gap: nat, ev: SseEvent, seen: seq<SseEvent>)
    requires InStep(ctx, a, seen)
    ensures var b := OnFrame(ctx, a, at, gap, ev);
            && EndingsIn(b.log) == EndingsIn(a.log) + StopRecord(a, a.st, Consume(ctx.decode, seen + [ev]).stop)
            && b.buf == a.buf && b.st.stream == a.st.stream && b.st.attempt == a.st.attempt
  {
    hide EndingsIn, Consume, HandOver, Judge;
    ConsumeOneMore(ctx.decode, seen, ev);
    var b := Numbered(a);
    assert EndingsIn(a.log) + [] == EndingsIn(a.log);
    match ev.payload
    case Undecodable(raw) =>
      QuietEndings(a.log, [UndecodableInstallment(b.st.stream, b.st.attempt, b.loc.instSeq, raw)]);
    case Comment(_) =>
      QuietEndings(a.log, [InstallmentOf(b, ev, Complete), Note(b, KeepAliveComment)]);
    case Data(d) =>
      var more := [InstallmentOf(b, ev, Complete)] + PaceNotes(b, at, gap, ev.rawByteLen);
      assert DataReady(a, at, gap, ev).log == a.log + more;
      QuietEndings(a.log, more);
      HandOverEndings(ctx, DataReady(a, at, gap, ev), d);
  }

  lemma {:induction false} QuietEndings(log: Log, more: Log)
    requires NoneEnds(more)
    ensures EndingsIn(log + more) == EndingsIn(log)
  {
    EndingsJoin(log, more);
    NoEndings(more);
  }

  lemma {:induction false} FramesEndings(ctx: Ctx, a: Attempt, at: nat, gap: nat, evs: seq<SseEvent>,
                                         seen: seq<SseEvent>)
    requires InStep(ctx, a, seen)
    ensures var b := OnFrames(ctx, a, at, gap, evs);
            && EndingsIn(b.log) == EndingsIn(a.log) + StopRecord(a, a.st, Consume(ctx.decode, seen + evs).stop)
            && b.buf == a.buf && b.st.stream == a.st.stream && b.st.attempt == a.st.attempt
    decreases |evs|
  {
    hide EndingsIn, Consume, OnFrame;
    if evs == [] {
      assert seen + evs == seen;
      assert EndingsIn(a.log) + [] == EndingsIn(a.log);
    } else {
      var init, last := evs[..|evs| - 1], evs[|evs| - 1];
      var b := OnFrames(ctx, a, at, gap, init);
      assert (seen + init) + [last] == seen + evs;
      FramesEndings(ctx, a, at, gap, init, seen);
      FramesInStep(ctx, a, at, gap, init, seen);
      if b.end.None? {
        FrameEndings(ctx, b, at, gap, last, seen + init);
        assert EndingsIn(a.log) + [] == EndingsIn(a.log);
      } else {
        ConsumeSticks(ctx.decode, seen + init, [last]);
      }
    }
  }

  // ---- the end of a run ----

  /** Why an attempt ended, read off the last wake-up it met and the bytes it received. */
  function CauseOf(ctx: Ctx, st: StreamView, met: seq<Wake>): StreamEndCause
    requires met != []
  {
    var run := PushAll(DEFAULT_BUF_LIMIT, [], ReadsOf(met));
    match met[|met| - 1].arm
    case CancelArm => Cancelled
    case OverallArm => OverallDeadline(ctx.cfg.overall / 1_000_000_000)
    case TickArm => ThroughputStarved(ctx.cfg.floorBps, ctx.cfg.sustained / 1_000_000_000)
    case StallArm =>
      if ReadsOf(met) == [] then FirstByteBackstop(ctx.cfg.backstop / 1_000_000_000)
      else StallTimeout(ctx.cfg.stall / 1_000_000_000)
    case ErrorArm(detail) => TransportError(detail)
    case ReadArm(_) =>
      if run.overflowed then BufferOverflowed(1_048_576)
      else if Consume(ctx.decode, run.events).stop == AtSentinel then DoneSentinelConsumed
      else HandlerProtocolError
    case EofArm => if st.sawAnyContent || HasText(Given(ctx.decode, met)) then PeerClosed else ClosedWithNoContent
  }

  /** The records of the end: the timer or the cancellation that woke the loop, the cause with the bytes since the last
      frame end, and a note if the peer closed an answer that was complete without a sentinel. */
  function Ending(ctx: Ctx, st: StreamView, met: seq<Wake>): Log
    requires met != []
  {
    var arm := met[|met| - 1].arm;
    var unconsumed := if arm.EofArm? then 0 else |PushAll(DEFAULT_BUF_LIMIT, [], ReadsOf(met)).buf|;
    (match arm
     case CancelArm => [SelectWake(st.stream, st.attempt, CancelWake)]
     case OverallArm => [SelectWake(st.stream, st.attempt, OverallWake)]
     case StallArm => [SelectWake(st.stream, st.attempt, StallWake)]
     case _ => [])
    + [StreamEnd(st.stream, st.attempt, CauseOf(ctx, st, met), unconsumed)]
    + if arm.EofArm? && Verdict(Given(ctx.decode, met), EndCause.StreamEnded).Resolved? then
        [Wire(st.stream, st.attempt, EofWithoutDoneSentinel)]
      else []
  }

  /** The attempt is labelled as its stream. */
  predicate Labelled(a: Attempt, st: StreamView) { a.st.stream == st.stream && a.st.attempt == st.attempt }

  lemma {:induction false} OneEnding(log: Log, rec: EmissionRecord)
    requires Ends(rec)
    ensures EndingsIn(log + [rec]) == EndingsIn(log) + [rec]
  {
    hide Ends;
    MoreEndings(log, [], rec, []);
    assert log + [rec] + [] == log + [rec];
  }

  lemma {:induction false} WireEndings(a: Attempt, st: StreamView, cause: StreamEndCause)
    requires Labelled(a, st)
    ensures var b := EndOnWire(a, cause);
            && EndingsIn(b.log) == EndingsIn(a.log) + [StreamEnd(st.stream, st.attempt, cause, |a.buf|)]
            && b.end == Some(OnWire(cause))
  {
    hide EndingsIn;
    OneEnding(a.log, EndRecord(a, cause));
  }

  lemma {:induction false} WokenEndings(a: Attempt, st: StreamView, arm: SelectArm)
    requires Labelled(a, st)
    ensures EndingsIn(Woken(a, arm).log) == EndingsIn(a.log) + [SelectWake(st.stream, st.attempt, arm)]
  {
    hide EndingsIn;
    OneEnding(a.log, SelectWake(a.st.stream, a.st.attempt, arm));
  }

  lemma {:induction false} TickEndings(ctx: Ctx, a: Attempt, st: StreamView, at: nat)
    requires Labelled(a, st) && EndingsIn(a.log) == [] && a.end.None?
    ensures var b, cause := OnTick(ctx, a, at),
                ThroughputStarved(ctx.cfg.floorBps, ctx.cfg.sustained / 1_000_000_000);
            && (b.end.None? ==> EndingsIn(b.log) == [])
            && (b.end.Some? ==>
                  EndingsIn(b.log) == [StreamEnd(st.stream, st.attempt, cause, |a.buf|)]
                  && b.end == Some(OnWire(cause)))
  {
    hide EndingsIn, Evaluate, EndOnWire;
    if a.loc.firstByteAt.Some? {
      var w := Window(a.loc.window, Since(at, a.loc.firstByteAt.value) >= SECOND, at);
      var g := Evaluate(a.loc.gauge, w, ctx.cfg.floorBps);
      var rec := ContentThroughput(a.st.stream, a.st.attempt, g.average);
      var b := a.(loc := a.loc.(gauge := g, window := 0), log := a.log + [rec]);
      QuietEndings(a.log, [rec]);
      WireEndings(b, st, ThroughputStarved(ctx.cfg.floorBps, Secs(ctx.cfg.sustained)));
    }
  }

  lemma {:induction false} ReadEndings(ctx: Ctx, a: Attempt, st: StreamView, at: nat, bytes: Bytes, chunks: seq<Bytes>)
    requires Reading(ctx, a, chunks) && Labelled(a, st) && EndingsIn(a.log) == []
    ensures var b, next := OnRead(ctx, a, at, bytes), PushAll(DEFAULT_BUF_LIMIT, [], chunks + [bytes]);
            var cause := if next.overflowed then BufferOverflowed(1_048_576)
                         else if Consume(ctx.decode, next.events).stop == AtSentinel then DoneSentinelConsumed
                         else HandlerProtocolError;
            && (b.end.None? ==> EndingsIn(b.log) == [])
            && (b.end.Some? ==>
                  EndingsIn(b.log) == [StreamEnd(st.stream, st.attempt, cause, |next.buf|)]
                  && (b.end.value.OnWire? ==> b.end == Some(OnWire(cause))))
  {
    hide EndingsIn, Consume, Split, EventsOf, OnFrames, PushAll, EndOnWire;
    OneMorePush(chunks, bytes);
    ReadReading(ctx, a, at, bytes, chunks);
    var c := Split(a.buf + bytes);
    var b := CountRead(a, at, |bytes|).(buf := c.rest);
    assert b.log == a.log + [b.log[|a.log|]];
    QuietEndings(a.log, [b.log[|a.log|]]);
    if |c.rest| > DEFAULT_BUF_LIMIT {
      WireEndings(b, st, BufferOverflowed(DEFAULT_BUF_LIMIT));
    } else {
      var gap, seen := Since(at, a.loc.lastReadAt), PushAll(DEFAULT_BUF_LIMIT, [], chunks).events;
      FramesEndings(ctx, b, at, gap, EventsOf(c.blocks), seen);
      FramesInStep(ctx, b, at, gap, EventsOf(c.blocks), seen);
    }
  }

  lemma {:induction false} LeftoverEndings(ctx: Ctx, a: Attempt, st: StreamView)
    requires Labelled(a, st) && EndingsIn(a.log) == []
    ensures var b := Leftover(ctx, a); EndingsIn(b.log) == [] && Labelled(b, st) && b.buf == []
  {
    hide EndingsIn, TailEvents, TakeInstallment, NoneEnds;
    LeftoverPlace(ctx, a);
    var tail := TailEvents(a.buf);
    var b := Numbered(a.(buf := []));
    if tail != [] {
      match tail[0].payload
      case Undecodable(raw) =>
        OneQuiet(a.log, UndecodableInstallment(b.st.stream, b.st.attempt, b.loc.instSeq, raw));
      case Comment(_) => OneQuiet(a.log, InstallmentOf(b, tail[0], RecoveredTail));
      case Data(d) =>
        OneQuiet(a.log, InstallmentOf(b, tail[0], RecoveredTail));
        TakenEndings(ctx.decode, b.st, b.loc.instSeq, d);
        QuietEndings(a.log + [InstallmentOf(b, tail[0], RecoveredTail)],
                     TakeInstallment(ctx.decode, b.st, b.loc.instSeq, DataKind, d).log);
    } else if a.buf != [] {
      OneQuiet(a.log, Residue(a.st.stream, a.st.attempt, a.buf));
    }
  }

  lemma {:induction false} OneQuiet(log: Log, rec: EmissionRecord)
    requires !Ends(rec)
    ensures EndingsIn(log + [rec]) == EndingsIn(log)
  {
    QuietEndings(log, [rec]);
  }

  lemma {:induction false} EofEndings(ctx: Ctx, a: Attempt, st: StreamView)
    requires Labelled(a, st) && EndingsIn(a.log) == []
    ensures var saw, fed := a.st.sawAnyContent || HasText(TailFed(ctx.decode, a.buf)),
                a.st.fed + TailFed(ctx.decode, a.buf);
            EndingsIn(OnEof(ctx, a).log) ==
              [StreamEnd(st.stream, st.attempt, if saw then PeerClosed else ClosedWithNoContent, 0)]
              + if Verdict(fed, EndCause.StreamEnded).Resolved? then
                  [Wire(st.stream, st.attempt, EofWithoutDoneSentinel)]
                else []
  {
    hide EndingsIn, TailFed, Leftover, Verdict, HasText, Settle;
    var b := Leftover(ctx, a);
    var cause := if b.st.sawAnyContent then PeerClosed else ClosedWithNoContent;
    LeftoverFed(ctx, a);
    LeftoverEndings(ctx, a, st);
    SettleEndings(b, cause, EndCause.StreamEnded);
    FinishEnds(b, cause, EndCause.StreamEnded);
    OneEnding(Settle(b, cause, EndCause.StreamEnded).log, Note(b, EofWithoutDoneSentinel));
  }

  lemma {:induction false} StepEndings(ctx: Ctx, a0: Attempt, st: StreamView, wakes: seq<Wake>)
    requires wakes != [] && Reading(ctx, a0, ReadsOf(wakes[..|wakes| - 1])) && Labelled(a0, st)
    requires EndingsIn(a0.log) == [] && a0.loc.readSeq == |ReadsOf(wakes[..|wakes| - 1])| && Gained(a0, st)
    ensures var b := Step(ctx, a0, wakes[|wakes| - 1]);
            && (b.end.None? ==> EndingsIn(b.log) == [])
            && (b.end.Some? ==>
                  EndingsIn(b.log) == Ending(ctx, st, wakes)
                  && (b.end.value.OnWire? ==> b.end == Some(OnWire(CauseOf(ctx, st, wakes)))))
  {
    hide EndingsIn, Consume, PushAll, OnRead, OnEof, OnTick, EndOnWire, Verdict, HasText, TailFed, Woken, TextBytes;
    var w, init := wakes[|wakes| - 1], wakes[..|wakes| - 1];
    var a := a0.(loc := a0.loc.(polls := a0.loc.polls + 1));
    if !w.arm.ReadArm? { assert ReadsOf(wakes) == ReadsOf(init); }
    match w.arm
    case CancelArm => WokenWire(a, st, CancelWake, Cancelled);
    case OverallArm => WokenWire(a, st, OverallWake, OverallDeadline(Secs(ctx.cfg.overall)));
    case TickArm => TickEndings(ctx, a, st, w.at);
    case StallArm =>
      var secs := Secs(StallWindow(ctx.cfg, a.loc));
      WokenWire(a, st, StallWake, if a.loc.readSeq == 0 then FirstByteBackstop(secs) else StallTimeout(secs));
    case ReadArm(bytes) => ReadEndings(ctx, a, st, w.at, bytes, ReadsOf(init));
    case EofArm =>
      EofEndings(ctx, a, st);
      EofEnds(ctx, a);
      HasTextJoin(a.st.fed, TailFed(ctx.decode, a.buf));
    case ErrorArm(detail) => WireEndings(a, st, TransportError(detail));
  }

  lemma {:induction false} WokenWire(a: Attempt, st: StreamView, arm: SelectArm, cause: StreamEndCause)
    requires Labelled(a, st) && EndingsIn(a.log) == []
    ensures var b := EndOnWire(Woken(a, arm), cause);
            && EndingsIn(b.log) == [SelectWake(st.stream, st.attempt, arm),
                                    StreamEnd(st.stream, st.attempt, cause, |a.buf|)]
            && b.end == Some(OnWire(cause))
  {
    hide EndingsIn;
    WokenEndings(a, st, arm);
    WireEndings(Woken(a, arm), st, cause);
  }

  lemma {:induction false} RunLabelled(ctx: Ctx, st: StreamView, wakes: seq<Wake>)
    requires st.fed == [] && AfterWakes(ctx, st, wakes).end.None?
    ensures var a := AfterWakes(ctx, st, wakes);
            Labelled(a, st) && a.loc.readSeq == |ReadsOf(wakes)| && Gained(a, st) && Reading(ctx, a, ReadsOf(wakes))
  {
    hide AfterWakes, DigestOf, PushAll, Consume, HasText, TextBytes, UpTo;
    AttemptAccounts(ctx, st, wakes);
    AttemptClock.RunTimes(ctx, st, wakes);
    RunReads(ctx, st, wakes);
    RunGains(ctx, st, wakes);
  }

  lemma {:induction false} RunningEndings(ctx: Ctx, st: StreamView, wakes: seq<Wake>)
    requires st.fed == [] && AfterWakes(ctx, st, wakes).end.None?
    ensures EndingsIn(AfterWakes(ctx, st, wakes).log) == []
    decreases |wakes|
  {
    hide Step, PushAll, Gained;
    if wakes != [] {
      var init := wakes[..|wakes| - 1];
      RunningEndings(ctx, st, init);
      RunLabelled(ctx, st, init);
      StepEndings(ctx, AfterWakes(ctx, st, init), st, wakes);
    }
  }

  /** An ended attempt has recorded its end as the last wake-up it met and the bytes it received say, and a wire exit
      hands on the same cause. */
  lemma {:induction false} AttemptEnding(ctx: Ctx, st: StreamView, wakes: seq<Wake>)
    requires st.fed == [] && AfterWakes(ctx, st, wakes).end.Some?
    ensures var a, met := AfterWakes(ctx, st, wakes), Met(ctx, wakes);
            && met != [] && EndingsIn(a.log) == Ending(ctx, st, met)
            && (a.end.value.OnWire? ==> a.end == Some(OnWire(CauseOf(ctx, st, met))))
  {
    hide Step, PushAll, Gained, Ending, CauseOf, EndingsIn;
    var met := Met(ctx, wakes);
    MetSuffices(ctx, st, wakes);
    SomeWake(ctx, st, wakes);
    var init := met[..|met| - 1];
    AttemptsAreIsolated(ctx, st, NewStream(0), init);
    RunningEndings(ctx, st, init);
    RunLabelled(ctx, st, init);
    StepEndings(ctx, AfterWakes(ctx, st, init), st, met);
  }
}
