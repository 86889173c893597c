/** What an attempt offers about its pace: one record for each read, and one for each throughput tick
    after the first read. */
module AttemptPulse {
  import opened Text
  import opened Framing
  import opened Sse
  import opened Vocabulary
  import opened Machine
  import opened Refinement
  import opened Handler
  import opened Throughput
  import opened AttemptSpec
  import opened AttemptTrace
  import opened AttemptOutcome
  import opened AttemptIsolation
  import opened AttemptReceived
  import opened AttemptClock
  import opened AttemptPace

  predicate Beats(rec: EmissionRecord) { rec.Read? || rec.ContentThroughput? }

  function PulseIn(log: Log): Log {
    if log == [] then []
    else PulseIn(log[..|log| - 1]) + if Beats(log[|log| - 1]) then [log[|log| - 1]] else []
  }

  /** What a wake-up should add: a read its number, time, size and the time since the read before; a tick after the
      first read the average over the windows closed so far. Times are in milliseconds. */
  function BeatOf(ctx: Ctx, st: StreamView, wakes: seq<Wake>): Log
    requires wakes != []
  {
    var init, w := wakes[..|wakes| - 1], wakes[|wakes| - 1];
    match w.arm
    case ReadArm(bytes) =>
      var gap := if w.at >= LastReadTime(init) then w.at - LastReadTime(init) else 0;
      [Read(st.stream, st.attempt, |ReadsOf(init)| + 1, w.at / 1_000_000, |bytes|, gap / 1_000_000)]
    case TickArm =>
      if ReadsOf(init) == [] then []
      else [ContentThroughput(st.stream, st.attempt, Weighted(Evaluated(ctx, st, wakes)))]
    case _ => []
  }

  function PulseOf(ctx: Ctx, st: StreamView, wakes: seq<Wake>): Log {
    if wakes == [] then [] else PulseOf(ctx, st, wakes[..|wakes| - 1]) + BeatOf(ctx, st, wakes)
  }

  predicate NoneBeats(log: Log) { forall i | 0 <= i < |log| :: !Beats(log[i]) }

  lemma {:induction false} PulseJoin(a: Log, b: Log)
    ensures PulseIn(a + b) == PulseIn(a) + PulseIn(b)
    decreases |b|
  {
    hide Beats;
    if b == [] {
      assert a + b == a;
    } else {
      assert (a + b)[..|a + b| - 1] == a + b[..|b| - 1];
      PulseJoin(a, b[..|b| - 1]);
    }
  }

  lemma {:induction false} NoPulse(log: Log, more: Log)
    requires NoneBeats(more)
    ensures PulseIn(log + more) == PulseIn(log)
    decreases |more|
  {
    hide Beats;
    if more == [] {
      assert log + more == log;
    } else {
      var init := more[..|more| - 1];
      assert !Beats(more[|more| - 1]);
      NoPulse(log, init);
      assert (log + more)[..|log + more| - 1] == log + init;
    }
  }

  lemma {:induction false} OneBeat(log: Log, rec: EmissionRecord)
    ensures PulseIn(log + [rec]) == PulseIn(log) + if Beats(rec) then [rec] else []
  {
    assert (log + [rec])[..|log|] == log;
  }

  lemma {:induction false} SettlePulse(a: Attempt, cause: StreamEndCause, why: EndCause)
    ensures PulseIn(Settle(a, cause, why).log) == PulseIn(a.log)
  {
    hide AnomaliesOf, Verdict, PulseIn;
    var more := [EndRecord(a, cause)] + AnomalyRecords(a.st);
    assert Settle(a, cause, why).log == a.log + more;
    NoPulse(a.log, more);
  }

  lemma {:induction false} TakenPulse(decode: Decoder, st: StreamView, n: nat, data: Bytes)
    ensures NoneBeats(TakeInstallment(decode, st, n, DataKind, data).log)
  {
    hide Judge, TextBytes, HasText;
  }

  lemma {:induction false} FramePulse(ctx: Ctx, a: Attempt, at: nat, gap: nat, ev: SseEvent)
    ensures PulseIn(OnFrame(ctx, a, at, gap, ev).log) == PulseIn(a.log)
  {
    hide PulseIn, TakeInstallment, Settle, NoneBeats;
    var b := Numbered(a);
    match ev.payload
    case Undecodable(raw) =>
      OneBeat(a.log, UndecodableInstallment(b.st.stream, b.st.attempt, b.loc.instSeq, raw));
    case Comment(_) =>
      var rec := InstallmentOf(b, ev, Complete);
      OneBeat(a.log, rec);
      OneBeat(a.log + [rec], Note(b, KeepAliveComment));
      assert a.log + [rec, Note(b, KeepAliveComment)] == a.log + [rec] + [Note(b, KeepAliveComment)];
    case Data(d) =>
      var c := DataReady(a, at, gap, ev);
      ReadyPulse(a, at, gap, ev);
      var t := TakeInstallment(ctx.decode, c.st, c.loc.instSeq, DataKind, d);
      TakenPulse(ctx.decode, c.st, c.loc.instSeq, d);
      NoPulse(c.log, t.log);
      var e := c.(st := t.st, log := c.log + t.log);
      SettlePulse(e, DoneSentinelConsumed, EndCause.StreamEnded);
      SettlePulse(e, HandlerAborted, HandlerAbort);
      SettlePulse(e, HandlerProtocolError, HandlerAbort);
  }

  lemma {:induction false} ReadyPulse(a: Attempt, at: nat, gap: nat, ev: SseEvent)
    requires ev.payload.Data?
    ensures PulseIn(DataReady(a, at, gap, ev).log) == PulseIn(a.log)
  {
    hide PulseIn;
    var b := Numbered(a);
    var more := [InstallmentOf(b, ev, Complete)] + PaceNotes(b, at, gap, ev.rawByteLen);
    assert DataReady(a, at, gap, ev).log == a.log + more;
    NoPulse(a.log, more);
  }

  lemma {:induction false} FramesPulse(ctx: Ctx, a: Attempt, at: nat, gap: nat, evs: seq<SseEvent>)
    ensures PulseIn(OnFrames(ctx, a, at, gap, evs).log) == PulseIn(a.log)
    decreases |evs|
  {
    hide PulseIn, OnFrame;
    if evs != [] {
      FramesPulse(ctx, a, at, gap, evs[..|evs| - 1]);
      FramePulse(ctx, OnFrames(ctx, a, at, gap, evs[..|evs| - 1]), at, gap, evs[|evs| - 1]);
    }
  }

  lemma {:induction false} ReadPulse(ctx: Ctx, a: Attempt, at: nat, bytes: Bytes)
    ensures PulseIn(OnRead(ctx, a, at, bytes).log) == PulseIn(a.log)
              + [Read(a.st.stream, a.st.attempt, a.loc.readSeq + 1, Ms(at), |bytes|, Ms(Since(at, a.loc.lastReadAt)))]
  {
    hide PulseIn, Split, EventsOf, OnFrames;
    var c := Split(a.buf + bytes);
    var b := CountRead(a, at, |bytes|).(buf := c.rest);
    OneBeat(a.log, b.log[|a.log|]);
    assert b.log == a.log + [b.log[|a.log|]];
    OneBeat(b.log, EndRecord(b, BufferOverflowed(DEFAULT_BUF_LIMIT)));
    assert PulseIn(b.log) + [] == PulseIn(b.log);
    FramesPulse(ctx, b, at, Since(at, a.loc.lastReadAt), EventsOf(c.blocks));
  }

  lemma {:induction false} TickPulse(ctx: Ctx, a: Attempt, at: nat)
    requires a.loc.firstByteAt.Some?
    ensures var w := Window(a.loc.window, Since(at, a.loc.firstByteAt.value) >= SECOND, at);
            PulseIn(OnTick(ctx, a, at).log) == PulseIn(a.log)
              + [ContentThroughput(a.st.stream, a.st.attempt, Evaluate(a.loc.gauge, w, ctx.cfg.floorBps).average)]
  {
    hide PulseIn, Evaluate;
    var w := Window(a.loc.window, Since(at, a.loc.firstByteAt.value) >= SECOND, at);
    var g := Evaluate(a.loc.gauge, w, ctx.cfg.floorBps);
    var rec := ContentThroughput(a.st.stream, a.st.attempt, g.average);
    var b := a.(loc := a.loc.(gauge := g, window := 0), log := a.log + [rec]);
    OneBeat(a.log, rec);
    OneBeat(b.log, EndRecord(b, ThroughputStarved(ctx.cfg.floorBps, Secs(ctx.cfg.sustained))));
    assert PulseIn(b.log) + [] == PulseIn(b.log);
  }

  lemma {:induction false} EofPulse(ctx: Ctx, a: Attempt)
    ensures PulseIn(OnEof(ctx, a).log) == PulseIn(a.log)
  {
    hide PulseIn, TailEvents, Settle, OnTail;
    var tail := TailEvents(a.buf);
    if tail != [] {
      TailPulse(ctx, a.(buf := []), tail[0]);
    } else if a.buf != [] {
      OneBeat(a.log, Residue(a.st.stream, a.st.attempt, a.buf));
    }
    var b := Leftover(ctx, a);
    var cause := if b.st.sawAnyContent then PeerClosed else ClosedWithNoContent;
    SettlePulse(b, cause, EndCause.StreamEnded);
    OneBeat(Settle(b, cause, EndCause.StreamEnded).log, Note(b, EofWithoutDoneSentinel));
    FinishEnds(b, cause, EndCause.StreamEnded);
  }

  lemma {:induction false} TailPulse(ctx: Ctx, a0: Attempt, ev: SseEvent)
    ensures PulseIn(OnTail(ctx, a0, ev).log) == PulseIn(a0.log)
  {
    hide PulseIn, TakeInstallment, NoneBeats;
    var a := Numbered(a0);
    match ev.payload
    case Undecodable(raw) => OneBeat(a.log, UndecodableInstallment(a.st.stream, a.st.attempt, a.loc.instSeq, raw));
    case Comment(_) => OneBeat(a.log, InstallmentOf(a, ev, RecoveredTail));
    case Data(d) =>
      var rec := InstallmentOf(a, ev, RecoveredTail);
      OneBeat(a.log, rec);
      TakenPulse(ctx.decode, a.st, a.loc.instSeq, d);
      NoPulse(a.log + [rec], TakeInstallment(ctx.decode, a.st, a.loc.instSeq, DataKind, d).log);
  }

  lemma {:induction false} FirstByteIff(ctx: Ctx, st: StreamView, wakes: seq<Wake>)
    requires AfterWakes(ctx, st, wakes).end.None?
    ensures AfterWakes(ctx, st, wakes).loc.firstByteAt.Some? <==> ReadsOf(wakes) != []
    decreases |wakes|
  {
    hide Step;
    if wakes != [] {
      var init := wakes[..|wakes| - 1];
      FirstByteIff(ctx, st, init);
      StepMeter(ctx, AfterWakes(ctx, st, init), wakes[|wakes| - 1]);
    }
  }

  /** A running attempt knows its reads and its windows. */
  ghost predicate Paced(ctx: Ctx, a: Attempt, st: StreamView, wakes: seq<Wake>) {
    && a.end.None? && a.loc.readSeq == |ReadsOf(wakes)| && a.loc.lastReadAt == LastReadTime(wakes)
    && a.st.stream == st.stream && a.st.attempt == st.attempt
    && a.loc.gauge == After(RESTING, Evaluated(ctx, st, wakes), ctx.cfg.floorBps)
    && (a.loc.firstByteAt.Some? <==> ReadsOf(wakes) != [])
  }

  lemma {:induction false} RunPaced(ctx: Ctx, st: StreamView, wakes: seq<Wake>)
    requires AfterWakes(ctx, st, wakes).end.None?
    ensures Paced(ctx, AfterWakes(ctx, st, wakes), st, wakes)
  {
    hide AfterWakes, DigestOf, UpTo, Evaluated, After, Total;
    RunTimes(ctx, st, wakes);
    AttemptAccounts(ctx, st, wakes);
    RunMetered(ctx, st, wakes);
    FirstByteIff(ctx, st, wakes);
  }

  lemma {:induction false} StepPulse(ctx: Ctx, a0: Attempt, st: StreamView, wakes: seq<Wake>)
    requires wakes != [] && Paced(ctx, a0, st, wakes[..|wakes| - 1])
    requires a0 == AfterWakes(ctx, st, wakes[..|wakes| - 1])
    ensures PulseIn(Step(ctx, a0, wakes[|wakes| - 1]).log) == PulseIn(a0.log) + BeatOf(ctx, st, wakes)
  {
    hide PulseIn, AfterWakes, OnRead, OnTick, OnEof, After, Weighted, Evaluate;
    var w, init := wakes[|wakes| - 1], wakes[..|wakes| - 1];
    var a := a0.(loc := a0.loc.(polls := a0.loc.polls + 1));
    assert PulseIn(a0.log) + [] == PulseIn(a0.log);
    match w.arm
    case ReadArm(bytes) => ReadPulse(ctx, a, w.at, bytes);
    case TickArm =>
      if a.loc.firstByteAt.Some? {
        TickPulse(ctx, a, w.at);
        var ws := Evaluated(ctx, st, init);
        WindowOneMore(ctx, ws, ClosedWindow(a0, w)[0]);
        AverageIsWeighted(ws + ClosedWindow(a0, w), ctx.cfg.floorBps);
      } else {
        EarlyTick(ctx, a, w.at);
      }
    case EofArm => EofPulse(ctx, a);
    case _ => OtherPulse(ctx, a0, w);
  }

  lemma EarlyTick(ctx: Ctx, a: Attempt, at: nat)
    requires a.loc.firstByteAt.None?
    ensures OnTick(ctx, a, at) == a
  {
  }

  lemma {:induction false} OtherPulse(ctx: Ctx, a: Attempt, w: Wake)
    requires !w.arm.ReadArm? && !w.arm.EofArm? && !w.arm.TickArm?
    ensures PulseIn(Step(ctx, a, w).log) == PulseIn(a.log)
  {
    hide PulseIn;
    var more := Step(ctx, a, w).log[|a.log|..];
    assert Step(ctx, a, w).log == a.log + more;
    NoPulse(a.log, more);
  }

  lemma {:induction false} RunPulse(ctx: Ctx, st: StreamView, wakes: seq<Wake>)
    requires wakes == [] || AfterWakes(ctx, st, wakes[..|wakes| - 1]).end.None?
    ensures PulseIn(AfterWakes(ctx, st, wakes).log) == PulseOf(ctx, st, wakes)
    decreases |wakes|
  {
    hide Step, BeatOf, Paced;
    if wakes != [] {
      var init := wakes[..|wakes| - 1];
      if init != [] { RanBeforeLast(ctx, st, init); }
      RunPulse(ctx, st, init);
      RunPaced(ctx, st, init);
      StepPulse(ctx, AfterWakes(ctx, st, init), st, wakes);
    }
  }

  lemma RanBeforeLast(ctx: Ctx, st: StreamView, wakes: seq<Wake>)
    requires wakes != [] && AfterWakes(ctx, st, wakes).end.None?
    ensures AfterWakes(ctx, st, wakes[..|wakes| - 1]).end.None?
  {
    hide Step;
  }

  /** An attempt reports each read it met with its number, time, size and gap, and at each tick after the first read the
      weighted average over the windows closed so far. */
  lemma {:induction false} AttemptBeats(ctx: Ctx, st: StreamView, wakes: seq<Wake>)
    requires st.fed == []
    ensures PulseIn(AfterWakes(ctx, st, wakes).log) == PulseOf(ctx, st, Met(ctx, wakes))
  {
    hide Step, PulseIn, PulseOf;
    var met := Met(ctx, wakes);
    MetSuffices(ctx, st, wakes);
    if met != [] { AttemptsAreIsolated(ctx, st, NewStream(0), met[..|met| - 1]); }
    RunPulse(ctx, st, met);
  }
}
