/** The clocks of an attempt. Timers are assumed prompt and processing instantaneous: a wake-up happens no later
    than the earliest of the timers armed for it, and a timer's wake-up happens exactly when it is due. The timers are
    the stall timer, the overall timer and the throughput tick. */
module AttemptClock {
  import opened Text
  import opened Framing
  import opened Sse
  import opened Vocabulary
  import opened Machine
  import opened Refinement
  import opened Handler
  import opened Throughput
  import opened AttemptSpec
  import opened AttemptOutcome
  import opened AttemptEvidence

  function StallDeadline(cfg: Config, loc: Locals): nat { loc.lastReadAt + StallWindow(cfg, loc) }

  /** When the overall timer is due: every turn of the loop, begun at `before`, arms it anew with the time that is
      left. */
  function OverallDue(cfg: Config, before: nat): nat { before + Since(cfg.overall, before) }

  /** The throughput ticks among `wakes`. The first is due at once, and one every second from then on. */
  function Ticks(wakes: seq<Wake>): nat {
    if wakes == [] then 0 else Ticks(wakes[..|wakes| - 1]) + if wakes[|wakes| - 1].arm.TickArm? then 1 else 0
  }

  /** No later than any of the timers armed on this turn of the loop: stall, overall and the next tick. */
  predicate OnTime(cfg: Config, loc: Locals, before: nat, ticks: nat, w: Wake) {
    && before <= w.at <= StallDeadline(cfg, loc) && w.at <= OverallDue(cfg, before) && w.at <= ticks * SECOND
    && (w.arm.StallArm? ==> w.at == StallDeadline(cfg, loc))
    && (w.arm.OverallArm? ==> w.at == OverallDue(cfg, before))
    && (w.arm.TickArm? ==> w.at == ticks * SECOND)
  }

  function Previous(wakes: seq<Wake>, i: nat): nat
    requires i <= |wakes|
  {
    if i == 0 then 0 else wakes[i - 1].at
  }

  predicate RunningAt(ctx: Ctx, st: StreamView, wakes: seq<Wake>, i: nat)
    requires i <= |wakes|
  {
    AfterWakes(ctx, st, wakes[..i]).end.None?
  }

  predicate Prompt(ctx: Ctx, st: StreamView, wakes: seq<Wake>) {
    forall i: nat | i < |wakes| && RunningAt(ctx, st, wakes, i) ::
      OnTime(ctx.cfg, AfterWakes(ctx, st, wakes[..i]).loc, Previous(wakes, i), Ticks(wakes[..i]), wakes[i])
  }

  function LastReadTime(wakes: seq<Wake>): nat {
    if wakes == [] then 0
    else if wakes[|wakes| - 1].arm.ReadArm? then wakes[|wakes| - 1].at
    else LastReadTime(wakes[..|wakes| - 1])
  }

  function ReadTimes(a: Attempt): (nat, nat) { (a.loc.lastReadAt, a.loc.readSeq) }

  lemma {:induction false} FramesKeepTimes(ctx: Ctx, a: Attempt, at: nat, gap: nat, evs: seq<SseEvent>)
    ensures ReadTimes(OnFrames(ctx, a, at, gap, evs)) == ReadTimes(a)
    decreases |evs|
  {
    hide TakeInstallment, PaceNotes, Verdict, AnomaliesOf;
    if evs != [] { FramesKeepTimes(ctx, a, at, gap, evs[..|evs| - 1]); }
  }

  /** Only a read moves the stall clock; no other wake-up, a throughput tick in particular, moves the stall deadline. */
  lemma {:induction false} StepTimes(ctx: Ctx, a: Attempt, w: Wake)
    ensures ReadTimes(Step(ctx, a, w)) == if w.arm.ReadArm? then (w.at, a.loc.readSeq + 1) else ReadTimes(a)
    ensures !w.arm.ReadArm? ==> StallDeadline(ctx.cfg, Step(ctx, a, w).loc) == StallDeadline(ctx.cfg, a.loc)
  {
    hide OnFrames, Split, EventsOf, TakeInstallment, Verdict, AnomaliesOf, BlockEvent, Evaluate;
    var b := a.(loc := a.loc.(polls := a.loc.polls + 1));
    match w.arm
    case ReadArm(bytes) =>
      var c := Split(b.buf + bytes);
      FramesKeepTimes(ctx, CountRead(b, w.at, |bytes|).(buf := c.rest), w.at, Since(w.at, b.loc.lastReadAt),
          EventsOf(c.blocks));
    case _ =>
  }

  lemma {:induction false} RunTimes(ctx: Ctx, st: StreamView, wakes: seq<Wake>)
    requires AfterWakes(ctx, st, wakes).end.None?
    ensures ReadTimes(AfterWakes(ctx, st, wakes)) == (LastReadTime(wakes), |ReadsOf(wakes)|)
    decreases |wakes|
  {
    hide Step;
    if wakes != [] {
      var init := wakes[..|wakes| - 1];
      RunTimes(ctx, st, init);
      StepTimes(ctx, AfterWakes(ctx, st, init), wakes[|wakes| - 1]);
    }
  }

  predicate NoReads(wakes: seq<Wake>) { forall i | 0 <= i < |wakes| :: !wakes[i].arm.ReadArm? }

  lemma {:induction false} LastReadIs(wakes: seq<Wake>, i: nat)
    requires i < |wakes| && wakes[i].arm.ReadArm? && NoReads(wakes[i + 1..])
    ensures LastReadTime(wakes) == wakes[i].at && |ReadsOf(wakes)| > 0
    decreases |wakes|
  {
    if i < |wakes| - 1 {
      assert !wakes[|wakes| - 1].arm.ReadArm? by { assert wakes[i + 1..][|wakes| - i - 2] == wakes[|wakes| - 1]; }
      var init := wakes[..|wakes| - 1];
      var before, after := init[i + 1..], wakes[i + 1..];
      assert forall k | 0 <= k < |before| :: before[k] == after[k];
      LastReadIs(init, i);
    }
  }

  lemma {:induction false} NoReadYet(wakes: seq<Wake>)
    requires NoReads(wakes)
    ensures LastReadTime(wakes) == 0 && ReadsOf(wakes) == []
    decreases |wakes|
  {
    if wakes != [] {
      var init := wakes[..|wakes| - 1];
      assert forall k | 0 <= k < |init| :: init[k] == wakes[k];
      NoReadYet(init);
    }
  }

  /** Arming the overall timer anew on every turn of the loop never puts it off: it is always due at the deadline. */
  lemma {:induction false} OverallHolds(ctx: Ctx, st: StreamView, wakes: seq<Wake>, j: nat)
    requires Prompt(ctx, st, wakes) && j <= |wakes| && (j == 0 || RunningAt(ctx, st, wakes, j - 1))
    ensures Previous(wakes, j) <= ctx.cfg.overall && OverallDue(ctx.cfg, Previous(wakes, j)) == ctx.cfg.overall
    decreases j
  {
    hide AfterWakes;
    if j > 0 {
      if j > 1 { RanBefore(ctx, st, wakes, j - 1); }
      OverallHolds(ctx, st, wakes, j - 1);
    }
  }

  lemma {:induction false} RanBefore(ctx: Ctx, st: StreamView, wakes: seq<Wake>, j: nat)
    requires 0 < j <= |wakes| && RunningAt(ctx, st, wakes, j)
    ensures RunningAt(ctx, st, wakes, j - 1)
  {
    hide Step;
    assert wakes[..j][..j - 1] == wakes[..j - 1];
  }

  /** In every run: before the first read no wake-up is later than the first-byte backstop; after a read none is later
      than the stall window, whatever ticks come in between; and none is later than the overall deadline. */
  lemma {:induction false} ClockSafety(ctx: Ctx, st: StreamView, wakes: seq<Wake>, j: nat)
    requires Prompt(ctx, st, wakes) && j < |wakes| && RunningAt(ctx, st, wakes, j)
    ensures Previous(wakes, j) <= wakes[j].at <= ctx.cfg.overall
    ensures wakes[j].arm.OverallArm? ==> wakes[j].at == ctx.cfg.overall
    ensures NoReads(wakes[..j]) ==> wakes[j].at <= ctx.cfg.backstop
    ensures forall i: nat | i < j && wakes[i].arm.ReadArm? && NoReads(wakes[i + 1..j]) ::
              wakes[j].at <= wakes[i].at + ctx.cfg.stall
  {
    hide AfterWakes;
    RunTimes(ctx, st, wakes[..j]);
    OverallHolds(ctx, st, wakes, j + 1);
    if NoReads(wakes[..j]) { NoReadYet(wakes[..j]); }
    forall i: nat | i < j && wakes[i].arm.ReadArm? && NoReads(wakes[i + 1..j])
      ensures wakes[j].at <= wakes[i].at + ctx.cfg.stall
    {
      assert wakes[..j][i + 1..] == wakes[i + 1..j] && wakes[..j][i] == wakes[i];
      LastReadIs(wakes[..j], i);
    }
  }

  lemma {:induction false} OneMoreWake(ctx: Ctx, st: StreamView, wakes: seq<Wake>, j: nat)
    requires j < |wakes| && RunningAt(ctx, st, wakes, j)
    ensures AfterWakes(ctx, st, wakes[..j + 1]) == Step(ctx, AfterWakes(ctx, st, wakes[..j]), wakes[j])
  {
    hide Step;
    assert wakes[..j + 1][..j] == wakes[..j];
  }

  lemma StallStep(ctx: Ctx, a: Attempt, w: Wake)
    requires w.arm.StallArm?
    ensures Step(ctx, a, w).end == Some(OnWire(
              if a.loc.readSeq == 0 then FirstByteBackstop(Secs(ctx.cfg.backstop))
                  else StallTimeout(Secs(ctx.cfg.stall))))
  {
  }

  /** The stall timer fires exactly one window after the last read, and the cause says which window it was. */
  lemma {:induction false} StallFiresOnTime(ctx: Ctx, st: StreamView, wakes: seq<Wake>, i: nat, j: nat)
    requires Prompt(ctx, st, wakes) && i < j < |wakes| && RunningAt(ctx, st, wakes, j)
    requires wakes[i].arm.ReadArm? && NoReads(wakes[i + 1..j]) && wakes[j].arm.StallArm?
    ensures wakes[j].at == wakes[i].at + ctx.cfg.stall
    ensures AfterWakes(ctx, st, wakes[..j + 1]).end == Some(OnWire(StallTimeout(Secs(ctx.cfg.stall))))
  {
    hide AfterWakes, Step;
    OneMoreWake(ctx, st, wakes, j);
    StallStep(ctx, AfterWakes(ctx, st, wakes[..j]), wakes[j]);
    RunTimes(ctx, st, wakes[..j]);
    assert wakes[..j][i + 1..] == wakes[i + 1..j] && wakes[..j][i] == wakes[i];
    LastReadIs(wakes[..j], i);
  }

  /** The overall timer fires exactly at the deadline, however late the last read was, and says so. */
  lemma {:induction false} OverallFiresOnTime(ctx: Ctx, st: StreamView, wakes: seq<Wake>, j: nat)
    requires Prompt(ctx, st, wakes) && j < |wakes| && RunningAt(ctx, st, wakes, j) && wakes[j].arm.OverallArm?
    ensures wakes[j].at == ctx.cfg.overall
    ensures AfterWakes(ctx, st, wakes[..j + 1]).end
         == Some(OnWire(OverallDeadline(ctx.cfg.overall / 1_000_000_000)))
  {
    hide AfterWakes, Step;
    OneMoreWake(ctx, st, wakes, j);
    OverallStep(ctx, AfterWakes(ctx, st, wakes[..j]), wakes[j]);
    ClockSafety(ctx, st, wakes, j);
  }

  lemma OverallStep(ctx: Ctx, a: Attempt, w: Wake)
    requires w.arm.OverallArm?
    ensures Step(ctx, a, w).end == Some(OnWire(OverallDeadline(ctx.cfg.overall / 1_000_000_000)))
  {
  }

  // ---- the starvation guard inside the loop ----

  /** The window a wake-up closes, if it is a tick after the first byte. */
  function ClosedWindow(a: Attempt, w: Wake): seq<Window> {
    if a.end.None? && w.arm.TickArm? && a.loc.firstByteAt.Some? then
      [Window(a.loc.window, Since(w.at, a.loc.firstByteAt.value) >= SECOND, w.at)]
    else []
  }

  function Evaluated(ctx: Ctx, st: StreamView, wakes: seq<Wake>): seq<Window> {
    if wakes == [] then []
    else
      Evaluated(ctx, st, wakes[..|wakes| - 1]) +
      ClosedWindow(AfterWakes(ctx, st, wakes[..|wakes| - 1]), wakes[|wakes| - 1])
  }

  /** The loop's average is the guard's over the windows so far, and windows and pending bytes make up the attempt's
      text. */
  ghost predicate Metered(ctx: Ctx, a: Attempt, st: StreamView, ws: seq<Window>) {
    a.end.None? ==>
      && a.loc.gauge == After(RESTING, ws, ctx.cfg.floorBps)
      && Total(ws) + a.loc.window == a.st.contentBytes - st.contentBytes
  }

  lemma FrameMetered(ctx: Ctx, a: Attempt, at: nat, gap: nat, ev: SseEvent, st: StreamView, ws: seq<Window>)
    requires Metered(ctx, a, st, ws) && a.end.None?
    ensures Metered(ctx, OnFrame(ctx, a, at, gap, ev), st, ws)
  {
    hide Judge, TextBytes, HasText, PaceNotes, Verdict, AnomaliesOf, After, Total;
  }

  lemma {:induction false} FramesMetered(ctx: Ctx, a: Attempt, at: nat, gap: nat, evs: seq<SseEvent>, st: StreamView,
                                         ws: seq<Window>)
    requires Metered(ctx, a, st, ws) && a.end.None?
    ensures Metered(ctx, OnFrames(ctx, a, at, gap, evs), st, ws)
    decreases |evs|
  {
    hide OnFrame, After, Total;
    if evs != [] {
      var b := OnFrames(ctx, a, at, gap, evs[..|evs| - 1]);
      FramesMetered(ctx, a, at, gap, evs[..|evs| - 1], st, ws);
      if b.end.None? { FrameMetered(ctx, b, at, gap, evs[|evs| - 1], st, ws); }
    }
  }

  lemma {:induction false} WindowOneMore(ctx: Ctx, ws: seq<Window>, w: Window)
    ensures After(RESTING, ws + [w], ctx.cfg.floorBps) == Evaluate(After(RESTING, ws, ctx.cfg.floorBps), w,
        ctx.cfg.floorBps)
    ensures Total(ws + [w]) == Total(ws) + w.bytes
  {
    assert (ws + [w])[..|ws|] == ws;
  }

  lemma {:induction false} StepMetered(ctx: Ctx, a0: Attempt, w: Wake, st: StreamView, ws: seq<Window>)
    requires Metered(ctx, a0, st, ws) && a0.end.None?
    ensures Metered(ctx, Step(ctx, a0, w), st, ws + ClosedWindow(a0, w))
    ensures var b := Step(ctx, a0, w);
            b.end.Some? && b.end.value.OnWire? && b.end.value.cause.ThroughputStarved? ==>
              TripsAt(RESTING, ws + ClosedWindow(a0, w), ctx.cfg.floorBps, ctx.cfg.sustained)
  {
    hide TextBytes, HasText, Split, EventsOf, OnFrames, Evaluate, OnEof, AnomaliesOf, Verdict, After, Total;
    var a := a0.(loc := a0.loc.(polls := a0.loc.polls + 1));
    assert ws + [] == ws;
    match w.arm
    case ReadArm(bytes) =>
      var c := Split(a.buf + bytes);
      if |c.rest| <= DEFAULT_BUF_LIMIT {
        var b := CountRead(a, w.at, |bytes|).(buf := c.rest);
        FramesMetered(ctx, b, w.at, Since(w.at, a.loc.lastReadAt), EventsOf(c.blocks), st, ws);
        FramesKeepBuffer(ctx, b, w.at, Since(w.at, a.loc.lastReadAt), EventsOf(c.blocks));
      }
    case TickArm =>
      if a.loc.firstByteAt.Some? { WindowOneMore(ctx, ws, ClosedWindow(a0, w)[0]); }
    case EofArm => EofEnds(ctx, a);
    case _ =>
  }

  ghost predicate Starved(end: Option<AttemptEnd>) {
    end.Some? && end.value.OnWire? && end.value.cause.ThroughputStarved?
  }

  lemma {:induction false} RunMetered(ctx: Ctx, st: StreamView, wakes: seq<Wake>)
    ensures Metered(ctx, AfterWakes(ctx, st, wakes), st, Evaluated(ctx, st, wakes))
    ensures Starved(AfterWakes(ctx, st, wakes).end) ==>
              TripsAt(RESTING, Evaluated(ctx, st, wakes), ctx.cfg.floorBps, ctx.cfg.sustained)
    decreases |wakes|
  {
    hide Step, After, Total, TripsAt;
    if wakes == [] {
      NothingMetered(ctx, st);
    } else {
      var init, w := wakes[..|wakes| - 1], wakes[|wakes| - 1];
      var a := AfterWakes(ctx, st, init);
      RunMetered(ctx, st, init);
      if a.end.None? {
        StepMetered(ctx, a, w, st, Evaluated(ctx, st, init));
      } else {
        assert ClosedWindow(a, w) == [];
        assert Evaluated(ctx, st, init) + [] == Evaluated(ctx, st, init);
      }
    }
  }

  lemma NothingMetered(ctx: Ctx, st: StreamView)
    ensures Metered(ctx, Begin(st), st, [])
  {
  }

  /** An attempt that ends as starved did have `k` windows in a row, up to the last, all warmed up and averaging
      below the floor, spanning the sustained time, with less text than floor * (k + 1.5) bytes in them. */
  lemma {:induction false} StarvedAttempt(ctx: Ctx, st: StreamView, wakes: seq<Wake>) returns (k: nat)
    requires Starved(AfterWakes(ctx, st, wakes).end)
    ensures var ws := Evaluated(ctx, st, wakes);
            && 0 < k <= |ws| && LowStreak(RESTING, ws, ctx.cfg.floorBps, k)
            && Since(ws[|ws| - 1].at, ws[|ws| - k].at) >= ctx.cfg.sustained
            && Total(ws[|ws| - k..]) as real < (ctx.cfg.floorBps as real) * (k as real + 1.5)
  {
    hide AfterWakes, Evaluated;
    RunMetered(ctx, st, wakes);
    k := StarvationSoundness(RESTING, Evaluated(ctx, st, wakes), ctx.cfg.floorBps, ctx.cfg.sustained);
  }

  /** And the windows account for the text: while the attempt runs, closed windows and pending bytes make up exactly
      the text it has produced. */
  lemma {:induction false} WindowsHoldTheText(ctx: Ctx, st: StreamView, wakes: seq<Wake>)
    requires st.fed == [] && EofIsLast(wakes) && AfterWakes(ctx, st, wakes).end.None?
    ensures Total(Evaluated(ctx, st, wakes)) + AfterWakes(ctx, st, wakes).loc.window
         == TextBytes(Consume(ctx.decode, EventsOf(Split(BytesOf(wakes)).blocks)).fed)
  {
    hide AfterWakes, Evaluated, Total, TextBytes, Consume, Split, EventsOf, BytesOf, After;
    RunMetered(ctx, st, wakes);
    RunGains(ctx, st, wakes);
    RunStanding(ctx, st, wakes);
  }

  // ---- silence ----

  /** Ticks a second or more apart, from the end of warm-up on. */
  predicate SilentTicks(firstByteAt: Option<nat>, ticks: seq<Wake>) {
    && firstByteAt.Some?
    && (forall i | 0 <= i < |ticks| :: ticks[i].arm.TickArm? && Since(ticks[i].at, firstByteAt.value) >= SECOND)
    && (forall i | 0 < i < |ticks| :: ticks[i].at >= ticks[i - 1].at + SECOND)
  }

  function SilentWindows(ticks: seq<Wake>): seq<Window> {
    seq(|ticks|, i requires 0 <= i < |ticks| => Window(0, true, ticks[i].at))
  }

  lemma {:induction false} TickStep(ctx: Ctx, a: Attempt, w: Wake)
    requires w.arm.TickArm? && a.loc.firstByteAt.Some? && a.loc.window == 0
    requires Since(w.at, a.loc.firstByteAt.value) >= SECOND && a.end.None?
    ensures var b := Step(ctx, a, w); var g := Evaluate(a.loc.gauge, Window(0, true, w.at), ctx.cfg.floorBps);
            && b.loc.gauge == g && b.loc.window == 0 && b.loc.firstByteAt == a.loc.firstByteAt
            && (b.end.None? || Starved(b.end)) && (b.end.Some? <==> Overdue(g, w.at, ctx.cfg.sustained))
  {
    hide Evaluate;
  }

  /** A run of silent ticks is a run of the guard over empty windows, until it trips. */
  lemma {:induction false} TicksRun(ctx: Ctx, st: StreamView, wakes: seq<Wake>, ticks: seq<Wake>)
    requires var a := AfterWakes(ctx, st, wakes);
             a.end.None? && a.loc.window == 0 && SilentTicks(a.loc.firstByteAt, ticks)
    ensures var a, b := AfterWakes(ctx, st, wakes), AfterWakes(ctx, st, wakes + ticks);
            && (b.end.None? || Starved(b.end))
            && (b.end.None? ==>
                  && b.loc.gauge == After(a.loc.gauge, SilentWindows(ticks), ctx.cfg.floorBps) && b.loc.window == 0
                  && b.loc.firstByteAt == a.loc.firstByteAt
                  && !TripsAt(a.loc.gauge, SilentWindows(ticks), ctx.cfg.floorBps, ctx.cfg.sustained))
    decreases |ticks|
  {
    hide Step, Evaluate, Overdue;
    if ticks == [] {
      assert wakes + ticks == wakes;
    } else {
      var init, w := ticks[..|ticks| - 1], ticks[|ticks| - 1];
      assert (wakes + ticks)[..|wakes + ticks| - 1] == wakes + init;
      TicksRun(ctx, st, wakes, init);
      assert SilentWindows(ticks)[..|init|] == SilentWindows(init);
      var b := AfterWakes(ctx, st, wakes + init);
      if b.end.None? { TickStep(ctx, b, w); }
    }
  }

  lemma {:induction false} EvaluatedBy(ctx: Ctx, st: StreamView, wakes: seq<Wake>, t: nat)
    requires forall i | 0 <= i < |wakes| :: wakes[i].at <= t
    ensures forall k | 0 <= k < |Evaluated(ctx, st, wakes)| :: Evaluated(ctx, st, wakes)[k].at <= t
    decreases |wakes|
  {
    hide AfterWakes;
    if wakes != [] { EvaluatedBy(ctx, st, wakes[..|wakes| - 1], t); }
  }

  /** An attempt that falls silent is ended as starved: within `j` ticks that bring the average below the floor and the
      sustained time in whole seconds. */
  lemma {:induction false} SilenceStarves(ctx: Ctx, st: StreamView, wakes: seq<Wake>, ticks: seq<Wake>, j: nat)
    requires var a := AfterWakes(ctx, st, wakes);
             && a.end.None? && a.loc.window == 0 && SilentTicks(a.loc.firstByteAt, ticks)
             && j >= 1 && Decay(j) * a.loc.gauge.average < ctx.cfg.floorBps as real
    requires |ticks| >= j + WholeSeconds(ctx.cfg.sustained) && forall i | 0 <= i < |wakes| :: wakes[i].at <= ticks[0].at
    ensures Starved(AfterWakes(ctx, st, wakes + ticks).end)
  {
    hide AfterWakes, Evaluated, After, TripsAt;
    var g, floor := AfterWakes(ctx, st, wakes).loc.gauge, ctx.cfg.floorBps;
    var before, ws := Evaluated(ctx, st, wakes), SilentWindows(ticks);
    RunMetered(ctx, st, wakes);
    EvaluatedBy(ctx, st, wakes, ticks[0].at);
    AverageNonNegative(RESTING, before, floor);
    var k := ClockStart(RESTING, before, floor);
    StarvationLiveness(g, ws, floor, ctx.cfg.sustained, j);
    TicksRun(ctx, st, wakes, ticks);
  }
}
