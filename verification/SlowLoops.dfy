/** The read loops that last longest on prompt timers, throughput ticks included: a peer that keeps talking, or, in a
    dialect without text, one that sends blank frames until the starvation guard trips. */
module SlowLoops {
  import opened Text
  import opened Framing
  import opened Sse
  import opened SseRuns
  import opened Machine
  import opened Refinement
  import opened Handler
  import opened Throughput
  import opened AttemptSpec
  import opened AttemptClock
  import opened AttemptPace
  import opened TurnSpec

  // ---- what one read brings ----

  /** An event that is accepted, stops nothing and brings `text` bytes. */
  predicate Flows(decode: Decoder, ev: SseEvent, text: nat) {
    ev.payload.Data? && match Judge(decode, ev.payload.data) {
      case Accept(evs, _, done) => !done && TextBytes(evs) == text
      case Reject(_, _) => false
    }
  }

  function Amount(n: nat, text: nat): nat { n * text }

  /** Whole frames with `n` such events. */
  ghost predicate Brings(decode: Decoder, payload: Bytes, n: nat, text: nat) {
    && Split(payload).rest == [] && |EventsOf(Split(payload).blocks)| == n
    && forall i | 0 <= i < n :: Flows(decode, EventsOf(Split(payload).blocks)[i], text)
  }

  lemma {:induction false} FrameFlows(ctx: Ctx, a: Attempt, at: nat, gap: nat, ev: SseEvent, text: nat)
    requires a.end.None? && Flows(ctx.decode, ev, text)
    ensures var b := OnFrame(ctx, a, at, gap, ev); b.end.None? && b.buf == a.buf && b.loc.window == a.loc.window + text
  {
    hide Judge, TextBytes, HasText, PaceNotes;
  }

  lemma {:induction false} FramesFlow(ctx: Ctx, a: Attempt, at: nat, gap: nat, evs: seq<SseEvent>, text: nat)
    requires a.end.None? && forall i | 0 <= i < |evs| :: Flows(ctx.decode, evs[i], text)
    ensures var b := OnFrames(ctx, a, at, gap, evs);
            b.end.None? && b.buf == a.buf && b.loc.window == a.loc.window + Amount(|evs|, text)
    decreases |evs|
  {
    hide OnFrame, Flows;
    if evs != [] {
      var init := evs[..|evs| - 1];
      FramesFlow(ctx, a, at, gap, init, text);
      FrameFlows(ctx, OnFrames(ctx, a, at, gap, init), at, gap, evs[|evs| - 1], text);
      assert |evs| * text == |init| * text + text;
    }
  }

  lemma {:induction false} BlankBrings(decode: Decoder)
    ensures Brings(decode, LFLF, 0, 0)
  {
    assert FirstEnd(LFLF, 2);
    SplitAt(LFLF, 2);
    SplitFree([]);
    var blocks := Split(LFLF).blocks;
    assert blocks[0].body == [] && blocks[..0] == [] && DataValues(Lines([])) == [];
  }

  function Repeated(frame: Bytes, n: nat): Bytes { if n == 0 then [] else Repeated(frame, n - 1) + frame }

  lemma {:induction false} RepeatedBrings(decode: Decoder, b: Block, ev: SseEvent, n: nat, text: nat)
    requires WholeFrame(b) && BlockEvent(b.body) == Some(ev) && Flows(decode, ev, text)
    ensures Brings(decode, Repeated(b.body + b.sep, n), n, text)
    decreases n
  {
    hide BlockEvent, WholeFrame, Flows, Split, EventsOf;
    if n == 0 {
      NothingBrings(decode, text);
    } else {
      var before, frame := Repeated(b.body + b.sep, n - 1), b.body + b.sep;
      RepeatedBrings(decode, b, ev, n - 1, text);
      OneFrame(b);
      SplitInSteps(before, frame);
      assert [] + frame == frame;
      EventsJoin(Split(before).blocks, [b]);
      OneBlock(b);
      assert EventsOf(Split(before + frame).blocks) == EventsOf(Split(before).blocks) + [ev];
    }
  }

  lemma {:induction false} NothingBrings(decode: Decoder, text: nat)
    ensures Brings(decode, [], 0, text)
  {
    SplitFree([]);
  }

  lemma {:induction false} OneFrame(b: Block)
    requires WholeFrame(b)
    ensures Split(b.body + b.sep) == Cutting([b], [])
  {
    hide Split;
    assert Bytewise([b]) + [] == b.body + b.sep by { assert [b][1..] == []; }
    assert forall k: nat :: !EndsFrame([], k);
    SplitIsTheOnlyCutting(Cutting([b], []));
  }

  /** Enough text in one read to keep the average up, however high the floor. */
  lemma {:induction false} EnoughText(ctx: Ctx) returns (payload: Bytes, n: nat, text: nat)
    requires ctx.cfg.floorBps == 0 || Talks(ctx.decode)
    ensures Brings(ctx.decode, payload, n, text) && 2 * Amount(n, text) >= 5 * ctx.cfg.floorBps
  {
    hide BlockEvent, WholeFrame, Judge, Brings;
    if ctx.cfg.floorBps == 0 {
      BlankBrings(ctx.decode);
      payload, n, text := LFLF, 0, 0;
    } else {
      var b: Block :| WholeFrame(b) && Talking(ctx.decode, b);
      var ev := BlockEvent(b.body).value;
      n, text := 3 * ctx.cfg.floorBps, TextBytes(Judge(ctx.decode, ev.payload.data).events);
      payload := Repeated(b.body + b.sep, n);
      RepeatedBrings(ctx.decode, b, ev, n, text);
      assert n * text >= n * 1;
    }
  }

  // ---- a running loop, one wake-up at a time ----

  /** Where a loop stands on its clocks, its buffer empty. */
  datatype Pose = Pose(now: nat, ticks: nat, lastRead: nat, readCount: nat, first: Option<nat>, gauge: Gauge,
      window: nat)

  predicate Holds(a: Attempt, p: Pose) {
    && a.end.None? && a.buf == []
    && ReadTimes(a) == (p.lastRead, p.readCount) && Meter(a) == (p.first, p.gauge) && a.loc.window == p.window
  }

  ghost predicate Posed(ctx: Ctx, st: StreamView, wakes: seq<Wake>, p: Pose) {
    && Prompt(ctx, st, wakes) && Holds(AfterWakes(ctx, st, wakes), p)
    && Previous(wakes, |wakes|) == p.now && Ticks(wakes) == p.ticks
  }

  predicate Due(cfg: Config, p: Pose, at: nat) {
    p.now <= at <= p.lastRead + (if p.readCount == 0 then cfg.backstop else cfg.stall) && at <= cfg.overall
        && at <= p.ticks * SECOND
  }

  lemma {:induction false} OneMorePrompt(ctx: Ctx, st: StreamView, wakes: seq<Wake>, w: Wake)
    requires Prompt(ctx, st, wakes)
    requires var a := AfterWakes(ctx, st, wakes);
             a.end.None? ==> OnTime(ctx.cfg, a.loc, Previous(wakes, |wakes|), Ticks(wakes), w)
    ensures Prompt(ctx, st, wakes + [w])
  {
    hide AfterWakes, OnTime;
    var more := wakes + [w];
    forall i: nat | i < |more| && RunningAt(ctx, st, more, i)
      ensures OnTime(ctx.cfg, AfterWakes(ctx, st, more[..i]).loc, Previous(more, i), Ticks(more[..i]), more[i])
    {
      if i < |wakes| {
        assert more[..i] == wakes[..i];
        assert RunningAt(ctx, st, wakes, i);
      } else {
        assert more[..i] == wakes;
      }
    }
  }

  lemma {:induction false} NextStep(ctx: Ctx, st: StreamView, wakes: seq<Wake>, w: Wake)
    requires AfterWakes(ctx, st, wakes).end.None?
    ensures AfterWakes(ctx, st, wakes + [w]) == Step(ctx, AfterWakes(ctx, st, wakes), w)
    ensures Ticks(wakes + [w]) == Ticks(wakes) + (if w.arm.TickArm? then 1 else 0)
    ensures Previous(wakes + [w], |wakes + [w]|) == w.at
  {
    hide Step;
    assert (wakes + [w])[..|wakes|] == wakes;
  }

  lemma {:induction false} DuePrompt(ctx: Ctx, st: StreamView, wakes: seq<Wake>, p: Pose, w: Wake)
    requires Posed(ctx, st, wakes, p) && Due(ctx.cfg, p, w.at)
    requires w.arm.TickArm? ==> w.at == p.ticks * SECOND
    requires w.arm.OverallArm? ==> w.at == ctx.cfg.overall
    requires w.arm.StallArm? ==> w.at == p.lastRead + if p.readCount == 0 then ctx.cfg.backstop else ctx.cfg.stall
    ensures Prompt(ctx, st, wakes + [w])
  {
    hide AfterWakes, Prompt;
    OneMorePrompt(ctx, st, wakes, w);
  }

  function Gauged(cfg: Config, p: Pose, at: nat): Gauge {
    match p.first
    case None => p.gauge
    case Some(f) => Evaluate(p.gauge, Window(p.window, Since(at, f) >= SECOND, at), cfg.floorBps)
  }

  function TickPose(p: Pose, at: nat, gauge: Gauge): Pose {
    p.(now := at, ticks := p.ticks + 1, gauge := gauge, window := if p.first.Some? then 0 else p.window)
  }

  lemma {:induction false} TickHolds(ctx: Ctx, a: Attempt, p: Pose, at: nat)
    requires Holds(a, p)
    ensures var g := Gauged(ctx.cfg, p, at); var b := Step(ctx, a, Wake(at, TickArm));
            if p.first.Some? && Overdue(g, at, ctx.cfg.sustained) then Starved(b.end) else Holds(b, TickPose(p, at, g))
  {
    hide Evaluate, Overdue;
  }

  lemma {:induction false} TickOn(ctx: Ctx, st: StreamView, wakes: seq<Wake>, p: Pose)
    requires Posed(ctx, st, wakes, p) && Due(ctx.cfg, p, p.ticks * SECOND)
    ensures var at := p.ticks * SECOND; var g := Gauged(ctx.cfg, p, at); var more := wakes + [Wake(at, TickArm)];
            if p.first.Some? && Overdue(g, at, ctx.cfg.sustained) then
              Prompt(ctx, st, more) && Starved(AfterWakes(ctx, st, more).end)
            else Posed(ctx, st, more, TickPose(p, at, g))
  {
    hide AfterWakes, Prompt, Step, Holds, Due, Gauged, Overdue, Ticks, Previous, Starved;
    var w := Wake(p.ticks * SECOND, TickArm);
    Running(AfterWakes(ctx, st, wakes), p);
    DuePrompt(ctx, st, wakes, p, w);
    NextStep(ctx, st, wakes, w);
    TickHolds(ctx, AfterWakes(ctx, st, wakes), p, w.at);
  }

  lemma {:induction false} ReadStep(ctx: Ctx, a: Attempt, at: nat, payload: Bytes, n: nat, text: nat)
    requires a.end.None? && a.buf == [] && Brings(ctx.decode, payload, n, text)
    ensures var b := Step(ctx, a, Wake(at, ReadArm(payload)));
            b.end.None? && b.buf == [] && b.loc.window == a.loc.window + Amount(n, text)
  {
    hide Split, EventsOf, Flows, OnFrames;
    var c := a.(loc := a.loc.(polls := a.loc.polls + 1));
    assert [] + payload == payload;
    FramesFlow(ctx, CountRead(c, at, |payload|).(buf := []), at, Since(at, c.loc.lastReadAt),
        EventsOf(Split(payload).blocks), text);
  }

  function ReadPose(p: Pose, at: nat, text: nat): Pose {
    p.(now := at, lastRead := at, readCount := p.readCount + 1, first := if p.first.None? then Some(at) else p.first,
       window := p.window + text)
  }

  lemma {:induction false} ReadHolds(ctx: Ctx, a: Attempt, p: Pose, at: nat, payload: Bytes, n: nat, text: nat)
    requires Holds(a, p) && Brings(ctx.decode, payload, n, text)
    ensures Holds(Step(ctx, a, Wake(at, ReadArm(payload))), ReadPose(p, at, Amount(n, text)))
  {
    hide Step, Brings, Evaluate, Overdue, StallDeadline;
    ReadStep(ctx, a, at, payload, n, text);
    StepMeter(ctx, a, Wake(at, ReadArm(payload)));
    StepTimes(ctx, a, Wake(at, ReadArm(payload)));
  }

  lemma Running(a: Attempt, p: Pose)
    requires Holds(a, p)
    ensures a.end.None?
  {
  }

  lemma {:induction false} ReadOn(ctx: Ctx, st: StreamView, wakes: seq<Wake>, p: Pose, at: nat, payload: Bytes, n: nat,
      text: nat)
    requires Posed(ctx, st, wakes, p) && Due(ctx.cfg, p, at) && Brings(ctx.decode, payload, n, text)
    ensures Posed(ctx, st, wakes + [Wake(at, ReadArm(payload))], ReadPose(p, at, Amount(n, text)))
  {
    hide AfterWakes, Prompt, Step, Brings, Due, Ticks, Previous, Holds;
    Running(AfterWakes(ctx, st, wakes), p);
    var w := Wake(at, ReadArm(payload));
    DuePrompt(ctx, st, wakes, p, w);
    NextStep(ctx, st, wakes, w);
    ReadHolds(ctx, AfterWakes(ctx, st, wakes), p, at, payload, n, text);
  }

  // ---- scripts ----

  /** Nothing comes; only the ticks. */
  function Quiet(n: nat): seq<Wake> { if n == 0 then [] else Quiet(n - 1) + [Wake((n - 1) * SECOND, TickArm)] }

  function QuietPose(n: nat): Pose { Pose(if n == 0 then 0 else (n - 1) * SECOND, n, 0, 0, None, RESTING, 0) }

  lemma {:induction false} QuietRuns(ctx: Ctx, st: StreamView, n: nat)
    requires n == 0 || (n - 1) * SECOND <= Min(ctx.cfg.backstop, ctx.cfg.overall)
    ensures Posed(ctx, st, Quiet(n), QuietPose(n))
    decreases n
  {
    hide AfterWakes, Posed;
    if n == 0 {
      StartPosed(ctx, st);
    } else {
      QuietRuns(ctx, st, n - 1);
      TickOn(ctx, st, Quiet(n - 1), QuietPose(n - 1));
    }
  }

  lemma StartPosed(ctx: Ctx, st: StreamView)
    ensures Posed(ctx, st, [], QuietPose(0))
  {
  }

  /** Ticks up to the first read, at `first`; from then on a tick and a read every second. */
  function Drum(first: nat, payload: Bytes, n: nat): seq<Wake> {
    var at := (first / SECOND + n) * SECOND;
    if n == 0 then Quiet(first / SECOND + 1) + [Wake(first, ReadArm(payload))]
    else Drum(first, payload, n - 1) + [Wake(at, TickArm)] + [Wake(at, ReadArm(payload))]
  }

  /** After `n` seconds of it. */
  function DrumPose(first: nat, n: nat, gauge: Gauge, window: nat): Pose {
    var q := first / SECOND;
    var at := if n == 0 then first else (q + n) * SECOND;
    Pose(at, q + n + 1, at, n + 1, Some(first), gauge, window)
  }

  lemma {:induction false} FirstBeat(ctx: Ctx, st: StreamView, first: nat, payload: Bytes, n: nat, text: nat)
    requires first <= Min(ctx.cfg.backstop, ctx.cfg.overall) && Brings(ctx.decode, payload, n, text)
    ensures Posed(ctx, st, Drum(first, payload, 0), DrumPose(first, 0, RESTING, Amount(n, text)))
  {
    hide Posed, Brings;
    var q := first / SECOND;
    QuietRuns(ctx, st, q + 1);
    ReadOn(ctx, st, Quiet(q + 1), QuietPose(q + 1), first, payload, n, text);
  }

  lemma {:induction false} Beat(ctx: Ctx, st: StreamView, first: nat, payload: Bytes, k: nat, gauge: Gauge,
      window: nat, n: nat, text: nat)
    requires ctx.cfg.stall >= SECOND && Brings(ctx.decode, payload, n, text)
    requires Posed(ctx, st, Drum(first, payload, k), DrumPose(first, k, gauge, window))
    requires (first / SECOND + k + 1) * SECOND <= ctx.cfg.overall
    requires var at := (first / SECOND + k + 1) * SECOND;
             !Overdue(Gauged(ctx.cfg, DrumPose(first, k, gauge, window), at), at, ctx.cfg.sustained)
    ensures var at := (first / SECOND + k + 1) * SECOND;
            Posed(ctx, st, Drum(first, payload, k + 1),
                  DrumPose(first, k + 1, Gauged(ctx.cfg, DrumPose(first, k, gauge, window), at), Amount(n, text)))
  {
    hide Posed, Brings, Overdue, Gauged, Drum, DrumPose, ReadPose, Due;
    var at := (first / SECOND + k + 1) * SECOND;
    var p := DrumPose(first, k, gauge, window);
    var g := Gauged(ctx.cfg, p, at);
    BeatDue(ctx.cfg, first, k, gauge, window, g);
    BeatPose(first, payload, k, gauge, window, g, Amount(n, text));
    TickOn(ctx, st, Drum(first, payload, k), p);
    ReadOn(ctx, st, Drum(first, payload, k) + [Wake(at, TickArm)], TickPose(p, at, g), at, payload, n, text);
  }

  lemma {:induction false} BeatPose(first: nat, payload: Bytes, k: nat, gauge: Gauge, window: nat, g: Gauge, text: nat)
    ensures var at := (first / SECOND + k + 1) * SECOND; var p := DrumPose(first, k, gauge, window);
            && p.first == Some(first) && ReadPose(TickPose(p, at, g), at, text) == DrumPose(first, k + 1, g, text)
            && Drum(first, payload, k + 1) == Drum(first, payload, k) + [Wake(at, TickArm)]
               + [Wake(at, ReadArm(payload))]
  {
  }

  lemma {:induction false} BeatDue(cfg: Config, first: nat, k: nat, gauge: Gauge, window: nat, g: Gauge)
    requires cfg.stall >= SECOND && (first / SECOND + k + 1) * SECOND <= cfg.overall
    ensures var at := (first / SECOND + k + 1) * SECOND; var p := DrumPose(first, k, gauge, window);
            at == p.ticks * SECOND && Due(cfg, p, at) && Due(cfg, TickPose(p, at, g), at)
  {
  }

  /** A peer that brings enough text every second is never overdue. */
  lemma {:induction false} KeepsTalking(ctx: Ctx, st: StreamView, payload: Bytes, n: nat, text: nat, k: nat)
      returns (gauge: Gauge)
    requires ctx.cfg.stall >= SECOND && Brings(ctx.decode, payload, n, text)
        && 2 * Amount(n, text) >= 5 * ctx.cfg.floorBps
    requires k * SECOND <= ctx.cfg.overall
    ensures Posed(ctx, st, Drum(0, payload, k), DrumPose(0, k, gauge, Amount(n, text)))
    ensures gauge.average >= 0.0 && gauge.starvedSince.None?
    decreases k
  {
    hide Posed, Brings, Drum;
    if k == 0 {
      FirstBeat(ctx, st, 0, payload, n, text);
      gauge := RESTING;
    } else {
      var g := KeepsTalking(ctx, st, payload, n, text, k - 1);
      gauge := Gauged(ctx.cfg, DrumPose(0, k - 1, g, Amount(n, text)), k * SECOND);
      Beat(ctx, st, 0, payload, k - 1, g, Amount(n, text), n, text);
    }
  }

  /** In blank frames the average stays at nothing, and the clock runs from the end of warm-up. */
  function FadedGauge(first: nat, at: nat): Gauge
  {
    Gauge(0.0, if at >= Up(first) + SECOND then Some(Up(first) + SECOND) else None)
  }

  lemma {:induction false} FadeStep(cfg: Config, first: nat, k: nat)
    requires cfg.floorBps > 0
    ensures var at := (first / SECOND + k + 1) * SECOND;
            var before := if k == 0 then first else (first / SECOND + k) * SECOND;
            Gauged(cfg, DrumPose(first, k, FadedGauge(first, before), 0), at) == FadedGauge(first, at)
  {
    UpIs(first, first / SECOND + k);
    UpIs(first, first / SECOND + k + 1);
    UpIs(first, first / SECOND);
  }

  lemma {:induction false} FadeDue(cfg: Config, first: nat, k: nat)
    ensures var at := k * SECOND;
            Overdue(FadedGauge(first, at), at, cfg.sustained) <==> at >= Up(first) + SECOND + Up(cfg.sustained)
  {
    if k > WholeSeconds(first) { UpIs(cfg.sustained, k - (WholeSeconds(first) + 1)); }
  }

  lemma {:induction false} Fading(ctx: Ctx, st: StreamView, first: nat, k: nat)
    requires ctx.cfg.stall >= SECOND && ctx.cfg.floorBps > 0 && first <= Min(ctx.cfg.backstop, ctx.cfg.overall)
    requires k == 0 || ((first / SECOND + k) * SECOND <= ctx.cfg.overall
        && (first / SECOND + k) * SECOND < Up(first) + SECOND + Up(ctx.cfg.sustained))
    ensures var at := if k == 0 then first else (first / SECOND + k) * SECOND;
            Posed(ctx, st, Drum(first, LFLF, k), DrumPose(first, k, FadedGauge(first, at), 0))
    decreases k
  {
    hide Posed, Brings, Drum, Up, Overdue;
    BlankBrings(ctx.decode);
    if k == 0 {
      FirstBeat(ctx, st, first, LFLF, 0, 0);
      UpIs(first, 0);
    } else {
      Fading(ctx, st, first, k - 1);
      var before := if k == 1 then first else (first / SECOND + k - 1) * SECOND;
      FadeStep(ctx.cfg, first, k - 1);
      FadeDue(ctx.cfg, first, first / SECOND + k);
      Beat(ctx, st, first, LFLF, k - 1, FadedGauge(first, before), 0, 0, 0);
    }
  }

  // ---- the longest loop of each configuration ----

  /** The longest the read loop can last: to the overall deadline, except that with no stall window nothing comes
      after the first read, and that a dialect without text is starved. */
  ghost function LoopBound(ctx: Ctx): nat {
    if ctx.cfg.stall == 0 then Min(ctx.cfg.backstop, ctx.cfg.overall)
    else if ctx.cfg.floorBps == 0 || Talks(ctx.decode) then ctx.cfg.overall
    else Min(ctx.cfg.overall, MeagreBound(ctx.cfg))
  }

  /** A loop on prompt timers that ends on the wire at `at`. */
  ghost predicate LastsTo(ctx: Ctx, st: StreamView, wakes: seq<Wake>, at: nat) {
    var end := AfterWakes(ctx, st, wakes).end;
    && Prompt(ctx, st, wakes) && EndsLoop(wakes) && EndTime(ctx, st, wakes) == at
    && end.Some? && end.value.OnWire? && !end.value.cause.Cancelled?
  }

  lemma {:induction false} TimerEnds(ctx: Ctx, a: Attempt, w: Wake)
    requires w.arm.OverallArm? || w.arm.StallArm?
    ensures var end := Step(ctx, a, w).end; end.Some? && end.value.OnWire? && !end.value.cause.Cancelled?
  {
  }

  lemma {:induction false} LastMet(ctx: Ctx, st: StreamView, wakes: seq<Wake>, w: Wake)
    requires AfterWakes(ctx, st, wakes).end.None?
    ensures EndTime(ctx, st, wakes + [w]) == w.at
  {
    hide AfterWakes;
    assert (wakes + [w])[..|wakes|] == wakes;
  }

  lemma {:induction false} EndsNow(ctx: Ctx, st: StreamView, wakes: seq<Wake>, p: Pose, w: Wake)
    requires Posed(ctx, st, wakes, p) && Due(ctx.cfg, p, w.at)
    requires || (w.arm.OverallArm? && w.at == ctx.cfg.overall)
             || (w.arm.StallArm? && w.at == p.lastRead + if p.readCount == 0 then ctx.cfg.backstop else ctx.cfg.stall)
    ensures LastsTo(ctx, st, wakes + [w], w.at)
  {
    hide AfterWakes, Prompt, Due, Step, Holds, EndTime, Ticks, Previous;
    Running(AfterWakes(ctx, st, wakes), p);
    DuePrompt(ctx, st, wakes, p, w);
    NextStep(ctx, st, wakes, w);
    TimerEnds(ctx, AfterWakes(ctx, st, wakes), w);
    LastMet(ctx, st, wakes, w);
  }

  /** A wake-up that is never met: the guard has ended the loop. */
  const UNMET := Wake(0, OverallArm)

  lemma {:induction false} StarvesNow(ctx: Ctx, st: StreamView, wakes: seq<Wake>, w: Wake)
    requires AfterWakes(ctx, st, wakes).end.None?
    requires Prompt(ctx, st, wakes + [w]) && Starved(AfterWakes(ctx, st, wakes + [w]).end)
    ensures LastsTo(ctx, st, wakes + [w] + [UNMET], w.at)
  {
    hide Step, Prompt, OnTime;
    var met := wakes + [w];
    assert met[..|wakes|] == wakes && (met + [UNMET])[..|met|] == met;
    OneMorePrompt(ctx, st, met, UNMET);
    assert EndTime(ctx, st, met) == w.at;
    assert EndTime(ctx, st, met + [UNMET]) == EndTime(ctx, st, met);
    assert AfterWakes(ctx, st, met + [UNMET]) == AfterWakes(ctx, st, met);
  }

  /** Ticks alone, up to the overall deadline or the first-byte backstop. */
  function Silence(cfg: Config): seq<Wake> {
    if cfg.overall <= cfg.backstop then Quiet(cfg.overall / SECOND + 1) + [Wake(cfg.overall, OverallArm)]
    else Quiet(cfg.backstop / SECOND + 1) + [Wake(cfg.backstop, StallArm)]
  }

  lemma {:induction false} SilenceLasts(ctx: Ctx, st: StreamView)
    ensures LastsTo(ctx, st, Silence(ctx.cfg), Min(ctx.cfg.backstop, ctx.cfg.overall))
  {
    hide Posed, LastsTo;
    var at := Min(ctx.cfg.backstop, ctx.cfg.overall);
    var n := at / SECOND + 1;
    QuietRuns(ctx, st, n);
    EndsNow(ctx, st, Quiet(n), QuietPose(n), Wake(at, if ctx.cfg.overall <= ctx.cfg.backstop then OverallArm
        else StallArm));
  }

  /** Text every second, up to the overall deadline. */
  function Monologue(cfg: Config, payload: Bytes): seq<Wake> {
    Drum(0, payload, cfg.overall / SECOND) + [Wake(cfg.overall, OverallArm)]
  }

  lemma {:induction false} MonologueLasts(ctx: Ctx, st: StreamView, payload: Bytes, n: nat, text: nat)
    requires ctx.cfg.stall >= SECOND && Brings(ctx.decode, payload, n, text)
        && 2 * Amount(n, text) >= 5 * ctx.cfg.floorBps
    ensures LastsTo(ctx, st, Monologue(ctx.cfg, payload), ctx.cfg.overall)
  {
    hide Posed, LastsTo, Brings, Drum;
    var k := ctx.cfg.overall / SECOND;
    var gauge := KeepsTalking(ctx, st, payload, n, text, k);
    EndsNow(ctx, st, Drum(0, payload, k), DrumPose(0, k, gauge, Amount(n, text)), Wake(ctx.cfg.overall, OverallArm));
  }

  /** Blank frames from the last moment for the first byte on, until the guard trips or the deadline comes. */
  function Blanks(cfg: Config): seq<Wake>
    requires cfg.backstop < cfg.overall
  {
    var q := cfg.backstop / SECOND;
    if MeagreBound(cfg) <= cfg.overall then
      Drum(cfg.backstop, LFLF, BlankBeats(cfg)) + [Wake(MeagreBound(cfg), TickArm)] + [UNMET]
    else Drum(cfg.backstop, LFLF, cfg.overall / SECOND - q) + [Wake(cfg.overall, OverallArm)]
  }

  /** The tick at which the sustained time is over. */
  lemma {:induction false} LastTick(ctx: Ctx, st: StreamView, first: nat, k: nat, gauge: Gauge)
    requires ctx.cfg.stall >= SECOND && (first / SECOND + k + 1) * SECOND <= ctx.cfg.overall
    requires Posed(ctx, st, Drum(first, LFLF, k), DrumPose(first, k, gauge, 0))
    requires var at := (first / SECOND + k + 1) * SECOND;
             Overdue(Gauged(ctx.cfg, DrumPose(first, k, gauge, 0), at), at, ctx.cfg.sustained)
    ensures var at := (first / SECOND + k + 1) * SECOND;
            LastsTo(ctx, st, Drum(first, LFLF, k) + [Wake(at, TickArm)] + [UNMET], at)
  {
    hide Posed, LastsTo, Drum, Overdue, Gauged, DrumPose, Due;
    var at := (first / SECOND + k + 1) * SECOND;
    var p := DrumPose(first, k, gauge, 0);
    BeatDue(ctx.cfg, first, k, gauge, 0, gauge);
    BeatPose(first, LFLF, k, gauge, 0, gauge, 0);
    TickOn(ctx, st, Drum(first, LFLF, k), p);
    PosedRuns(ctx, st, Drum(first, LFLF, k), p);
    StarvesNow(ctx, st, Drum(first, LFLF, k), Wake(at, TickArm));
  }

  lemma {:induction false} BlanksTrip(ctx: Ctx, st: StreamView)
    requires ctx.cfg.stall >= SECOND && ctx.cfg.floorBps > 0 && ctx.cfg.backstop < ctx.cfg.overall
    requires MeagreBound(ctx.cfg) <= ctx.cfg.overall
    ensures LastsTo(ctx, st, Blanks(ctx.cfg), MeagreBound(ctx.cfg))
  {
    hide Posed, LastsTo, Drum, Overdue, Gauged, FadedGauge, DrumPose, MeagreBound, Up, BlankBeats;
    var cfg := ctx.cfg;
    var first, q, k := cfg.backstop, cfg.backstop / SECOND, BlankBeats(cfg);
    var before := if k == 0 then first else (q + k) * SECOND;
    BlanksCount(cfg);
    Fading(ctx, st, first, k);
    FadeStep(cfg, first, k);
    FadeDue(cfg, first, q + k + 1);
    LastTick(ctx, st, first, k, FadedGauge(first, before));
  }

  function BlankBeats(cfg: Config): nat {
    WholeSeconds(cfg.backstop) - cfg.backstop / SECOND + WholeSeconds(cfg.sustained)
  }

  lemma {:induction false} BlanksCount(cfg: Config)
    ensures var at := (cfg.backstop / SECOND + BlankBeats(cfg) + 1) * SECOND;
            at == MeagreBound(cfg) == Up(cfg.backstop) + SECOND + Up(cfg.sustained)
  {
  }

  lemma PosedRuns(ctx: Ctx, st: StreamView, wakes: seq<Wake>, p: Pose)
    requires Posed(ctx, st, wakes, p)
    ensures AfterWakes(ctx, st, wakes).end.None?
  {
  }

  lemma {:induction false} BlanksToDeadline(ctx: Ctx, st: StreamView)
    requires ctx.cfg.stall >= SECOND && ctx.cfg.floorBps > 0 && ctx.cfg.backstop < ctx.cfg.overall
    requires MeagreBound(ctx.cfg) > ctx.cfg.overall
    ensures LastsTo(ctx, st, Blanks(ctx.cfg), ctx.cfg.overall)
  {
    hide Posed, LastsTo, Drum, Overdue, Up;
    var cfg := ctx.cfg;
    var first, q := cfg.backstop, cfg.backstop / SECOND;
    var k := cfg.overall / SECOND - q;
    var before := if k == 0 then first else (q + k) * SECOND;
    Fading(ctx, st, first, k);
    EndsNow(ctx, st, Drum(first, LFLF, k), DrumPose(first, k, FadedGauge(first, before), 0),
        Wake(cfg.overall, OverallArm));
  }

  /** In every configuration of whole seconds some loop lasts as long as any can. */
  lemma {:induction false} LongestLoop(ctx: Ctx) returns (wakes: seq<Wake>)
    requires ctx.cfg.stall == 0 || ctx.cfg.stall >= SECOND
    ensures forall st: StreamView :: LastsTo(ctx, st, wakes, LoopBound(ctx))
  {
    hide LastsTo, Silence, Monologue, Blanks, Brings, Talks, Up;
    var cfg := ctx.cfg;
    UpIs(cfg.backstop, 0);
    if cfg.stall == 0 || cfg.overall <= cfg.backstop {
      wakes := Silence(cfg);
      forall st: StreamView ensures LastsTo(ctx, st, wakes, LoopBound(ctx)) { SilenceLasts(ctx, st); }
    } else if cfg.floorBps == 0 || Talks(ctx.decode) {
      var payload, n, text := EnoughText(ctx);
      wakes := Monologue(cfg, payload);
      forall st: StreamView ensures LastsTo(ctx, st, wakes, LoopBound(ctx)) {
        MonologueLasts(ctx, st, payload, n, text);
      }
    } else {
      wakes := Blanks(cfg);
      forall st: StreamView ensures LastsTo(ctx, st, wakes, LoopBound(ctx)) {
        if MeagreBound(cfg) <= cfg.overall { BlanksTrip(ctx, st); } else { BlanksToDeadline(ctx, st); }
      }
    }
  }
}
