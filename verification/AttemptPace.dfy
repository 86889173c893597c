/** The starvation guard on prompt timers: how long an attempt can last on too little text, and how much is enough. */
module AttemptPace {
  import opened Text
  import opened Framing
  import opened Sse
  import opened SseRuns
  import opened Vocabulary
  import opened Machine
  import opened Refinement
  import opened Handler
  import opened Throughput
  import opened AttemptSpec
  import opened AttemptOutcome
  import opened AttemptEvidence
  import opened AttemptReceived
  import opened AttemptClock

  /** `d` up to whole seconds. */
  function Up(d: nat): nat { WholeSeconds(d) * SECOND }

  lemma {:induction false} UpIs(d: nat, k: nat)
    ensures d <= Up(d) < d + SECOND
    ensures k * SECOND < d + SECOND ==> k * SECOND <= Up(d)
    ensures d <= k * SECOND ==> Up(d) <= k * SECOND
  {
  }

  // ---- the meter of an attempt: first byte, average and clock ----

  function Meter(a: Attempt): (Option<nat>, Gauge) { (a.loc.firstByteAt, a.loc.gauge) }

  lemma {:induction false} FramesKeepMeter(ctx: Ctx, a: Attempt, at: nat, gap: nat, evs: seq<SseEvent>)
    ensures Meter(OnFrames(ctx, a, at, gap, evs)) == Meter(a)
    decreases |evs|
  {
    hide TakeInstallment, PaceNotes, Verdict, AnomaliesOf;
    if evs != [] { FramesKeepMeter(ctx, a, at, gap, evs[..|evs| - 1]); }
  }

  /** Only the first read sets the first byte's time, and only a tick after it moves the gauge. */
  lemma {:induction false} StepMeter(ctx: Ctx, a: Attempt, w: Wake)
    requires Step(ctx, a, w).end.None?
    ensures var b := Step(ctx, a, w);
            match w.arm
            case ReadArm(_) =>
              Meter(b) == (if a.loc.firstByteAt.None? then Some(w.at) else a.loc.firstByteAt, a.loc.gauge)
            case TickArm =>
              if a.loc.firstByteAt.None? then Meter(b) == Meter(a)
              else
                var g := Evaluate(a.loc.gauge, Window(a.loc.window, Since(w.at, a.loc.firstByteAt.value) >= SECOND,
                    w.at), ctx.cfg.floorBps);
                Meter(b) == (a.loc.firstByteAt, g) && (a.end.None? ==> !Overdue(g, w.at, ctx.cfg.sustained))
            case _ => a.end.Some?
  {
    hide OnFrames, Split, EventsOf, Evaluate, OnEof;
    var b := a.(loc := a.loc.(polls := a.loc.polls + 1));
    match w.arm
    case ReadArm(bytes) =>
      var c := Split(b.buf + bytes);
      FramesKeepMeter(ctx, CountRead(b, w.at, |bytes|).(buf := c.rest), w.at, Since(w.at, b.loc.lastReadAt),
          EventsOf(c.blocks));
    case EofArm => EofEnds(ctx, b);
    case _ =>
  }

  lemma {:induction false} TickTimes(ctx: Ctx, st: StreamView, wakes: seq<Wake>, j: nat)
    requires Prompt(ctx, st, wakes) && j <= |wakes| && (j == 0 || RunningAt(ctx, st, wakes, j - 1))
    ensures Ticks(wakes[..j]) == 0 || (Ticks(wakes[..j]) - 1) * SECOND <= Previous(wakes, j)
    decreases j
  {
    hide AfterWakes;
    if j > 0 {
      if j > 1 { RanBefore(ctx, st, wakes, j - 1); }
      TickTimes(ctx, st, wakes, j - 1);
      assert wakes[..j][..j - 1] == wakes[..j - 1];
    }
  }

  // ---- too little text ----

  /** Every window the loop closes holds the floor or less. */
  predicate Meagre(ctx: Ctx, st: StreamView, wakes: seq<Wake>) { AtMost(Evaluated(ctx, st, wakes), ctx.cfg.floorBps) }

  /** With too little text, the clock starts by the end of warm-up, and `n` ticks leave it less than the sustained
      time behind. */
  ghost predicate Sinking(cfg: Config, a: Attempt, n: nat) {
    match a.loc.firstByteAt
    case None => a.loc.gauge == RESTING
    case Some(f) =>
      && 0.0 <= a.loc.gauge.average < cfg.floorBps as real
      && match a.loc.gauge.starvedSince
         case None => n * SECOND <= Up(f) + SECOND
         case Some(v) => v % SECOND == 0 && v <= Up(f) + SECOND && n * SECOND <= v + Up(cfg.sustained)
  }

  lemma {:induction false} ReadSinks(ctx: Ctx, a: Attempt, b: Attempt, n: nat, at: nat)
    requires Sinking(ctx.cfg, a, n) && ctx.cfg.floorBps > 0 && (n == 0 || (n - 1) * SECOND <= at)
    requires Meter(b) == (if a.loc.firstByteAt.None? then Some(at) else a.loc.firstByteAt, a.loc.gauge)
    ensures Sinking(ctx.cfg, b, n)
  {
    UpIs(at, n);
  }

  lemma {:induction false} TickSinks(cfg: Config, g: Gauge, f: nat, n: nat, bytes: nat)
    requires 0.0 <= g.average < cfg.floorBps as real && bytes <= cfg.floorBps
    requires match g.starvedSince
             case None => n * SECOND <= Up(f) + SECOND
             case Some(v) => v % SECOND == 0 && v <= Up(f) + SECOND && n * SECOND <= v + Up(cfg.sustained)
    requires var h := Evaluate(g, Window(bytes, Since(n * SECOND, f) >= SECOND, n * SECOND), cfg.floorBps);
             !Overdue(h, n * SECOND, cfg.sustained)
    ensures var h := Evaluate(g, Window(bytes, Since(n * SECOND, f) >= SECOND, n * SECOND), cfg.floorBps);
            && 0.0 <= h.average < cfg.floorBps as real
            && match h.starvedSince
               case None => (n + 1) * SECOND <= Up(f) + SECOND
               case Some(v) => v % SECOND == 0 && v <= Up(f) + SECOND && (n + 1) * SECOND <= v + Up(cfg.sustained)
  {
    var h := Evaluate(g, Window(bytes, Since(n * SECOND, f) >= SECOND, n * SECOND), cfg.floorBps);
    UpIs(f, n);
    match h.starvedSince
    case None =>
    case Some(v) =>
      UpIs(cfg.sustained, n + 1 - v / SECOND);
      assert v == v / SECOND * SECOND;
  }

  lemma {:induction false} StepSinks(ctx: Ctx, a: Attempt, w: Wake, n: nat)
    requires Sinking(ctx.cfg, a, n) && ctx.cfg.floorBps > 0 && a.end.None? && Step(ctx, a, w).end.None?
    requires (n == 0 || (n - 1) * SECOND <= w.at) && (w.arm.TickArm? ==> w.at == n * SECOND)
    requires AtMost(ClosedWindow(a, w), ctx.cfg.floorBps)
    ensures Sinking(ctx.cfg, Step(ctx, a, w), n + if w.arm.TickArm? then 1 else 0)
  {
    hide Step, Evaluate, Up;
    StepMeter(ctx, a, w);
    var b := Step(ctx, a, w);
    if w.arm.ReadArm? {
      ReadSinks(ctx, a, b, n, w.at);
    } else if w.arm.TickArm? && a.loc.firstByteAt.Some? {
      assert ClosedWindow(a, w)[0].bytes <= ctx.cfg.floorBps;
      TickSinks(ctx.cfg, a.loc.gauge, a.loc.firstByteAt.value, n, a.loc.window);
    }
  }

  lemma {:induction false} RunSinks(ctx: Ctx, st: StreamView, wakes: seq<Wake>, j: nat)
    requires Prompt(ctx, st, wakes) && ctx.cfg.floorBps > 0 && j <= |wakes| && RunningAt(ctx, st, wakes, j)
    requires Meagre(ctx, st, wakes[..j])
    ensures var a := AfterWakes(ctx, st, wakes[..j]);
            && Sinking(ctx.cfg, a, Ticks(wakes[..j]))
            && (a.loc.firstByteAt.Some? ==> a.loc.firstByteAt.value <= Min(ctx.cfg.backstop, ctx.cfg.overall))
            && (a.loc.firstByteAt.None? ==> a.loc.readSeq == 0 && a.loc.lastReadAt == 0)
    decreases j
  {
    hide AfterWakes, Step, Sinking, OnTime;
    if j == 0 {
      assert wakes[..0] == [];
      Resting(ctx, st);
    } else {
      var init, w := wakes[..j - 1], wakes[j - 1];
      assert wakes[..j][..j - 1] == init;
      RanBefore(ctx, st, wakes, j);
      OneMoreWake(ctx, st, wakes, j - 1);
      MeagreBefore(ctx, st, wakes[..j]);
      RunSinks(ctx, st, wakes, j - 1);
      if j > 1 { RanBefore(ctx, st, wakes, j - 1); }
      TickTimes(ctx, st, wakes, j - 1);
      OverallHolds(ctx, st, wakes, j);
      var a := AfterWakes(ctx, st, init);
      PromptAt(ctx, st, wakes, j - 1);
      StepSinks(ctx, a, w, Ticks(init));
      StepMeter(ctx, a, w);
      StepTimes(ctx, a, w);
    }
  }

  lemma Resting(ctx: Ctx, st: StreamView)
    ensures var a := AfterWakes(ctx, st, []);
            Sinking(ctx.cfg, a, 0) && a.loc.firstByteAt.None? && a.loc.readSeq == a.loc.lastReadAt == 0
  {
  }

  lemma {:induction false} PromptAt(ctx: Ctx, st: StreamView, wakes: seq<Wake>, j: nat)
    requires Prompt(ctx, st, wakes) && j < |wakes| && RunningAt(ctx, st, wakes, j)
    ensures var a, w := AfterWakes(ctx, st, wakes[..j]), wakes[j];
            && Previous(wakes, j) <= w.at <= Ticks(wakes[..j]) * SECOND && w.at <= StallDeadline(ctx.cfg, a.loc)
            && (w.arm.TickArm? ==> w.at == Ticks(wakes[..j]) * SECOND)
  {
    hide AfterWakes;
  }

  lemma {:induction false} MeagreBefore(ctx: Ctx, st: StreamView, wakes: seq<Wake>)
    requires wakes != [] && Meagre(ctx, st, wakes)
    ensures var init := wakes[..|wakes| - 1];
            Meagre(ctx, st, init) && AtMost(ClosedWindow(AfterWakes(ctx, st, init), wakes[|wakes| - 1]),
                ctx.cfg.floorBps)
  {
    hide AfterWakes, ClosedWindow;
    var init := wakes[..|wakes| - 1];
    var ws, more := Evaluated(ctx, st, init), ClosedWindow(AfterWakes(ctx, st, init), wakes[|wakes| - 1]);
    assert Evaluated(ctx, st, wakes) == ws + more;
    forall i | 0 <= i < |ws| ensures ws[i].bytes <= ctx.cfg.floorBps { assert ws[i] == (ws + more)[i]; }
    forall i | 0 <= i < |more| ensures more[i].bytes <= ctx.cfg.floorBps { assert more[i] == (ws + more)[|ws| + i]; }
  }

  function Min(a: nat, b: nat): nat { if a <= b then a else b }

  /** The longest a loop can last on too little text: the wait for the first byte, warm-up, and the sustained time. */
  function MeagreBound(cfg: Config): nat { Up(cfg.backstop) + SECOND + Up(cfg.sustained) }

  /** An attempt that brings no more than the floor in any window meets no wake-up after that. */
  lemma {:induction false} MeagreAttemptEnds(ctx: Ctx, st: StreamView, wakes: seq<Wake>, j: nat)
    requires Prompt(ctx, st, wakes) && ctx.cfg.floorBps > 0 && j < |wakes| && RunningAt(ctx, st, wakes, j)
    requires Meagre(ctx, st, wakes[..j])
    ensures wakes[j].at <= Min(ctx.cfg.overall, MeagreBound(ctx.cfg))
  {
    hide AfterWakes, Up;
    RunSinks(ctx, st, wakes, j);
    PromptAt(ctx, st, wakes, j);
    ClockSafety(ctx, st, wakes, j);
    var a := AfterWakes(ctx, st, wakes[..j]);
    UpIs(ctx.cfg.backstop, 0);
    if a.loc.firstByteAt.Some? { UpMonotone(a.loc.firstByteAt.value, ctx.cfg.backstop); }
  }

  lemma {:induction false} UpMonotone(a: nat, b: nat)
    requires a <= b
    ensures Up(a) <= Up(b)
  {
  }

  // ---- no text at all ----

  /** A frame that brings text. */
  predicate Talking(decode: Decoder, b: Block) {
    match BlockEvent(b.body)
    case Some(SseEvent(Data(d), _)) =>
      (match Judge(decode, d) { case Accept(evs, _, done) => !done && TextBytes(evs) > 0 case Reject(_, _) => false })
    case _ => false
  }

  /** Some frame of the dialect brings text. */
  ghost predicate Talks(decode: Decoder) { exists b: Block :: WholeFrame(b) && Talking(decode, b) }

  lemma {:induction false} SilentJudge(decode: Decoder, b: Block, d: Bytes)
    requires !Talking(decode, b) && BlockEvent(b.body).Some? && BlockEvent(b.body).value.payload == Data(d)
    ensures Judge(decode, d).Accept? ==> TextBytes(Judge(decode, d).events) == 0
  {
    hide Judge, BlockEvent;
    AcceptedShape(decode, d);
    if Judge(decode, d).Accept? && Judge(decode, d).done { assert [Done][..0] == []; }
  }

  lemma {:induction false} SilentFrames(decode: Decoder, blocks: seq<Block>)
    requires forall i | 0 <= i < |blocks| :: !Talking(decode, blocks[i])
    ensures TextBytes(Consume(decode, EventsOf(blocks)).fed) == 0
    decreases |blocks|
  {
    hide BlockEvent, Judge, Talking;
    if blocks != [] {
      var init, b := blocks[..|blocks| - 1], blocks[|blocks| - 1];
      SilentFrames(decode, init);
      match BlockEvent(b.body)
      case None => assert EventsOf(init) + [] == EventsOf(init);
      case Some(ev) =>
        ConsumeOneMore(decode, EventsOf(init), ev);
        if ev.payload.Data? {
          SilentJudge(decode, b, ev.payload.data);
          var j := Judge(decode, ev.payload.data);
          if j.Accept? { TextBytesJoin(Consume(decode, EventsOf(init)).fed, j.events); }
        }
    }
  }

  lemma {:induction false} SilentBytes(decode: Decoder, s: Bytes)
    requires !Talks(decode)
    ensures TextBytes(Consume(decode, EventsOf(Split(s).blocks)).fed) == 0
  {
    hide Split, Talking, Consume, EventsOf;
    SplitIsProper(s);
    SilentFrames(decode, Split(s).blocks);
  }

  lemma {:induction false} NoBytes(ws: seq<Window>, i: nat)
    requires Total(ws) == 0 && i < |ws|
    ensures ws[i].bytes == 0
    decreases |ws|
  {
    if i < |ws| - 1 { NoBytes(ws[..|ws| - 1], i); }
  }

  /** A dialect without text never fills a window. */
  lemma {:induction false} SilentIsMeagre(ctx: Ctx, st: StreamView, wakes: seq<Wake>)
    requires !Talks(ctx.decode) && st.fed == [] && AfterWakes(ctx, st, wakes).end.None?
    ensures Meagre(ctx, st, wakes)
  {
    hide AfterWakes, Evaluated, Total, TextBytes, Consume, Split, EventsOf, After, PushAll, Talks;
    RunMetered(ctx, st, wakes);
    RunGains(ctx, st, wakes);
    RunReads(ctx, st, wakes);
    ChunkingInvariance(DEFAULT_BUF_LIMIT, ReadsOf(wakes));
    SilentBytes(ctx.decode, Flatten(ReadsOf(wakes)));
    var ws := Evaluated(ctx, st, wakes);
    forall i | 0 <= i < |ws| ensures ws[i].bytes <= ctx.cfg.floorBps { NoBytes(ws, i); }
  }

  // ---- enough text ----

  /** An attempt whose windows exceed the floor by enough for the average to have risen at each warmed window is never
      ended as starved. */
  lemma {:induction false} TalkerNeverStarves(ctx: Ctx, st: StreamView, wakes: seq<Wake>, bytes: nat)
    requires var ws := Evaluated(ctx, st, wakes);
             && AtLeast(ws, bytes)
             && forall i: nat | i < |ws| && ws[i].warmed ::
                  (1.0 - Decay(i + 1)) * (bytes as real) >= ctx.cfg.floorBps as real
    ensures !Starved(AfterWakes(ctx, st, wakes).end)
  {
    hide AfterWakes, Evaluated, After, Decay;
    RunMetered(ctx, st, wakes);
    NeverTripsFromRest(Evaluated(ctx, st, wakes), ctx.cfg.floorBps, ctx.cfg.sustained, bytes);
  }
}
