/** How long a turn can last on prompt timers, and when it keeps the overall deadline (chat2/src/openai.rs:206-298). */
module TurnTime {
  import opened Vocabulary
  import opened Refinement
  import opened Handler
  import opened Throughput
  import opened AttemptSpec
  import opened AttemptOutcome
  import opened AttemptClock
  import opened AttemptPace
  import opened SlowLoops
  import opened TurnSpec
  import opened TurnFacts

  predicate PromptWorld(ctx: Ctx, st: StreamView, w: World) {
    && w.headerWait <= ctx.cfg.backstop && w.bodyWait <= ctx.cfg.stall
    && Prompt(ctx, st, w.wakes)
  }

  function Max(a: nat, b: nat): nat { if a >= b then a else b }

  /** The longest an attempt can last: the wait for the head, then the read loop or the body of a refusal. */
  ghost function AttemptBound(ctx: Ctx): nat { ctx.cfg.backstop + Max(ctx.cfg.stall, LoopBound(ctx)) }

  lemma {:induction false} PromptPrefix(ctx: Ctx, st: StreamView, wakes: seq<Wake>)
    requires Prompt(ctx, st, wakes) && wakes != []
    ensures Prompt(ctx, st, wakes[..|wakes| - 1])
  {
    hide AfterWakes, OnTime;
    var init := wakes[..|wakes| - 1];
    forall i: nat | i < |init| && RunningAt(ctx, st, init, i)
      ensures OnTime(ctx.cfg, AfterWakes(ctx, st, init[..i]).loc, Previous(init, i), Ticks(init[..i]), init[i])
    {
      assert init[..i] == wakes[..i];
      assert RunningAt(ctx, st, wakes, i);
    }
  }

  lemma {:induction false} NoneRead(wakes: seq<Wake>)
    requires ReadsOf(wakes) == []
    ensures LastReadTime(wakes) == 0
    decreases |wakes|
  {
    if wakes != [] { NoneRead(wakes[..|wakes| - 1]); }
  }

  /** With no stall window every wake-up is due by the first-byte backstop. */
  lemma {:induction false} WithoutStallWindow(ctx: Ctx, st: StreamView, wakes: seq<Wake>, j: nat)
    requires ctx.cfg.stall == 0 && Prompt(ctx, st, wakes) && j < |wakes| && RunningAt(ctx, st, wakes, j)
    ensures LastReadTime(wakes[..j]) <= ctx.cfg.backstop && wakes[j].at <= ctx.cfg.backstop
    decreases j
  {
    hide AfterWakes;
    RunTimes(ctx, st, wakes[..j]);
    if j > 0 {
      RanBefore(ctx, st, wakes, j);
      WithoutStallWindow(ctx, st, wakes, j - 1);
      assert wakes[..j][..j - 1] == wakes[..j - 1];
    }
    if ReadsOf(wakes[..j]) == [] { NoneRead(wakes[..j]); }
  }

  lemma {:induction false} LoopTimeBounded(ctx: Ctx, st: StreamView, wakes: seq<Wake>)
    requires Prompt(ctx, st, wakes) && st.fed == []
    ensures EndTime(ctx, st, wakes) <= LoopBound(ctx)
    decreases |wakes|
  {
    hide AfterWakes, Prompt, Talks, MeagreBound, Meagre;
    if wakes != [] {
      var init := wakes[..|wakes| - 1];
      if AfterWakes(ctx, st, init).end.Some? {
        PromptPrefix(ctx, st, wakes);
        LoopTimeBounded(ctx, st, init);
      } else {
        ClockSafety(ctx, st, wakes, |wakes| - 1);
        if ctx.cfg.stall == 0 { WithoutStallWindow(ctx, st, wakes, |wakes| - 1); }
        if ctx.cfg.floorBps > 0 && !Talks(ctx.decode) {
          SilentIsMeagre(ctx, st, init);
          MeagreAttemptEnds(ctx, st, wakes, |wakes| - 1);
        }
      }
    }
  }

  predicate AllPrompt(ctx: Ctx, s: Strategy, stream: StreamId, worlds: seq<World>) {
    forall i: nat | i < |worlds| :: PromptWorld(ctx, NextStream(ctx, s, stream, worlds[..i]), worlds[i])
  }

  lemma {:induction false} OneAttemptTime(ctx: Ctx, s: Strategy, t: Turn, w: World)
    requires PromptWorld(ctx, NextAttempt(t.st), w)
    ensures OneAttempt(ctx, s, t, w).elapsed <= t.elapsed + AttemptBound(ctx)
  {
    hide AttemptRun, EndTime, Prompt, LoopBound;
    LoopTimeBounded(ctx, NextAttempt(t.st), w.wakes);
  }

  lemma {:induction false} AllPromptPrefix(ctx: Ctx, s: Strategy, stream: StreamId, worlds: seq<World>)
    requires AllPrompt(ctx, s, stream, worlds) && worlds != []
    ensures AllPrompt(ctx, s, stream, worlds[..|worlds| - 1])
  {
    hide PromptWorld, NextStream;
    var init := worlds[..|worlds| - 1];
    forall i: nat | i < |init| ensures PromptWorld(ctx, NextStream(ctx, s, stream, init[..i]), init[i]) {
      assert init[..i] == worlds[..i];
    }
  }

  lemma {:induction false} TurnTime(ctx: Ctx, s: Strategy, stream: StreamId, worlds: seq<World>)
    requires AllPrompt(ctx, s, stream, worlds)
    ensures AfterWorlds(ctx, s, stream, worlds).elapsed <= |worlds| * AttemptBound(ctx)
    decreases |worlds|
  {
    hide OneAttempt, PromptWorld, AttemptBound;
    if worlds != [] {
      var init := worlds[..|worlds| - 1];
      AllPromptPrefix(ctx, s, stream, worlds);
      TurnTime(ctx, s, stream, init);
      var t := AfterWorlds(ctx, s, stream, init);
      var bound := AttemptBound(ctx);
      assert |worlds| * bound == |init| * bound + bound;
      if t.verdict.None? { OneAttemptTime(ctx, s, t, worlds[|init|]); }
    }
  }

  /** A whole turn lasts at most (allowance + 1) * (first-byte backstop + max(stall, longest loop)), where no loop
      outlasts the overall deadline. */
  lemma {:induction false} TurnTimeBounded(ctx: Ctx, s: Strategy, stream: StreamId, worlds: seq<World>)
    requires EnoughWorlds(s, worlds) && AllPrompt(ctx, s, stream, worlds)
    ensures AfterWorlds(ctx, s, stream, worlds).elapsed <= (s.allowance + 1) * AttemptBound(ctx)
         <= (s.allowance + 1) * (ctx.cfg.backstop + Max(ctx.cfg.stall, ctx.cfg.overall))
  {
    hide AfterWorlds, AllPrompt, Concludes, Talks, MeagreBound;
    TurnTime(ctx, s, stream, worlds);
    Times(s.allowance + 1, AttemptBound(ctx), ctx.cfg.backstop + Max(ctx.cfg.stall, ctx.cfg.overall));
  }

  lemma {:induction false} Times(n: nat, a: nat, b: nat)
    requires a <= b
    ensures n * a <= n * b
  {
  }

  // ---- the slowest turn ----

  /** The attempt that lasts longest. */
  ghost predicate IsSlowest(ctx: Ctx, w: World) {
    && Concludes(w) && w.available > 0
    && forall st: StreamView :: Lasts(ctx, st, w)
  }

  ghost predicate Lasts(ctx: Ctx, st: StreamView, w: World) {
    var end := AttemptRun(ctx, st, w).end;
    && PromptWorld(ctx, st, w) && AttemptTime(ctx, st, w) == AttemptBound(ctx)
    && end.Some? && end.value.OnWire? && !end.value.cause.Cancelled?
  }

  lemma NothingIsPrompt(ctx: Ctx, st: StreamView)
    ensures Prompt(ctx, st, [])
  {
  }

  lemma {:induction false} SlowestWorld(ctx: Ctx) returns (w: World)
    requires ctx.cfg.stall == 0 || ctx.cfg.stall >= SECOND
    ensures IsSlowest(ctx, w)
  {
    hide AfterWakes, EndTime, Prompt, LoopBound, EndsLoop;
    if ctx.cfg.stall > LoopBound(ctx) {
      w := World(1, 0, BadStatus(500, []), ctx.cfg.backstop, ctx.cfg.stall, []);
      forall st: StreamView ensures Lasts(ctx, st, w) { NothingIsPrompt(ctx, st); }
    } else {
      var wakes := LongestLoop(ctx);
      w := World(1, 0, Streaming, ctx.cfg.backstop, 0, wakes);
      assert LastsTo(ctx, NewStream(0), wakes, LoopBound(ctx));
      forall st: StreamView ensures Lasts(ctx, st, w) { assert LastsTo(ctx, st, wakes, LoopBound(ctx)); }
    }
  }

  lemma {:induction false} SlowestOnce(ctx: Ctx, s: Strategy, t: Turn, w: World)
    requires t.verdict.None? && IsSlowest(ctx, w)
    ensures var u := OneAttempt(ctx, s, t, w);
            && u.elapsed == t.elapsed + AttemptBound(ctx)
            && (u.verdict.None? <==> t.remaining > 0) && (t.remaining > 0 ==> u.remaining == t.remaining - 1)
  {
    hide AttemptRun, AttemptTime, AttemptBound, PromptWorld, Concludes, WireFault;
    assert Lasts(ctx, NextAttempt(t.st), w);
  }

  function Again(w: World, n: nat): seq<World> { seq(n, _ => w) }

  lemma {:induction false} SlowRun(ctx: Ctx, s: Strategy, stream: StreamId, w: World, n: nat)
    requires n <= s.allowance + 1 && IsSlowest(ctx, w)
    ensures var t := AfterWorlds(ctx, s, stream, Again(w, n));
            && t.elapsed == n * AttemptBound(ctx) && (t.verdict.None? <==> n <= s.allowance)
            && (t.verdict.None? ==> t.remaining + n == s.allowance)
    decreases n
  {
    hide OneAttempt, AttemptBound, IsSlowest;
    var worlds := Again(w, n);
    if n > 0 {
      assert worlds[..n - 1] == Again(w, n - 1);
      SlowRun(ctx, s, stream, w, n - 1);
      SlowestOnce(ctx, s, AfterWorlds(ctx, s, stream, Again(w, n - 1)), w);
      assert n * AttemptBound(ctx) == (n - 1) * AttemptBound(ctx) + AttemptBound(ctx);
    }
  }

  /** The bound is reached in every configuration of whole seconds: the overall deadline starts again with each attempt,
      and counts neither the wait for the head nor the body of a refusal. */
  lemma {:induction false} TurnTimeTight(ctx: Ctx, s: Strategy, stream: StreamId) returns (worlds: seq<World>)
    requires ctx.cfg.stall == 0 || ctx.cfg.stall >= SECOND
    ensures EnoughWorlds(s, worlds) && AllPrompt(ctx, s, stream, worlds)
    ensures AfterWorlds(ctx, s, stream, worlds).elapsed == (s.allowance + 1) * AttemptBound(ctx)
  {
    hide AfterWorlds, PromptWorld, Concludes, AttemptBound;
    var w := SlowestWorld(ctx);
    worlds := Again(w, s.allowance + 1);
    SlowRun(ctx, s, stream, w, s.allowance + 1);
    forall i: nat | i < |worlds| ensures PromptWorld(ctx, NextStream(ctx, s, stream, worlds[..i]), worlds[i]) {
      assert Lasts(ctx, NextStream(ctx, s, stream, worlds[..i]), w);
    }
  }

  /** Every turn on prompt timers ends by the overall deadline. */
  ghost predicate DeadlineHolds(ctx: Ctx, s: Strategy, stream: StreamId) {
    forall worlds | EnoughWorlds(s, worlds) && AllPrompt(ctx, s, stream, worlds) ::
      AfterWorlds(ctx, s, stream, worlds).elapsed <= ctx.cfg.overall
  }

  lemma {:induction false} BoundFits(ctx: Ctx, allowance: nat)
    requires ctx.cfg.stall > 0 && (ctx.cfg.floorBps == 0 || Talks(ctx.decode))
    ensures (allowance + 1) * AttemptBound(ctx) <= ctx.cfg.overall
       <==> allowance == 0 && ctx.cfg.backstop == 0 && ctx.cfg.stall <= ctx.cfg.overall
  {
    hide Talks;
    var bound := AttemptBound(ctx);
    if allowance == 0 { assert (allowance + 1) * bound == bound; } else { Times(bound, 2, allowance + 1); }
  }

  /** Turns keep the overall deadline exactly if the longest ones do. Where the peer can bring text, or there is no
      floor to keep up, that takes no retry, no time at all for the head, and a stall window within the deadline. */
  lemma {:induction false} DeadlineHoldsIff(ctx: Ctx, s: Strategy, stream: StreamId)
    requires ctx.cfg.stall == 0 || ctx.cfg.stall >= SECOND
    ensures DeadlineHolds(ctx, s, stream) <==> (s.allowance + 1) * AttemptBound(ctx) <= ctx.cfg.overall
    ensures ctx.cfg.stall > 0 && (ctx.cfg.floorBps == 0 || Talks(ctx.decode)) ==>
              (DeadlineHolds(ctx, s, stream) <==>
               s.allowance == 0 && ctx.cfg.backstop == 0 && ctx.cfg.stall <= ctx.cfg.overall)
  {
    hide AfterWorlds, EnoughWorlds, AllPrompt, AttemptBound, Talks;
    var bound := (s.allowance + 1) * AttemptBound(ctx);
    if ctx.cfg.stall > 0 && (ctx.cfg.floorBps == 0 || Talks(ctx.decode)) { BoundFits(ctx, s.allowance); }
    var slow := TurnTimeTight(ctx, s, stream);
    if bound <= ctx.cfg.overall {
      forall worlds | EnoughWorlds(s, worlds) && AllPrompt(ctx, s, stream, worlds)
        ensures AfterWorlds(ctx, s, stream, worlds).elapsed <= ctx.cfg.overall
      {
        TurnTimeBounded(ctx, s, stream, worlds);
      }
    }
  }

  // ---- the settings as shipped ----

  /** Stall 30 s, first-byte backstop 120 s, overall 600 s, floor 1 byte a second, sustained 20 s. */
  const SHIPPED := Config(30 * SECOND, 120 * SECOND, 600 * SECOND, 1, 20 * SECOND)

  /** With these and one retry, a turn keeps the deadline of 600 s exactly if the dialect brings no text: then it
      lasts 522 s at most, and otherwise up to 1440 s. */
  lemma {:induction false} ShippedDeadline(decode: Decoder, s: Strategy, stream: StreamId)
    requires s.allowance == 1
    ensures var ctx := Ctx(SHIPPED, decode);
            && 2 * AttemptBound(ctx) == (if Talks(decode) then 1440 else 522) * SECOND
            && (DeadlineHolds(ctx, s, stream) <==> !Talks(decode))
  {
    hide DeadlineHolds, Talks;
    DeadlineHoldsIff(Ctx(SHIPPED, decode), s, stream);
  }
}
