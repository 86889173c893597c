/** Many turns on one send-bucket counter (chat2/src/event_handler.rs:179-211, chat2/src/openai.rs:140-167): any
    interleaving of their acquires, returns and fault decisions. A seat is a place where turns run one after another. */
module Pool {
  import opened Vocabulary
  import opened Handler

  /** How a turn ended. */
  datatype Outcome = Denied | Committing | Cancelling | FailingOver | GivingUp

  /** How an admitted attempt ended. */
  datatype Ending = Succeeded | CancelledIt | Faulting

  datatype Phase =
    | Idle
    | Dialing
    | InFlight
    | Returned
    | Over(outcome: Outcome)

  datatype Seat = Seat(phase: Phase, attempts: nat, remaining: nat)

  datatype Shared = Shared(available: nat, seats: seq<Seat>)

  datatype Act =
    | StartTurn(i: nat)
    | Acquire(i: nat)
    | Return(i: nat)
    | Settle(i: nat, ending: Ending)

  predicate Enabled(s: Shared, a: Act) {
    && a.i < |s.seats|
    && var phase := s.seats[a.i].phase;
       match a
       case StartTurn(_) => phase.Idle? || phase.Over?
       case Acquire(_) => phase.Dialing?
       case Return(_) => phase.InFlight?
       case Settle(_, _) => phase.Returned?
  }

  /** `execute_turn`'s choice once the bucket is back. */
  function AfterEnding(r: Strategy, seat: Seat, ending: Ending): Seat {
    match ending
    case Succeeded => seat.(phase := Over(Committing))
    case CancelledIt => seat.(phase := Over(Cancelling))
    case Faulting =>
      match FaultStrategy(seat.remaining, r.knowsFailover)
      case RetrySameEndpoint => seat.(phase := Dialing, remaining := if seat.remaining > 0 then seat.remaining - 1
          else 0)
      case GoToFailover => seat.(phase := Over(FailingOver))
      case GiveUp => seat.(phase := Over(GivingUp))
  }

  function Apply(r: Strategy, s: Shared, a: Act): Shared
    requires Enabled(s, a)
  {
    var seat := s.seats[a.i];
    match a
    case StartTurn(i) => s.(seats := s.seats[i := Seat(Dialing, 0, r.allowance)])
    case Acquire(i) =>
      var next := seat.(attempts := seat.attempts + 1);
      if s.available > 0 then Shared(s.available - 1, s.seats[i := next.(phase := InFlight)])
      else s.(seats := s.seats[i := next.(phase := Over(Denied))])
    case Return(i) => Shared((s.available + 1) % U32, s.seats[i := seat.(phase := Returned)])
    case Settle(i, ending) => s.(seats := s.seats[i := AfterEnding(r, seat, ending)])
  }

  /** Any order of steps; one whose turn has not come does nothing. */
  function Run(r: Strategy, s: Shared, acts: seq<Act>): Shared {
    if acts == [] then s
    else
      var t := Run(r, s, acts[..|acts| - 1]);
      if Enabled(t, acts[|acts| - 1]) then Apply(r, t, acts[|acts| - 1]) else t
  }

  function Fresh(pool: nat, seats: nat): Shared { Shared(pool, seq(seats, _ => Seat(Idle, 0, 0))) }

  /** Buckets held: one by each attempt in flight. */
  function Held(seats: seq<Seat>): nat {
    if seats == [] then 0
    else Held(seats[..|seats| - 1]) + (if seats[|seats| - 1].phase.InFlight? then 1 else 0)
  }

  lemma {:induction false} HeldAfter(seats: seq<Seat>, i: nat, seat: Seat)
    requires i < |seats|
    ensures Held(seats[i := seat]) + (if seats[i].phase.InFlight? then 1 else 0)
         == Held(seats) + (if seat.phase.InFlight? then 1 else 0)
    decreases |seats|
  {
    var init := seats[..|seats| - 1];
    if i == |init| {
      assert seats[i := seat][..|init|] == init;
    } else {
      HeldAfter(init, i, seat);
      assert seats[i := seat][..|init|] == init[i := seat];
    }
  }

  lemma {:induction false} HeldBelow(seats: seq<Seat>)
    ensures Held(seats) <= |seats|
    ensures (exists i | 0 <= i < |seats| :: !seats[i].phase.InFlight?) ==> Held(seats) < |seats|
    ensures (forall i | 0 <= i < |seats| :: !seats[i].phase.InFlight?) ==> Held(seats) == 0
    decreases |seats|
  {
    if seats != [] {
      var init := seats[..|seats| - 1];
      HeldBelow(init);
      if i :| 0 <= i < |seats| && !seats[i].phase.InFlight? {
        if i < |init| { assert !init[i].phase.InFlight?; }
      }
    }
  }

  /** A turn's own books: attempts made and allowance left. */
  predicate SeatBudgeted(r: Strategy, seat: Seat) {
    match seat.phase
    case Idle => true
    case Dialing => seat.attempts + seat.remaining == r.allowance
    case InFlight => seat.attempts >= 1 && seat.attempts + seat.remaining == r.allowance + 1
    case Returned => seat.attempts >= 1 && seat.attempts + seat.remaining == r.allowance + 1
    case Over(o) =>
      && 1 <= seat.attempts <= r.allowance + 1
      && (o == FailingOver || o == GivingUp ==>
            seat.attempts == r.allowance + 1 && r.knowsFailover == (o == FailingOver))
  }

  ghost predicate Balanced(r: Strategy, pool: nat, s: Shared) {
    && s.available + Held(s.seats) == pool
    && forall i | 0 <= i < |s.seats| :: SeatBudgeted(r, s.seats[i])
  }

  lemma {:induction false} StepBalanced(r: Strategy, pool: nat, s: Shared, a: Act)
    requires Balanced(r, pool, s) && pool < U32 && Enabled(s, a)
    ensures Balanced(r, pool, Apply(r, s, a)) && |Apply(r, s, a).seats| == |s.seats|
    ensures a.Return? ==> Apply(r, s, a).available == s.available + 1 <= pool
  {
    hide Held;
    var t := Apply(r, s, a);
    HeldAfter(s.seats, a.i, t.seats[a.i]);
    assert SeatBudgeted(r, s.seats[a.i]);
    assert SeatBudgeted(r, t.seats[a.i]);
    forall i | 0 <= i < |t.seats| ensures SeatBudgeted(r, t.seats[i]) {
      if i != a.i { assert t.seats[i] == s.seats[i]; }
    }
  }

  lemma {:induction false} FreshBalanced(r: Strategy, pool: nat, seats: nat)
    ensures Balanced(r, pool, Fresh(pool, seats))
  {
    HeldBelow(Fresh(pool, seats).seats);
  }

  /** In every interleaving buckets are neither made nor lost, and no turn outruns its allowance. */
  lemma {:induction false} PoolConserved(r: Strategy, pool: nat, seats: nat, acts: seq<Act>)
    requires pool < U32
    ensures var s := Run(r, Fresh(pool, seats), acts);
            && |s.seats| == seats && s.available + Held(s.seats) == pool
            && Held(s.seats) <= pool
            && forall i | 0 <= i < seats :: SeatBudgeted(r, s.seats[i])
    decreases |acts|
  {
    hide Apply, Enabled, Held, SeatBudgeted;
    if acts == [] {
      FreshBalanced(r, pool, seats);
    } else {
      var init := acts[..|acts| - 1];
      PoolConserved(r, pool, seats, init);
      var s := Run(r, Fresh(pool, seats), init);
      if Enabled(s, acts[|acts| - 1]) { StepBalanced(r, pool, s, acts[|acts| - 1]); }
    }
  }

  /** A returned bucket never wraps the counter: it is one more, and at most the pool. */
  lemma {:induction false} ReturnNeverWraps(r: Strategy, pool: nat, seats: nat, acts: seq<Act>, i: nat)
    requires pool < U32 && Enabled(Run(r, Fresh(pool, seats), acts), Return(i))
    ensures var s := Run(r, Fresh(pool, seats), acts);
            Apply(r, s, Return(i)).available == s.available + 1 <= pool
  {
    hide Run, Held, Apply, SeatBudgeted;
    PoolConserved(r, pool, seats, acts);
    StepBalanced(r, pool, Run(r, Fresh(pool, seats), acts), Return(i));
  }

  predicate Quiet(seat: Seat) { !seat.phase.InFlight? }

  /** When every turn has run to its end, the pool is whole again. */
  lemma {:induction false} AllReturned(r: Strategy, pool: nat, seats: nat, acts: seq<Act>)
    requires pool < U32
    ensures var s := Run(r, Fresh(pool, seats), acts);
            (forall i | 0 <= i < |s.seats| :: Quiet(s.seats[i])) <==> s.available == pool
  {
    hide Run, Held, SeatBudgeted;
    PoolConserved(r, pool, seats, acts);
    var s := Run(r, Fresh(pool, seats), acts);
    HeldBelow(s.seats);
    if i :| 0 <= i < |s.seats| && !Quiet(s.seats[i]) {
      HeldSome(s.seats, i);
    } else {
      assert forall i | 0 <= i < |s.seats| :: Quiet(s.seats[i]) && !s.seats[i].phase.InFlight?;
    }
  }

  lemma {:induction false} HeldSome(seats: seq<Seat>, i: nat)
    requires i < |seats| && seats[i].phase.InFlight?
    ensures Held(seats) >= 1
    decreases |seats|
  {
    if i < |seats| - 1 { HeldSome(seats[..|seats| - 1], i); }
  }

  // ---- who is denied ----

  /** With no more seats than buckets no turn is ever denied, on a first attempt or on a retry. */
  lemma {:induction false} NeverDenied(r: Strategy, pool: nat, seats: nat, acts: seq<Act>)
    requires seats <= pool < U32
    ensures !SomeoneDenied(Run(r, Fresh(pool, seats), acts))
    decreases |acts|
  {
    hide Apply, Enabled, Held, SeatBudgeted;
    if acts != [] {
      var init, a := acts[..|acts| - 1], acts[|acts| - 1];
      NeverDenied(r, pool, seats, init);
      PoolConserved(r, pool, seats, init);
      var s := Run(r, Fresh(pool, seats), init);
      if Enabled(s, a) { StepGrants(r, pool, s, a); }
    }
  }

  lemma {:induction false} StepGrants(r: Strategy, pool: nat, s: Shared, a: Act)
    requires Enabled(s, a) && s.available + Held(s.seats) == pool && |s.seats| <= pool && !SomeoneDenied(s)
    ensures !SomeoneDenied(Apply(r, s, a))
  {
    hide Held;
    HeldBelow(s.seats);
    var t := Apply(r, s, a);
    assert a.Acquire? ==> s.available > 0;
    forall i | 0 <= i < |t.seats| ensures t.seats[i].phase != Over(Denied) {
      if i != a.i { assert t.seats[i] == s.seats[i]; }
    }
  }

  /** The first `n` seats start a turn and take a bucket each. */
  function Crowd(n: nat): seq<Act> { if n == 0 then [] else Crowd(n - 1) + [StartTurn(n - 1), Acquire(n - 1)] }

  function CrowdSeat(r: Strategy, pool: nat, n: nat, i: nat): Seat {
    if i >= n then Seat(Idle, 0, 0) else Seat(if i < pool then InFlight else Over(Denied), 1, r.allowance)
  }

  function Crowded(r: Strategy, pool: nat, seats: nat, n: nat): Shared {
    Shared(if n <= pool then pool - n else 0, seq(seats, i requires 0 <= i < seats => CrowdSeat(r, pool, n, i)))
  }

  lemma {:induction false} TwoMore(r: Strategy, s: Shared, acts: seq<Act>, a: Act, b: Act)
    requires Enabled(Run(r, s, acts), a) && Enabled(Apply(r, Run(r, s, acts), a), b)
    ensures Run(r, s, acts + [a, b]) == Apply(r, Apply(r, Run(r, s, acts), a), b)
  {
    hide Apply, Enabled;
    assert (acts + [a, b])[..|acts| + 1] == acts + [a];
    assert (acts + [a])[..|acts|] == acts;
  }

  lemma {:induction false} CrowdStep(r: Strategy, pool: nat, seats: nat, n: nat)
    requires n < seats
    ensures var s := Crowded(r, pool, seats, n);
            && Enabled(s, StartTurn(n)) && Enabled(Apply(r, s, StartTurn(n)), Acquire(n))
            && Apply(r, Apply(r, s, StartTurn(n)), Acquire(n)) == Crowded(r, pool, seats, n + 1)
  {
    var s := Crowded(r, pool, seats, n);
    assert Apply(r, Apply(r, s, StartTurn(n)), Acquire(n)).seats == Crowded(r, pool, seats, n + 1).seats;
  }

  lemma {:induction false} CrowdRuns(r: Strategy, pool: nat, seats: nat, n: nat)
    requires n <= seats
    ensures Run(r, Fresh(pool, seats), Crowd(n)) == Crowded(r, pool, seats, n)
  {
    hide Apply, Enabled, Run;
    if n == 0 {
      NoneYet(r, pool, seats);
    } else {
      CrowdRuns(r, pool, seats, n - 1);
      CrowdStep(r, pool, seats, n - 1);
      TwoMore(r, Fresh(pool, seats), Crowd(n - 1), StartTurn(n - 1), Acquire(n - 1));
    }
  }

  lemma {:induction false} NoneYet(r: Strategy, pool: nat, seats: nat)
    ensures Run(r, Fresh(pool, seats), []) == Crowded(r, pool, seats, 0)
  {
    assert Fresh(pool, seats).seats == Crowded(r, pool, seats, 0).seats;
  }

  predicate SomeoneDenied(s: Shared) { exists i | 0 <= i < |s.seats| :: s.seats[i].phase == Over(Denied) }

  predicate CanDeny(r: Strategy, pool: nat, seats: nat, acts: seq<Act>)
  {
    SomeoneDenied(Run(r, Fresh(pool, seats), acts))
  }

  /** A turn can be denied exactly when there are more seats than buckets. */
  lemma {:induction false} DenialIff(r: Strategy, pool: nat, seats: nat)
    requires pool < U32
    ensures (exists acts :: CanDeny(r, pool, seats, acts)) <==> seats > pool
  {
    hide Run;
    if seats > pool {
      CrowdRuns(r, pool, seats, pool + 1);
      assert Run(r, Fresh(pool, seats), Crowd(pool + 1)).seats[pool].phase == Over(Denied);
      assert CanDeny(r, pool, seats, Crowd(pool + 1));
    } else if acts :| CanDeny(r, pool, seats, acts) {
      NeverDenied(r, pool, seats, acts);
      PoolConserved(r, pool, seats, acts);
    }
  }

  // ---- the handler takes these very steps ----

  /** One step of one turn, taken through the handler: the counter and the turn's own books move as `Apply` says. */
  method TakeStep(h: EventHandler, ghost s: Shared, a: Act, seat: Seat, stream: StreamId) returns (next: Seat)
    requires h.Valid() && Enabled(s, a) && h.sendBuckets == s.available && seat == s.seats[a.i]
    modifies h, h.bus
    ensures h.Valid()
    ensures var r := Strategy(h.retryAllowancePerTurn, h.knowsFailoverExists);
            h.sendBuckets == Apply(r, s, a).available && Apply(r, s, a).seats == s.seats[a.i := next]
  {
    hide EventHandler.Valid;
    match a {
      case StartTurn(_) =>
        next := Seat(Dialing, 0, h.retryAllowancePerTurn);
      case Acquire(_) =>
        var ok := h.AcquireSendBucket(stream, seat.attempts + 1);
        next := Seat(if ok then InFlight else Over(Denied), seat.attempts + 1, seat.remaining);
      case Return(_) =>
        h.ReturnSendBucket(stream, seat.attempts);
        next := seat.(phase := Returned);
      case Settle(_, Faulting) =>
        var d, left := h.OnWireFault(stream, seat.attempts, seat.remaining);
        next := Seat(if d == RetrySameEndpoint then Dialing else if d == GoToFailover then Over(FailingOver)
            else Over(GivingUp),
                     seat.attempts, left);
      case Settle(_, Succeeded) =>
        next := seat.(phase := Over(Committing));
      case Settle(_, CancelledIt) =>
        next := seat.(phase := Over(Cancelling));
    }
  }
}
