/** A seat of the pool is a turn seen from the counter: each attempt of `TurnSpec` is an acquire, a return and a
    decision of the interleaving, whatever the other seats do in between. */
module PoolTurns {
  import opened Text
  import opened Vocabulary
  import opened Handler
  import opened AttemptSpec
  import opened AttemptOutcome
  import opened TurnSpec
  import opened TurnFacts
  import AttemptIsolation
  import Pool

  function PhaseOf(v: Option<TurnVerdict>): Pool.Phase {
    match v
    case None => Pool.Dialing
    case Some(Committed(_)) => Pool.Over(Pool.Committing)
    case Some(Failover(_)) => Pool.Over(Pool.FailingOver)
    case Some(Failed(f)) =>
      Pool.Over(if f == Protocol(AdmissionDenied) then Pool.Denied
                else if f == Protocol(CancelledByCaller) then Pool.Cancelling else Pool.GivingUp)
  }

  function SeatOf(t: Turn): Pool.Seat { Pool.Seat(PhaseOf(t.verdict), t.st.attempt, t.remaining) }

  function EndingOf(end: AttemptEnd): Pool.Ending {
    match end
    case Finished(Resolved(_)) => Pool.Succeeded
    case OnWire(Cancelled) => Pool.CancelledIt
    case _ => Pool.Faulting
  }

  /** Refused: one step of the pool ends the turn. */
  lemma RefusedStep(ctx: Ctx, s: Strategy, t: Turn, w: World, shared: Pool.Shared, i: nat)
    requires t.verdict.None? && w.available == 0
    requires i < |shared.seats| && shared.seats[i] == SeatOf(t) && shared.available == w.available
    ensures Pool.Enabled(shared, Pool.Acquire(i))
    ensures var after := Pool.Apply(s, shared, Pool.Acquire(i));
            after.seats[i] == SeatOf(OneAttempt(ctx, s, t, w)) && after.available == CounterAfter(w)
  {
  }

  /** Admitted: the acquire finds the counter as `w` says, and after the others have moved it to `w.onReturn` the return
      and the decision leave the seat where the turn's own attempt leaves it. */
  lemma {:induction false} AdmittedSteps(ctx: Ctx, s: Strategy, t: Turn, w: World, shared: Pool.Shared,
                                         later: Pool.Shared, i: nat)
    requires t.verdict.None? && w.available > 0 && Concludes(w) && EofIsLast(w.wakes)
    requires i < |shared.seats| && shared.seats[i] == SeatOf(t) && shared.available == w.available
    requires i < |later.seats| && later.available == w.onReturn
    requires later.seats[i] == Pool.Apply(s, shared, Pool.Acquire(i)).seats[i]
    ensures Pool.Enabled(later, Pool.Return(i))
    ensures var back := Pool.Apply(s, later, Pool.Return(i));
            var end := AttemptRun(ctx, NextAttempt(t.st), w).end;
            && end.Some? && back.available == CounterAfter(w) && Pool.Enabled(back, Pool.Settle(i, EndingOf(end.value)))
            && Pool.Apply(s, back, Pool.Settle(i, EndingOf(end.value))).seats[i] == SeatOf(OneAttempt(ctx, s, t, w))
  {
    hide AttemptRun, AttemptTime, EofIsLast, Decide, Admitted;
    var t1 := t.(st := NextAttempt(t.st));
    var a := AttemptRun(ctx, t1.st, w);
    ConcludesEnds(ctx, t1.st, w);
    FinishedFault(ctx, t1.st, w);
    AdmittedSeat(ctx, t1, w);
    DecisionIsSettling(s, Admitted(ctx, t1, w), a.end.value);
  }

  lemma {:induction false} AdmittedSeat(ctx: Ctx, t: Turn, w: World)
    ensures var a := Admitted(ctx, t, w);
            a.st.attempt == t.st.attempt && a.remaining == t.remaining && a.verdict == t.verdict
  {
    hide AttemptRun, AttemptTime;
    AttemptKeepsIdentity(ctx, t.st, w);
  }

  lemma DecisionIsSettling(s: Strategy, t: Turn, end: AttemptEnd)
    requires t.verdict.None?
    requires end.Finished? && end.resolution.Faulted? ==> !end.resolution.fault.Protocol?
    ensures Pool.AfterEnding(s, Pool.Seat(Pool.Returned, t.st.attempt, t.remaining), EndingOf(end))
         == SeatOf(Decide(s, t, Some(end)))
  {
  }

  // ---- whole turns in whole interleavings ----

  /** What one attempt of a seat's turn met: the counter at its acquire and at its return, and how it ended, so far
      as it has come. */
  datatype Visit = Visit(available: nat, onReturn: Option<nat>, ending: Option<Pool.Ending>)

  function Revised(visits: seq<Visit>, onReturn: Option<nat>, ending: Option<Pool.Ending>): seq<Visit> {
    if visits == [] then []
    else
      var last := visits[|visits| - 1];
      visits[..|visits| - 1] + [Visit(last.available, if onReturn.Some? then onReturn else last.onReturn, ending)]
  }

  /** The attempts of the turn that seat `i` is in, or was in last. */
  function Visits(r: Strategy, start: Pool.Shared, acts: seq<Pool.Act>, i: nat): seq<Visit> {
    if acts == [] then []
    else
      var before := Visits(r, start, acts[..|acts| - 1], i);
      var shared, a := Pool.Run(r, start, acts[..|acts| - 1]), acts[|acts| - 1];
      if !Pool.Enabled(shared, a) || a.i != i then before
      else
        match a
        case StartTurn(_) => []
        case Acquire(_) => before + [Visit(shared.available, None, None)]
        case Return(_) => Revised(before, Some(shared.available), None)
        case Settle(_, ending) => Revised(before, None, Some(ending))
  }

  /** The world tells the same story as the visit. */
  ghost predicate Tells(ctx: Ctx, w: World, v: Visit) {
    && Concludes(w) && EofIsLast(w.wakes) && w.available == v.available
       && (v.onReturn.Some? ==> v.onReturn == Some(w.onReturn))
    && (v.ending.Some? ==>
          var end := AttemptRun(ctx, NewStream(0), w).end;
          end.Some? && v.ending == Some(EndingOf(end.value)))
  }

  ghost predicate Tell(ctx: Ctx, worlds: seq<World>, visits: seq<Visit>) {
    |worlds| == |visits| && forall k | 0 <= k < |worlds| :: Tells(ctx, worlds[k], visits[k])
  }

  /** The seat stands where the turn stands: at a decision point exactly there, inside an attempt where that attempt
      began. */
  ghost predicate Stands(ctx: Ctx, s: Strategy, stream: StreamId, seat: Pool.Seat, worlds: seq<World>) {
    match seat.phase
    case Idle => true
    case Dialing => seat == SeatOf(AfterWorlds(ctx, s, stream, worlds))
    case Over(_) => seat == SeatOf(AfterWorlds(ctx, s, stream, worlds))
    case _ =>
      && worlds != []
      && var t := AfterWorlds(ctx, s, stream, worlds[..|worlds| - 1]);
         t.verdict.None? && worlds[|worlds| - 1].available > 0 && seat.attempts == t.st.attempt + 1
             && seat.remaining == t.remaining
  }

  lemma {:induction false} RevisedTells(ctx: Ctx, worlds: seq<World>, visits: seq<Visit>, onReturn: Option<nat>,
                                        ending: Option<Pool.Ending>)
    requires Tell(ctx, worlds, Revised(visits, onReturn, ending))
    requires visits != [] && visits[|visits| - 1].ending.None?
        && (onReturn.Some? ==> visits[|visits| - 1].onReturn.None?)
    ensures Tell(ctx, worlds, visits)
  {
    hide AttemptRun, EndingOf, Concludes, EofIsLast;
    var revised := Revised(visits, onReturn, ending);
    forall k | 0 <= k < |worlds| ensures Tells(ctx, worlds[k], visits[k]) { assert Tells(ctx, worlds[k], revised[k]); }
  }

  /** An attempt under way has said no more than its phase allows. */
  predicate Unfinished(phase: Pool.Phase, visits: seq<Visit>) {
    && (phase.InFlight? ==> visits != [] && visits[|visits| - 1].onReturn.None? && visits[|visits| - 1].ending.None?)
    && (phase.Returned? ==> visits != [] && visits[|visits| - 1].ending.None?)
  }

  lemma {:induction false} VisitsUnfinished(r: Strategy, pool: nat, seats: nat, acts: seq<Pool.Act>, i: nat)
    requires pool < U32 && i < seats
    ensures var shared := Pool.Run(r, Pool.Fresh(pool, seats), acts);
            |shared.seats| == seats && Unfinished(shared.seats[i].phase, Visits(r, Pool.Fresh(pool, seats), acts, i))
    decreases |acts|
  {
    if acts != [] { VisitsUnfinished(r, pool, seats, acts[..|acts| - 1], i); }
  }

  lemma {:induction false} AcquireStands(ctx: Ctx, s: Strategy, stream: StreamId, shared: Pool.Shared, i: nat,
                                         worlds: seq<World>, w: World)
    requires Pool.Enabled(shared, Pool.Acquire(i)) && Stands(ctx, s, stream, shared.seats[i], worlds)
        && w.available == shared.available
    ensures Stands(ctx, s, stream, Pool.Apply(s, shared, Pool.Acquire(i)).seats[i], worlds + [w])
  {
    hide OneAttempt;
    var t := AfterWorlds(ctx, s, stream, worlds);
    assert (worlds + [w])[..|worlds|] == worlds;
    if w.available == 0 { RefusedStep(ctx, s, t, w, shared, i); }
  }

  lemma {:induction false} RunsAlike(ctx: Ctx, st: StreamView, other: StreamView, w: World)
    requires st.fed == other.fed
    ensures AttemptRun(ctx, st, w).end == AttemptRun(ctx, other, w).end
  {
    hide AfterWakes;
    AttemptIsolation.AttemptsAreIsolated(ctx, st, other, w.wakes);
  }

  lemma {:induction false} SettleStands(ctx: Ctx, s: Strategy, stream: StreamId, seat: Pool.Seat, worlds: seq<World>,
                                        ending: Pool.Ending)
    requires seat.phase.Returned? && Stands(ctx, s, stream, seat, worlds)
    requires var w := worlds[|worlds| - 1]; Tells(ctx, w, Visit(w.available, None, Some(ending)))
    ensures Stands(ctx, s, stream, Pool.AfterEnding(s, seat, ending), worlds)
  {
    hide AttemptRun, AttemptTime, EofIsLast, Decide, Admitted, EndingOf, AfterWorlds, Concludes;
    var w, t := worlds[|worlds| - 1], AfterWorlds(ctx, s, stream, worlds[..|worlds| - 1]);
    var t1 := t.(st := NextAttempt(t.st));
    RunsAlike(ctx, t1.st, NewStream(0), w);
    FinishedFault(ctx, t1.st, w);
    AdmittedSeat(ctx, t1, w);
    DecisionIsSettling(s, Admitted(ctx, t1, w), AttemptRun(ctx, t1.st, w).end.value);
    LastWorld(ctx, s, stream, worlds);
    Settled(s, seat, ending);
  }

  lemma Settled(r: Strategy, seat: Pool.Seat, ending: Pool.Ending)
    ensures var phase := Pool.AfterEnding(r, seat, ending).phase; phase.Dialing? || phase.Over?
  {
  }

  lemma LastWorld(ctx: Ctx, s: Strategy, stream: StreamId, worlds: seq<World>)
    requires worlds != [] && AfterWorlds(ctx, s, stream, worlds[..|worlds| - 1]).verdict.None?
    ensures AfterWorlds(ctx, s, stream, worlds)
         == OneAttempt(ctx, s, AfterWorlds(ctx, s, stream, worlds[..|worlds| - 1]), worlds[|worlds| - 1])
  {
  }

  /** In any interleaving a seat stands where the turn stands that meets what the seat met. */
  lemma {:induction false} SeatPlaysTurn(ctx: Ctx, s: Strategy, stream: StreamId, pool: nat, seats: nat,
                                         acts: seq<Pool.Act>, i: nat, worlds: seq<World>)
    requires pool < U32 && i < seats && Tell(ctx, worlds, Visits(s, Pool.Fresh(pool, seats), acts, i))
    ensures var shared := Pool.Run(s, Pool.Fresh(pool, seats), acts);
            |shared.seats| == seats && Stands(ctx, s, stream, shared.seats[i], worlds)
    decreases |acts|
  {
    hide AfterWorlds, Tells, Pool.AfterEnding, Revised;
    var start := Pool.Fresh(pool, seats);
    if acts != [] {
      var init, a := acts[..|acts| - 1], acts[|acts| - 1];
      var shared, before := Pool.Run(s, start, init), Visits(s, start, init, i);
      VisitsUnfinished(s, pool, seats, init, i);
      if !Pool.Enabled(shared, a) || a.i != i {
        SeatPlaysTurn(ctx, s, stream, pool, seats, init, i, worlds);
      } else {
        match a
        case StartTurn(_) => NewTurnStands(ctx, s, stream, worlds);
        case Acquire(_) =>
          var earlier, w := worlds[..|worlds| - 1], worlds[|worlds| - 1];
          assert worlds == earlier + [w];
          assert Tell(ctx, earlier, before) by {
            var visits := before + [Visit(shared.available, None, None)];
            forall k | 0 <= k < |earlier| ensures Tells(ctx, earlier[k], before[k]) {
              assert Tells(ctx, worlds[k], visits[k]);
            }
          }
          SeatPlaysTurn(ctx, s, stream, pool, seats, init, i, earlier);
          LastTells(ctx, worlds, before, shared.available);
          AcquireStands(ctx, s, stream, shared, i, earlier, w);
        case Return(_) =>
          RevisedTells(ctx, worlds, before, Some(shared.available), None);
          SeatPlaysTurn(ctx, s, stream, pool, seats, init, i, worlds);
        case Settle(_, ending) =>
          RevisedTells(ctx, worlds, before, None, Some(ending));
          SeatPlaysTurn(ctx, s, stream, pool, seats, init, i, worlds);
          RevisedLast(ctx, worlds, before, ending);
          SettleStands(ctx, s, stream, shared.seats[i], worlds, ending);
      }
    }
  }

  lemma {:induction false} LastTells(ctx: Ctx, worlds: seq<World>, before: seq<Visit>, available: nat)
    requires Tell(ctx, worlds, before + [Visit(available, None, None)])
    ensures worlds[|worlds| - 1].available == available
  {
    assert Tells(ctx, worlds[|worlds| - 1], (before + [Visit(available, None, None)])[|worlds| - 1]);
  }

  lemma {:induction false} RevisedLast(ctx: Ctx, worlds: seq<World>, before: seq<Visit>, ending: Pool.Ending)
    requires before != [] && Tell(ctx, worlds, Revised(before, None, Some(ending)))
    ensures var w := worlds[|worlds| - 1]; Tells(ctx, w, Visit(w.available, None, Some(ending)))
  {
    assert Tells(ctx, worlds[|worlds| - 1], Revised(before, None, Some(ending))[|worlds| - 1]);
  }

  lemma NewTurnStands(ctx: Ctx, s: Strategy, stream: StreamId, worlds: seq<World>)
    requires worlds == []
    ensures Stands(ctx, s, stream, Pool.Seat(Pool.Dialing, 0, s.allowance), worlds)
  {
  }

  /** With no more turns at a time than buckets, no turn of any interleaving comes to the verdict "admission denied". */
  lemma {:induction false} NoTurnDenied(ctx: Ctx, s: Strategy, stream: StreamId, pool: nat, seats: nat,
                                        acts: seq<Pool.Act>, i: nat, worlds: seq<World>)
    requires seats <= pool < U32 && i < seats && Tell(ctx, worlds, Visits(s, Pool.Fresh(pool, seats), acts, i))
    requires var shared := Pool.Run(s, Pool.Fresh(pool, seats), acts);
             i < |shared.seats| && (shared.seats[i].phase.Dialing? || shared.seats[i].phase.Over?)
    ensures AfterWorlds(ctx, s, stream, worlds).verdict != Some(Failed(Protocol(AdmissionDenied)))
  {
    hide AfterWorlds, Visits, Tell, Pool.Run;
    SeatPlaysTurn(ctx, s, stream, pool, seats, acts, i, worlds);
    Pool.NeverDenied(s, pool, seats, acts);
  }
}
