/** A turn's verdict, read off the surroundings alone: no counters, no log, no running allowance. */
module TurnOutcome {
  import opened Text
  import opened Vocabulary
  import opened Machine
  import opened Handler
  import opened AttemptSpec
  import opened AttemptOutcome
  import opened AttemptReceived
  import opened AttemptEnds
  import opened Utf8
  import opened SseRuns
  import opened TurnSpec
  import opened TurnFacts

  datatype Fate = Commits(outcome: ChatOutcome) | IsCancelled | Faults(fault: DriverFault)

  /** How an attempt on a stream ends, read off the wake-ups its loop meets. */
  function LoopFate(ctx: Ctx, met: seq<Wake>): Fate
    requires met != []
  {
    match met[|met| - 1].arm
    case CancelArm => IsCancelled
    case OverallArm => Faults(Stalled(ctx.cfg.overall / 1_000_000_000))
    case TickArm => Faults(Stalled(ctx.cfg.sustained / 1_000_000_000))
    case StallArm =>
      Faults(Stalled((if ReadsOf(met) == [] then ctx.cfg.backstop else ctx.cfg.stall) / 1_000_000_000))
    case ErrorArm(detail) => Faults(Protocol(Verbatim(detail)))
    case _ =>
      if !EndsByHandler(met) then Faults(BufferOverflow(1_048_576))
      else
        match Resolution(ctx.decode, BytesOf(met))
        case Resolved(o) => Commits(o)
        case Faulted(f) => Faults(f)
  }

  /** How an admitted attempt ends, read off its surroundings: the answer to the request, or else the loop's
      wake-ups. */
  function FateOf(ctx: Ctx, w: World): Fate
    requires Concludes(w)
  {
    match w.dial
    case DialCancelled => IsCancelled
    case DialTimedOut => Faults(Stalled(ctx.cfg.backstop / 1_000_000_000))
    case DialFailed(detail) => Faults(Protocol(Verbatim(detail)))
    case BadStatus(status, body) => Faults(Protocol(HttpAnswer(status, body)))
    case WrongType(contentType, body) => Faults(Protocol(NotAStream(contentType, FirstChars(body, 400))))
    case Streaming =>
      MetSuffices(ctx, NewStream(0), w.wakes);
      LoopFate(ctx, Met(ctx, w.wakes))
  }

  /** The text of a wrong answer is cut after its first characters, never within one. */
  lemma {:induction false} FirstCharsReads(cs: seq<scalar>, n: nat)
    ensures FirstChars(EncodeAll(cs), n) == EncodeAll(cs[..if n < |cs| then n else |cs|])
    decreases n
  {
    hide Encode, CharLen;
    if n == 0 || cs == [] {
      assert cs[..if n < |cs| then n else |cs|] == [];
    } else {
      var s, k := EncodeAll(cs), |Encode(cs[0])|;
      EncodeHead(cs[0], EncodeAll(cs[1..]));
      assert s[..k] == Encode(cs[0]) && s[k..] == EncodeAll(cs[1..]);
      FirstCharsReads(cs[1..], n - 1);
      var first := cs[..if n < |cs| then n else |cs|];
      assert first[0] == cs[0] && first[1..] == cs[1..][..if n - 1 < |cs[1..]| then n - 1 else |cs[1..]|];
    }
  }

  function FateOfEnd(end: AttemptEnd): Fate {
    match end
    case Finished(Resolved(o)) => Commits(o)
    case Finished(Faulted(f)) => Faults(f)
    case OnWire(c) => if c.Cancelled? then IsCancelled else Faults(WireFault(c))
  }

  /** No close but the last wake-up is met. */
  lemma {:induction false} MetEofIsLast(ctx: Ctx, st: StreamView, met: seq<Wake>)
    requires st.fed == [] && AllMet(ctx, met)
    ensures EofIsLast(met)
  {
    hide AfterWakes;
    var init := met[..|met| - 1];
    NoEofYet(ctx, NewStream(0), init);
    assert forall i | 0 <= i < |init| :: init[i] == met[i];
  }

  lemma {:induction false} NoEofYet(ctx: Ctx, st: StreamView, wakes: seq<Wake>)
    requires AfterWakes(ctx, st, wakes).end.None?
    ensures forall i | 0 <= i < |wakes| :: !wakes[i].arm.EofArm?
    decreases |wakes|
  {
    hide Step;
    if wakes != [] {
      var init, w := wakes[..|wakes| - 1], wakes[|wakes| - 1];
      NoEofYet(ctx, st, init);
      if w.arm.EofArm? { StepHasEnded(ctx, AfterWakes(ctx, st, init), w); }
      assert forall i | 0 <= i < |init| :: init[i] == wakes[i];
    }
  }

  lemma {:induction false} LoopFollowsFate(ctx: Ctx, st: StreamView, wakes: seq<Wake>)
    requires st.fed == [] && AfterWakes(ctx, st, wakes).end.Some?
    ensures Met(ctx, wakes) != []
    ensures FateOfEnd(AfterWakes(ctx, st, wakes).end.value) == LoopFate(ctx, Met(ctx, wakes))
  {
    hide AfterWakes, PushAll, Resolution, Consume, ReadsOf, Given, HasText, EndingsIn, Ending, BytesOf, Met, EofIsLast;
    var met := Met(ctx, wakes);
    AttemptEnding(ctx, st, wakes);
    MetSuffices(ctx, st, wakes);
    EndedSomewhere(ctx, st, wakes);
    MetEofIsLast(ctx, st, met);
    ExitKind(ctx, st, met);
    if EndsByHandler(met) {
      AttemptRefinesSpec(ctx, st, met);
    }
  }

  lemma EndedSomewhere(ctx: Ctx, st: StreamView, wakes: seq<Wake>)
    requires AfterWakes(ctx, st, wakes).end.Some?
    ensures wakes != []
  {
  }

  /** However the attempt came to be made, it ends as its surroundings say. */
  lemma {:induction false} AttemptEndsAsFated(ctx: Ctx, st: StreamView, w: World)
    requires st.fed == [] && Concludes(w)
    ensures AttemptRun(ctx, st, w).end.Some? && FateOfEnd(AttemptRun(ctx, st, w).end.value) == FateOf(ctx, w)
  {
    hide AfterWakes, LoopFate, Met;
    ConcludesEnds(ctx, st, w);
    if w.dial == Streaming { LoopFollowsFate(ctx, st, w.wakes); }
  }

  /** The first attempt that is refused, commits or is cancelled decides; if all of them fault, the last one does. */
  function VerdictFrom(ctx: Ctx, s: Strategy, worlds: seq<World>, k: nat): TurnVerdict
    requires EnoughWorlds(s, worlds) && k <= s.allowance
    decreases s.allowance - k
  {
    if worlds[k].available == 0 then Failed(Protocol(AdmissionDenied))
    else
      match FateOf(ctx, worlds[k])
      case Commits(o) => Committed(o)
      case IsCancelled => Failed(Protocol(CancelledByCaller))
      case Faults(f) =>
        if k < s.allowance then VerdictFrom(ctx, s, worlds, k + 1)
        else if s.knowsFailover then Failover(s.allowance + 1)
        else Failed(f)
  }

  function VerdictOf(ctx: Ctx, s: Strategy, worlds: seq<World>): TurnVerdict
    requires EnoughWorlds(s, worlds)
  {
    VerdictFrom(ctx, s, worlds, 0)
  }

  /** One attempt of the turn against its fate. */
  lemma {:induction false} AttemptFollowsFate(ctx: Ctx, s: Strategy, t: Turn, w: World)
    requires t.verdict.None? && Concludes(w) && w.available > 0
    ensures var next := OneAttempt(ctx, s, t, w);
            match FateOf(ctx, w)
            case Commits(o) => next.verdict == Some(Committed(o))
            case IsCancelled => next.verdict == Some(Failed(Protocol(CancelledByCaller)))
            case Faults(f) =>
              if t.remaining > 0 then next.verdict.None?
              else next.verdict == Some(if s.knowsFailover then Failover(t.st.attempt + 1) else Failed(f))
  {
    hide AttemptRun, AttemptTime, WireFault, FateOf;
    var st := NextAttempt(t.st);
    AttemptEndsAsFated(ctx, st, w);
    AttemptKeepsIdentity(ctx, st, w);
  }

  lemma {:induction false} TurnFrom(ctx: Ctx, s: Strategy, stream: StreamId, worlds: seq<World>, k: nat)
    requires EnoughWorlds(s, worlds) && k <= s.allowance
    requires AfterWorlds(ctx, s, stream, worlds[..k]).verdict.None?
    ensures AfterWorlds(ctx, s, stream, worlds).verdict == Some(VerdictFrom(ctx, s, worlds, k))
    decreases s.allowance - k
  {
    hide OneAttempt, FateOf;
    var t := AfterWorlds(ctx, s, stream, worlds[..k]);
    NextWorld(ctx, s, stream, worlds, k);
    if worlds[k].available > 0 {
      AttemptFollowsFate(ctx, s, t, worlds[k]);
    } else {
      RefusedAttempt(ctx, s, t, worlds[k]);
    }
    if AfterWorlds(ctx, s, stream, worlds[..k + 1]).verdict.Some? {
      VerdictStands(ctx, s, stream, worlds, k + 1);
    } else {
      TurnFrom(ctx, s, stream, worlds, k + 1);
    }
  }

  lemma RefusedAttempt(ctx: Ctx, s: Strategy, t: Turn, w: World)
    requires w.available == 0
    ensures OneAttempt(ctx, s, t, w).verdict == Some(Failed(Protocol(AdmissionDenied)))
  {
  }

  /** The turn, with its allowance, counters and records, comes to the verdict its surroundings spell out. */
  lemma {:induction false} TurnRefinesSpec(ctx: Ctx, s: Strategy, stream: StreamId, worlds: seq<World>)
    requires EnoughWorlds(s, worlds)
    ensures AfterWorlds(ctx, s, stream, worlds).verdict == Some(VerdictOf(ctx, s, worlds))
  {
    TurnFrom(ctx, s, stream, worlds, 0);
  }

  predicate Exhausts(ctx: Ctx, worlds: seq<World>) {
    forall i | 0 <= i < |worlds| :: worlds[i].available > 0 && Concludes(worlds[i]) && FateOf(ctx, worlds[i]).Faults?
  }

  lemma {:induction false} FailoverFrom(ctx: Ctx, s: Strategy, worlds: seq<World>, k: nat)
    requires EnoughWorlds(s, worlds) && k <= s.allowance
    ensures VerdictFrom(ctx, s, worlds, k).Failover? <==>
            s.knowsFailover && forall i | k <= i < |worlds| :: worlds[i].available > 0 && FateOf(ctx, worlds[i]).Faults?
    decreases s.allowance - k
  {
    hide FateOf;
    if k < s.allowance { FailoverFrom(ctx, s, worlds, k + 1); }
  }

  /** A turn hands over to the alternative exactly when one is known and every attempt the allowance permits is
      admitted and faults. */
  lemma {:induction false} FailoverIff(ctx: Ctx, s: Strategy, worlds: seq<World>)
    requires EnoughWorlds(s, worlds)
    ensures VerdictOf(ctx, s, worlds).Failover? <==> s.knowsFailover && Exhausts(ctx, worlds)
  {
    hide FateOf, Concludes;
    FailoverFrom(ctx, s, worlds, 0);
  }

  lemma {:induction false} AllFault(ctx: Ctx, s: Strategy, worlds: seq<World>, k: nat)
    requires EnoughWorlds(s, worlds) && k <= s.allowance && Exhausts(ctx, worlds) && !s.knowsFailover
    ensures VerdictFrom(ctx, s, worlds, k) == Failed(FateOf(ctx, worlds[s.allowance]).fault)
    decreases s.allowance - k
  {
    hide FateOf, Concludes;
    if k < s.allowance { AllFault(ctx, s, worlds, k + 1); }
  }

  /** A turn that gives up fails as its last attempt did: with the answer's status and body, its type and the first
      400 characters of its body, the error's own words, the seconds of the timer that fired, the buffer's limit, or
      what the bytes received come to. */
  lemma {:induction false} GivesUp(ctx: Ctx, s: Strategy, stream: StreamId, worlds: seq<World>)
    requires EnoughWorlds(s, worlds) && Exhausts(ctx, worlds) && !s.knowsFailover
    ensures AfterWorlds(ctx, s, stream, worlds).verdict.Some?
    ensures var w, v := worlds[s.allowance], AfterWorlds(ctx, s, stream, worlds).verdict.value;
            match w.dial
            case DialCancelled => false
            case DialTimedOut => v == Failed(Stalled(ctx.cfg.backstop / 1_000_000_000))
            case DialFailed(detail) => v == Failed(Protocol(Verbatim(detail)))
            case BadStatus(status, body) => v == Failed(Protocol(HttpAnswer(status, body)))
            case WrongType(contentType, body) => v == Failed(Protocol(NotAStream(contentType, FirstChars(body, 400))))
            case Streaming =>
              var met := Met(ctx, w.wakes);
              && met != []
              && match met[|met| - 1].arm
                 case CancelArm => false
                 case OverallArm => v == Failed(Stalled(ctx.cfg.overall / 1_000_000_000))
                 case TickArm => v == Failed(Stalled(ctx.cfg.sustained / 1_000_000_000))
                 case StallArm =>
                   if ReadsOf(met) == [] then v == Failed(Stalled(ctx.cfg.backstop / 1_000_000_000))
                   else v == Failed(Stalled(ctx.cfg.stall / 1_000_000_000))
                 case ErrorArm(detail) => v == Failed(Protocol(Verbatim(detail)))
                 case _ =>
                   if EndsByHandler(met) then
                     Resolution(ctx.decode, BytesOf(met)).Faulted?
                     && v == Failed(Resolution(ctx.decode, BytesOf(met)).fault)
                   else v == Failed(BufferOverflow(1_048_576))
  {
    hide AfterWorlds, Met, Resolution, BytesOf, ReadsOf, EndsByHandler;
    var w := worlds[s.allowance];
    TurnRefinesSpec(ctx, s, stream, worlds);
    AllFault(ctx, s, worlds, 0);
    MetSuffices(ctx, NewStream(0), w.wakes);
  }

  /** A request that brings no stream leaves one record: its end, with what the answer was. */
  lemma {:induction false} NoStreamRecorded(ctx: Ctx, st: StreamView, w: World)
    requires w.dial != Streaming
    ensures AttemptRun(ctx, st, w).log ==
            [StreamEnd(st.stream, st.attempt,
               match w.dial
               case DialTimedOut => FirstByteBackstop(ctx.cfg.backstop / 1_000_000_000)
               case DialFailed(detail) => ConnectError(detail)
               case BadStatus(status, body) => HttpError(status, body)
               case WrongType(contentType, body) => NotAnEventStream(contentType, FirstChars(body, 400))
               case _ => Cancelled,
               0)]
  {
    assert [] + AttemptRun(ctx, st, w).log == AttemptRun(ctx, st, w).log;
  }
}
