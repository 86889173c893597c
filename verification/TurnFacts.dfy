/** What holds of every turn. */
module TurnFacts {
  import opened Text
  import opened Vocabulary
  import opened Machine
  import opened Handler
  import opened AttemptSpec
  import opened AttemptTrace
  import opened AttemptOutcome
  import opened TurnSpec

  // ---- termination and the allowance ----

  lemma {:induction false} StepHasEnded(ctx: Ctx, a: Attempt, w: Wake)
    requires !w.arm.ReadArm? && !w.arm.TickArm?
    ensures Step(ctx, a, w).end.Some?
  {
    hide OnEof;
    if w.arm.EofArm? { EofEnds(ctx, a.(loc := a.loc.(polls := a.loc.polls + 1))); }
  }

  lemma {:induction false} ConcludesEnds(ctx: Ctx, st: StreamView, w: World)
    requires Concludes(w)
    ensures AttemptRun(ctx, st, w).end.Some?
  {
    hide Step;
    if w.dial == Streaming {
      var a := AfterWakes(ctx, st, w.wakes[..|w.wakes| - 1]);
      StepHasEnded(ctx, a, w.wakes[|w.wakes| - 1]);
    }
  }

  lemma {:induction false} AttemptKeepsIdentity(ctx: Ctx, st: StreamView, w: World)
    ensures AttemptRun(ctx, st, w).st.attempt == st.attempt && AttemptRun(ctx, st, w).st.stream == st.stream
  {
    hide AfterWakes, DigestOf;
    AttemptAccounts(ctx, st, w.wakes);
  }

  /** Where a turn stands after `n` attempts: attempts made and allowance left always add up, and each kind of verdict
      is reached only where the strategy allows it. */
  ghost predicate Budgeted(s: Strategy, t: Turn, n: nat) {
    match t.verdict
    case None => t.st.attempt == n && n + t.remaining == s.allowance
    case Some(v) =>
      && 1 <= t.st.attempt <= n && t.st.attempt <= s.allowance + 1
      && match v {
           case Committed(_) => true
           case Failover(k) => s.knowsFailover && k == t.st.attempt == s.allowance + 1
           case Failed(f) =>
             f == Protocol(AdmissionDenied) || f == Protocol(CancelledByCaller) ||
             (!s.knowsFailover && t.st.attempt == s.allowance + 1)
         }
  }

  lemma DecisionBudgeted(s: Strategy, t: Turn, end: AttemptEnd, n: nat)
    requires t.verdict.None? && t.st.attempt == n + 1 && n + t.remaining == s.allowance
    ensures Budgeted(s, Decide(s, t, Some(end)), n + 1)
  {
  }

  lemma {:induction false} OneAttemptBudgeted(ctx: Ctx, s: Strategy, t: Turn, w: World, n: nat)
    requires Budgeted(s, t, n) && t.verdict.None? && Concludes(w)
    ensures Budgeted(s, OneAttempt(ctx, s, t, w), n + 1)
  {
    hide AttemptRun, Decide, AttemptTime;
    var t1 := t.(st := NextAttempt(t.st));
    if w.available > 0 {
      ConcludesEnds(ctx, t1.st, w);
      AttemptKeepsIdentity(ctx, t1.st, w);
      DecisionBudgeted(s, Admitted(ctx, t1, w), AttemptRun(ctx, t1.st, w).end.value, n);
    }
  }

  lemma {:induction false} TurnBudgeted(ctx: Ctx, s: Strategy, stream: StreamId, worlds: seq<World>)
    requires forall i | 0 <= i < |worlds| :: Concludes(worlds[i])
    ensures Budgeted(s, AfterWorlds(ctx, s, stream, worlds), |worlds|)
    decreases |worlds|
  {
    hide OneAttempt, Concludes;
    if worlds != [] {
      var init := worlds[..|worlds| - 1];
      assert forall i | 0 <= i < |init| :: init[i] == worlds[i];
      TurnBudgeted(ctx, s, stream, init);
      var t := AfterWorlds(ctx, s, stream, init);
      if t.verdict.None? { OneAttemptBudgeted(ctx, s, t, worlds[|worlds| - 1], |init|); }
    }
  }

  /** Every turn reaches its verdict within allowance + 1 attempts; a failover, or giving up for want of one, comes only
      at the last of them, and which of the two it is depends only on whether an alternative is known. */
  lemma {:induction false} TurnEnds(ctx: Ctx, s: Strategy, stream: StreamId, worlds: seq<World>)
    requires EnoughWorlds(s, worlds)
    ensures var t := AfterWorlds(ctx, s, stream, worlds);
            && t.verdict.Some? && 1 <= t.st.attempt <= s.allowance + 1
            && (t.verdict.value.Failover? ==>
                  s.knowsFailover && t.verdict.value.attemptsHere == t.st.attempt == s.allowance + 1)
            && (t.verdict.value.Failed? ==>
                  || t.verdict.value.fault == Protocol(AdmissionDenied)
                     || t.verdict.value.fault == Protocol(CancelledByCaller)
                  || (!s.knowsFailover && t.st.attempt == s.allowance + 1))
  {
    hide AfterWorlds, Concludes;
    TurnBudgeted(ctx, s, stream, worlds);
  }

  /** At every wire-fault decision, attempts made plus allowance left is allowance + 1. */
  lemma {:induction false} DecisionPoint(ctx: Ctx, s: Strategy, stream: StreamId, worlds: seq<World>, w: World)
    requires forall i | 0 <= i < |worlds| :: Concludes(worlds[i])
    requires AfterWorlds(ctx, s, stream, worlds).verdict.None? && w.available > 0
    ensures var t0 := AfterWorlds(ctx, s, stream, worlds);
            var t := Admitted(ctx, t0.(st := NextAttempt(t0.st)), w);
            t.st.attempt + t.remaining == s.allowance + 1
  {
    hide AfterWorlds, AttemptRun, AttemptTime, Concludes;
    TurnBudgeted(ctx, s, stream, worlds);
    AttemptKeepsIdentity(ctx, NextAttempt(AfterWorlds(ctx, s, stream, worlds).st), w);
  }

  lemma {:induction false} AttemptCounts(ctx: Ctx, s: Strategy, t: Turn, w: World)
    ensures OneAttempt(ctx, s, t, w).st.attempt == t.st.attempt + 1
  {
    hide AttemptRun, AttemptTime;
    AttemptKeepsIdentity(ctx, NextAttempt(t.st), w);
  }

  /** A turn without a verdict has a world left for its next attempt. */
  lemma {:induction false} NextWorld(ctx: Ctx, s: Strategy, stream: StreamId, worlds: seq<World>, k: nat)
    requires EnoughWorlds(s, worlds) && k <= |worlds| && AfterWorlds(ctx, s, stream, worlds[..k]).verdict.None?
    ensures k < |worlds| && Concludes(worlds[k])
    ensures AfterWorlds(ctx, s, stream, worlds[..k + 1])
        == OneAttempt(ctx, s, AfterWorlds(ctx, s, stream, worlds[..k]), worlds[k])
    ensures AfterWorlds(ctx, s, stream, worlds[..k]).st.attempt == k
        && AfterWorlds(ctx, s, stream, worlds[..k + 1]).st.attempt == k + 1
    ensures k + AfterWorlds(ctx, s, stream, worlds[..k]).remaining == s.allowance
  {
    hide OneAttempt, Concludes;
    assert forall i | 0 <= i < k :: worlds[..k][i] == worlds[i];
    TurnBudgeted(ctx, s, stream, worlds[..k]);
    AttemptCounts(ctx, s, AfterWorlds(ctx, s, stream, worlds[..k]), worlds[k]);
    assert worlds[..k + 1][..k] == worlds[..k];
  }

  /** Once a turn has its verdict, no further attempt is made. */
  lemma {:induction false} VerdictStands(ctx: Ctx, s: Strategy, stream: StreamId, worlds: seq<World>, n: nat)
    requires n <= |worlds| && AfterWorlds(ctx, s, stream, worlds[..n]).verdict.Some?
    ensures AfterWorlds(ctx, s, stream, worlds) == AfterWorlds(ctx, s, stream, worlds[..n])
    decreases |worlds|
  {
    hide OneAttempt;
    if n == |worlds| {
      assert worlds[..n] == worlds;
    } else {
      assert worlds[..|worlds| - 1][..n] == worlds[..n];
      VerdictStands(ctx, s, stream, worlds[..|worlds| - 1], n);
    }
  }

  // ---- what is committed ----

  /** A committed outcome is the resolution of the last attempt's bytes. */
  ghost predicate CommitsLast(ctx: Ctx, t: Turn, worlds: seq<World>) {
    t.verdict.Some? && t.verdict.value.Committed? ==>
      && 1 <= t.st.attempt <= |worlds|
      && var w := worlds[t.st.attempt - 1];
         w.dial == Streaming && Resolution(ctx.decode, BytesOf(w.wakes)) == Resolved(t.verdict.value.outcome)
  }

  lemma {:induction false} OneAttemptCommits(ctx: Ctx, s: Strategy, t: Turn, w: World)
    requires EofIsLast(w.wakes) && t.verdict.None?
    ensures var t1 := OneAttempt(ctx, s, t, w);
            t1.verdict.Some? && t1.verdict.value.Committed? ==>
              && t1.st.attempt == t.st.attempt + 1 && w.dial == Streaming
              && Resolution(ctx.decode, BytesOf(w.wakes)) == Resolved(t1.verdict.value.outcome)
  {
    hide AfterWakes, BytesOf, Resolution, AttemptTime;
    var st := NextAttempt(t.st);
    AttemptKeepsIdentity(ctx, st, w);
    var a := AfterWakes(ctx, st, w.wakes);
    if w.dial == Streaming && a.end.Some? && a.end.value.Finished? { AttemptRefinesSpec(ctx, st, w.wakes); }
  }

  lemma {:induction false} TurnCommits(ctx: Ctx, s: Strategy, stream: StreamId, worlds: seq<World>)
    requires forall i | 0 <= i < |worlds| :: Concludes(worlds[i]) && EofIsLast(worlds[i].wakes)
    ensures CommitsLast(ctx, AfterWorlds(ctx, s, stream, worlds), worlds)
    decreases |worlds|
  {
    hide OneAttempt, Concludes, EofIsLast, Resolution;
    if worlds != [] {
      var init, w := worlds[..|worlds| - 1], worlds[|worlds| - 1];
      assert forall i | 0 <= i < |init| :: init[i] == worlds[i];
      TurnCommits(ctx, s, stream, init);
      TurnBudgeted(ctx, s, stream, init);
      var t := AfterWorlds(ctx, s, stream, init);
      if t.verdict.None? { OneAttemptCommits(ctx, s, t, w); }
    }
  }

  /** What a committed turn commits: the last attempt's deltas in order, its first finish reason and its last usage,
      and nothing of earlier attempts. */
  ghost predicate CommitsWhatWasSaid(ctx: Ctx, t: Turn, worlds: seq<World>) {
    t.verdict.Some? && t.verdict.value.Committed? ==>
      && 1 <= t.st.attempt <= |worlds| && worlds[t.st.attempt - 1].dial == Streaming
      && var fed := OutcomeOf(ctx.decode, BytesOf(worlds[t.st.attempt - 1].wakes)).fed;
         && FirstFinish(fed).Some?
         && t.verdict.value.outcome == ChatOutcome(ContentOf(fed), FirstFinish(fed).value, LastUsage(fed))
  }

  lemma {:induction false} CommittedIsLastAttempt(ctx: Ctx, s: Strategy, stream: StreamId, worlds: seq<World>)
    requires EnoughWorlds(s, worlds) && forall i | 0 <= i < |worlds| :: EofIsLast(worlds[i].wakes)
    ensures CommitsWhatWasSaid(ctx, AfterWorlds(ctx, s, stream, worlds), worlds)
  {
    hide AfterWorlds, OutcomeOf, BytesOf, ContentOf, FirstFinish, LastUsage, EofIsLast, Concludes;
    TurnCommits(ctx, s, stream, worlds);
  }

  // ---- the trace ----

  /** The marks of `n` whole attempts. */
  function AttemptMarks(n: nat): seq<Mark> {
    if n == 0 then [] else AttemptMarks(n - 1) + [SpentMark(n), EndMark(n), ReturnedMark(n)]
  }

  predicate Denied(t: Turn) { t.verdict == Some(Failed(Protocol(AdmissionDenied))) }

  /** The records offered so far, against the stream's counters. */
  ghost predicate Balanced(t: Turn) {
    var d := DigestOf(t.log);
    && d.readRecs == t.st.readCount && d.events == t.st.events && d.errors == t.st.normErrors
    && (if Denied(t) then t.st.attempt >= 1 && d.marks == AttemptMarks(t.st.attempt - 1) + [DeniedMark(t.st.attempt)]
        else d.marks == AttemptMarks(t.st.attempt))
  }

  lemma {:induction false} RunAccounts(ctx: Ctx, st: StreamView, w: World)
    requires Concludes(w)
    ensures Accounted(AttemptRun(ctx, st, w), st) && AttemptRun(ctx, st, w).end.Some?
  {
    hide AfterWakes, DigestOf, EndOnWire;
    ConcludesEnds(ctx, st, w);
    if w.dial == Streaming {
      AttemptAccounts(ctx, st, w.wakes);
    } else {
      BeginAccounts(st);
      WireAccounts(Begin(st), st, DialCause(ctx.cfg, w.dial));
    }
  }

  lemma {:induction false} AdmittedBalanced(ctx: Ctx, t: Turn, w: World, n: nat)
    requires Concludes(w) && t.st.attempt == n + 1
    requires var d := DigestOf(t.log);
             d.readRecs == t.st.readCount && d.events == t.st.events && d.errors == t.st.normErrors
                 && d.marks == AttemptMarks(n)
    ensures var t1 := Admitted(ctx, t, w); var d := DigestOf(t1.log);
            && d.readRecs == t1.st.readCount && d.events == t1.st.events && d.errors == t1.st.normErrors
            && d.marks == AttemptMarks(n + 1) && t1.st.attempt == n + 1
  {
    hide DigestOf, AttemptRun, AttemptTime, AttemptMarks, UpTo;
    var a := AttemptRun(ctx, t.st, w);
    RunAccounts(ctx, t.st, w);
    var spent := LedgerRecord(t, SendBucketSpent(if w.available > 0 then w.available - 1 else 0));
    var returned := LedgerRecord(t.(st := a.st), SendBucketReturned((w.onReturn + 1) % U32));
    DigestSnoc(t.log, spent);
    DigestJoin(t.log + [spent], a.log);
    DigestSnoc(t.log + [spent] + a.log, returned);
    OneMoreAttempt(n);
    assert AttemptMarks(n) + [SpentMark(n + 1)] + [EndMark(n + 1)] + [ReturnedMark(n + 1)] == AttemptMarks(n + 1);
  }

  lemma OneMoreAttempt(n: nat)
    ensures AttemptMarks(n + 1) == AttemptMarks(n) + [SpentMark(n + 1), EndMark(n + 1), ReturnedMark(n + 1)]
  {
  }

  lemma {:induction false} LedgerDigest(log: Log, rec: EmissionRecord)
    requires rec.Ledger? && (rec.entry.RetryAllowanceSpent? || rec.entry.RetryAllowanceGranted?)
    ensures DigestOf(log + [rec]) == DigestOf(log)
  {
    hide DigestOf;
    DigestSnoc(log, rec);
    PlusUnit(DigestOf(log));
  }

  lemma {:induction false} DecideBalanced(s: Strategy, t: Turn, end: AttemptEnd)
    requires t.verdict.None? && Balanced(t)
    requires end != OnWire(Cancelled) ==>
               end.OnWire? || end.resolution.Resolved? || end.resolution.fault != Protocol(AdmissionDenied)
    ensures Balanced(Decide(s, t, Some(end)))
  {
    hide DigestOf, AttemptMarks;
    LedgerDigest(t.log, Ledger(t.st.stream, t.st.attempt,
        RetryAllowanceSpent(if t.remaining > 0 then t.remaining - 1 else 0)));
  }

  /** The machine never faults with an admission refusal. */
  lemma {:induction false} FinishedFault(ctx: Ctx, st: StreamView, w: World)
    requires st.fed == [] && EofIsLast(w.wakes)
    ensures var end := AttemptRun(ctx, st, w).end;
            end.Some? && end.value.Finished? && end.value.resolution.Faulted? ==> !end.value.resolution.fault.Protocol?
  {
    hide AfterWakes, BytesOf, OutcomeOf;
    if w.dial == Streaming {
      var a := AfterWakes(ctx, st, w.wakes);
      if a.end.Some? && a.end.value.Finished? { AttemptRefinesSpec(ctx, st, w.wakes); }
    }
  }

  lemma {:induction false} OneAttemptBalanced(ctx: Ctx, s: Strategy, t: Turn, w: World)
    requires Balanced(t) && t.verdict.None? && Concludes(w) && EofIsLast(w.wakes)
    ensures Balanced(OneAttempt(ctx, s, t, w))
  {
    hide DigestOf, AttemptRun, AttemptTime, AttemptMarks, Admitted, Decide, EofIsLast;
    var t1 := t.(st := NextAttempt(t.st));
    if w.available == 0 {
      DigestSnoc(t.log, LedgerRecord(t1, SendBucketDenied));
    } else {
      ConcludesEnds(ctx, t1.st, w);
      AdmittedBalanced(ctx, t1, w, t.st.attempt);
      AdmittedVerdict(ctx, t1, w);
      FinishedFault(ctx, t1.st, w);
      DecideBalanced(s, Admitted(ctx, t1, w), AttemptRun(ctx, t1.st, w).end.value);
    }
  }

  lemma AdmittedVerdict(ctx: Ctx, t: Turn, w: World)
    ensures Admitted(ctx, t, w).verdict == t.verdict
  {
  }

  lemma {:induction false} TurnBalanced(ctx: Ctx, s: Strategy, stream: StreamId, worlds: seq<World>)
    requires forall i | 0 <= i < |worlds| :: Concludes(worlds[i]) && EofIsLast(worlds[i].wakes)
    ensures Balanced(AfterWorlds(ctx, s, stream, worlds))
    decreases |worlds|
  {
    hide OneAttempt, Concludes, EofIsLast, Balanced;
    if worlds == [] {
      StartBalanced(s, stream);
    } else {
      var init := worlds[..|worlds| - 1];
      assert forall i | 0 <= i < |init| :: init[i] == worlds[i];
      TurnBalanced(ctx, s, stream, init);
      var t := AfterWorlds(ctx, s, stream, init);
      if t.verdict.None? { OneAttemptBalanced(ctx, s, t, worlds[|worlds| - 1]); }
    }
  }

  lemma {:induction false} StartBalanced(s: Strategy, stream: StreamId)
    ensures Balanced(BeginTurn(s, stream))
  {
    LedgerDigest([], Ledger(stream, 0, RetryAllowanceGranted(s.allowance)));
    assert [] + [Ledger(stream, 0, RetryAllowanceGranted(s.allowance))]
        == [Ledger(stream, 0, RetryAllowanceGranted(s.allowance))];
  }

  /** The whole trace of a turn: one trailer, at the end; each admitted attempt has one end-of-stream record, between
      its bucket-spent and bucket-returned records; and the trailer's figures are the numbers of records offered. Its
      count of normalization errors leaves out refused choice lists. */
  lemma {:induction false} TraceAgrees(ctx: Ctx, s: Strategy, stream: StreamId, worlds: seq<World>)
    requires EnoughWorlds(s, worlds) && forall i | 0 <= i < |worlds| :: EofIsLast(worlds[i].wakes)
    ensures var t := AfterWorlds(ctx, s, stream, worlds);
            && t.verdict.Some?
            && var trailer := Trailer(t, t.verdict.value);
               var d := DigestOf(t.log + [trailer]);
               var admitted := if Denied(t) then t.st.attempt - 1 else t.st.attempt;
               && trailer.attempts == t.st.attempt >= 1
               && trailer.readCount == d.readRecs && trailer.events == d.events
               && ErrorRecords(t.log + [trailer]) == trailer.normErrors + d.choiceErrors
               && d.marks == AttemptMarks(admitted) + (if Denied(t) then [DeniedMark(t.st.attempt)] else [])
                  + [TrailerMark]
  {
    hide DigestOf, AfterWorlds, AttemptMarks, Concludes, EofIsLast;
    TurnEnds(ctx, s, stream, worlds);
    TurnBalanced(ctx, s, stream, worlds);
    var t := AfterWorlds(ctx, s, stream, worlds);
    DigestSnoc(t.log, Trailer(t, t.verdict.value));
    ErrorsDigested(t.log + [Trailer(t, t.verdict.value)]);
    var marks := AttemptMarks(t.st.attempt);
    assert marks + [] == marks;
  }

  // ---- admission ----

  lemma {:induction false} AdmittedIsNotDenied(ctx: Ctx, s: Strategy, t: Turn, w: World)
    requires t.verdict.None? && t.st.fed == [] && Concludes(w) && EofIsLast(w.wakes) && w.available > 0
    ensures !Denied(Decide(s, Admitted(ctx, t, w), AttemptRun(ctx, t.st, w).end))
  {
    hide AttemptRun, AttemptTime, EofIsLast;
    ConcludesEnds(ctx, t.st, w);
    FinishedFault(ctx, t.st, w);
  }

  lemma {:induction false} OneAttemptDenied(ctx: Ctx, s: Strategy, t: Turn, w: World)
    requires t.verdict.None? && Concludes(w) && EofIsLast(w.wakes)
    ensures Denied(OneAttempt(ctx, s, t, w)) <==> w.available == 0
    ensures OneAttempt(ctx, s, t, w).st.attempt == t.st.attempt + 1
  {
    hide AttemptRun, AttemptTime, EofIsLast, Decide, Admitted;
    if w.available > 0 { AdmittedIsNotDenied(ctx, s, t.(st := NextAttempt(t.st)), w); }
    AttemptCounts(ctx, s, t, w);
  }

  ghost predicate DeniedAtEmpty(t: Turn, worlds: seq<World>) {
    && (t.verdict.None? ==> t.st.attempt == |worlds|)
    && (t.verdict.Some? ==> 1 <= t.st.attempt <= |worlds| && (Denied(t) <==> worlds[t.st.attempt - 1].available == 0))
  }

  /** A turn is refused admission exactly when its last attempt finds the shared counter at zero. */
  lemma {:induction false} DeniedIff(ctx: Ctx, s: Strategy, stream: StreamId, worlds: seq<World>)
    requires forall i | 0 <= i < |worlds| :: Concludes(worlds[i]) && EofIsLast(worlds[i].wakes)
    ensures DeniedAtEmpty(AfterWorlds(ctx, s, stream, worlds), worlds)
    decreases |worlds|
  {
    hide OneAttempt, Concludes, EofIsLast, Denied;
    if worlds != [] {
      var init, w := worlds[..|worlds| - 1], worlds[|worlds| - 1];
      assert forall i | 0 <= i < |init| :: init[i] == worlds[i];
      DeniedIff(ctx, s, stream, init);
      var t := AfterWorlds(ctx, s, stream, init);
      if t.verdict.None? { OneAttemptDenied(ctx, s, t, w); }
    }
  }

  // ---- the next attempt ----

  /** The stream an attempt would start from. */
  function NextStream(ctx: Ctx, s: Strategy, stream: StreamId, worlds: seq<World>): StreamView {
    NextAttempt(AfterWorlds(ctx, s, stream, worlds).st)
  }
}
