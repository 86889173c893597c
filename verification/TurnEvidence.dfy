/** What a turn's records say about its content and its errors. */
module TurnEvidence {
  import opened Text
  import opened Vocabulary
  import opened Machine
  import opened Handler
  import opened AttemptSpec
  import opened AttemptOutcome
  import opened AttemptEvidence
  import opened AttemptRefusals
  import opened AttemptTrace
  import opened AttemptReceived
  import opened TurnSpec
  import opened TurnFacts

  /** The events an admitted attempt's machine is given. */
  function Received(ctx: Ctx, w: World): seq<DriverEvent> {
    if w.dial == Streaming then Given(ctx.decode, Met(ctx, w.wakes)) else []
  }

  /** Some admitted attempt had text. */
  ghost predicate SomeText(ctx: Ctx, worlds: seq<World>) {
    exists j | 0 <= j < |worlds| :: worlds[j].available > 0 && HasText(Received(ctx, worlds[j]))
  }

  lemma {:induction false} AttemptHeard(ctx: Ctx, st: StreamView, w: World)
    requires st.fed == [] && Concludes(w)
    ensures AttemptRun(ctx, st, w).st.sawAnyContent == (st.sawAnyContent || HasText(Received(ctx, w)))
  {
    hide AfterWakes, Given, Met;
    if w.dial == Streaming { RunHeard(ctx, st, w.wakes); } else { NoText(); }
  }

  lemma {:induction false} OneAttemptHeard(ctx: Ctx, s: Strategy, t: Turn, w: World)
    requires t.verdict.None? && Concludes(w) && OneAttempt(ctx, s, t, w).verdict.None?
    ensures w.available > 0
    ensures OneAttempt(ctx, s, t, w).st.sawAnyContent == (t.st.sawAnyContent || HasText(Received(ctx, w)))
  {
    hide AttemptRun, AttemptTime, Received, HasText;
    AttemptHeard(ctx, NextAttempt(t.st), w);
  }

  lemma {:induction false} SomeTextOneMore(ctx: Ctx, init: seq<World>, w: World)
    ensures SomeText(ctx, init + [w]) <==> SomeText(ctx, init) || (w.available > 0 && HasText(Received(ctx, w)))
  {
    hide HasText, Received;
    var worlds := init + [w];
    if SomeText(ctx, init) {
      var j :| 0 <= j < |init| && init[j].available > 0 && HasText(Received(ctx, init[j]));
      assert worlds[j] == init[j];
    }
    assert worlds[|init|] == w;
  }

  /** The stream's flag, while the turn is undecided, says whether any of its attempts so far had text. */
  lemma {:induction false} TurnHeard(ctx: Ctx, s: Strategy, stream: StreamId, worlds: seq<World>)
    requires forall i | 0 <= i < |worlds| :: Concludes(worlds[i])
    requires AfterWorlds(ctx, s, stream, worlds).verdict.None?
    ensures AfterWorlds(ctx, s, stream, worlds).st.sawAnyContent <==> SomeText(ctx, worlds)
    decreases |worlds|
  {
    hide OneAttempt, Concludes, Received, HasText;
    if worlds != [] {
      var init, w := worlds[..|worlds| - 1], worlds[|worlds| - 1];
      assert forall i | 0 <= i < |init| :: init[i] == worlds[i];
      assert worlds == init + [w];
      TurnHeard(ctx, s, stream, init);
      OneAttemptHeard(ctx, s, AfterWorlds(ctx, s, stream, init), w);
      SomeTextOneMore(ctx, init, w);
    }
  }

  /** When the peer closes an attempt, the end is recorded as "closed with no content" exactly if no attempt of the
      turn, this one included, had any text: an earlier attempt's text hides an empty close. */
  lemma {:induction false} EmptyCloseIff(ctx: Ctx, s: Strategy, stream: StreamId, worlds: seq<World>, w: World)
    requires forall i | 0 <= i < |worlds| :: Concludes(worlds[i])
    requires AfterWorlds(ctx, s, stream, worlds).verdict.None?
    requires w.available > 0 && w.dial == Streaming && AllMet(ctx, w.wakes) && ClosedBy(w.wakes)
    ensures var st := NextStream(ctx, s, stream, worlds);
            EndRecordedAs(AttemptRun(ctx, st, w).log, st,
                          if SomeText(ctx, worlds + [w]) then PeerClosed else ClosedWithNoContent, 0)
  {
    hide AfterWorlds, AfterWakes, Concludes, HasText, EndRecordedAs, ClosedBy;
    var st := NextStream(ctx, s, stream, worlds);
    TurnHeard(ctx, s, stream, worlds);
    SomeTextOneMore(ctx, worlds, w);
    ClosedWithNoContentIff(ctx, st, w.wakes);
    MetAll(ctx, w.wakes);
  }

  lemma MetAll(ctx: Ctx, wakes: seq<Wake>)
    requires AllMet(ctx, wakes)
    ensures Met(ctx, wakes) == wakes
  {
  }

  // ---- errors the trailer does not count ----

  /** An admitted attempt refuses an installment for having several choices. */
  predicate UncountedIn(ctx: Ctx, w: World) {
    w.available > 0 && w.dial == Streaming && RefusesMany(ctx.decode, Met(ctx, w.wakes))
  }

  function Uncounted(ctx: Ctx, worlds: seq<World>): nat {
    if worlds == [] then 0
    else Uncounted(ctx, worlds[..|worlds| - 1]) + One(UncountedIn(ctx, worlds[|worlds| - 1]))
  }

  lemma {:induction false} RunUncounted(ctx: Ctx, st: StreamView, w: World)
    requires st.fed == []
    ensures DigestOf(AttemptRun(ctx, st, w).log).choiceErrors
         == One(w.dial == Streaming && RefusesMany(ctx.decode, Met(ctx, w.wakes)))
  {
    hide DigestOf, AfterWakes, RefusesMany, Met;
    if w.dial == Streaming {
      AttemptChoices(ctx, st, w.wakes);
    } else {
      NoChoices(st);
      UnrelatedJoin(Begin(st).log, [EndRecord(Begin(st), DialCause(ctx.cfg, w.dial))]);
    }
  }

  lemma {:induction false} AdmittedUncounted(ctx: Ctx, t: Turn, w: World)
    requires t.st.fed == []
    ensures DigestOf(Admitted(ctx, t, w).log).choiceErrors
         == DigestOf(t.log).choiceErrors + One(w.dial == Streaming && RefusesMany(ctx.decode, Met(ctx, w.wakes)))
  {
    hide DigestOf, AttemptRun, AttemptTime, RefusesMany, Met;
    var a := AttemptRun(ctx, t.st, w);
    var spent := LedgerRecord(t, SendBucketSpent(if w.available > 0 then w.available - 1 else 0));
    var returned := LedgerRecord(t.(st := a.st), SendBucketReturned((w.onReturn + 1) % U32));
    RunUncounted(ctx, t.st, w);
    UnrelatedJoin(t.log, [spent]);
    DigestJoin(t.log + [spent], a.log);
    UnrelatedJoin(t.log + [spent] + a.log, [returned]);
  }

  lemma {:induction false} DecideUncounted(s: Strategy, t: Turn, end: Option<AttemptEnd>)
    ensures DigestOf(Decide(s, t, end).log).choiceErrors == DigestOf(t.log).choiceErrors
  {
    hide DigestOf, WireFault;
    var left := if t.remaining > 0 then t.remaining - 1 else 0;
    UnrelatedJoin(t.log, [Ledger(t.st.stream, t.st.attempt, RetryAllowanceSpent(left))]);
  }

  lemma {:induction false} OneAttemptUncounted(ctx: Ctx, s: Strategy, t: Turn, w: World)
    ensures DigestOf(OneAttempt(ctx, s, t, w).log).choiceErrors
        == DigestOf(t.log).choiceErrors + One(UncountedIn(ctx, w))
  {
    hide DigestOf, AttemptRun, AttemptTime, RefusesMany, Met, Decide, Admitted;
    var t1 := t.(st := NextAttempt(t.st));
    if w.available == 0 {
      UnrelatedJoin(t.log, [LedgerRecord(t1, SendBucketDenied)]);
    } else {
      AdmittedUncounted(ctx, t1, w);
      DecideUncounted(s, Admitted(ctx, t1, w), AttemptRun(ctx, t1.st, w).end);
    }
  }

  lemma {:induction false} TurnUncounted(ctx: Ctx, s: Strategy, stream: StreamId, worlds: seq<World>)
    ensures var t := AfterWorlds(ctx, s, stream, worlds);
            && t.st.attempt <= |worlds| && (t.verdict.None? ==> t.st.attempt == |worlds|)
            && DigestOf(t.log).choiceErrors == Uncounted(ctx, worlds[..t.st.attempt])
    decreases |worlds|
  {
    hide OneAttempt, DigestOf, UncountedIn;
    if worlds == [] {
      StartUncounted(s, stream);
    } else {
      var init, w := worlds[..|worlds| - 1], worlds[|worlds| - 1];
      var t := AfterWorlds(ctx, s, stream, init);
      TurnUncounted(ctx, s, stream, init);
      if t.verdict.None? {
        OneAttemptUncounted(ctx, s, t, w);
        AttemptCounts(ctx, s, t, w);
        assert worlds[..|worlds|] == worlds && init[..|init|] == init;
      } else {
        assert init[..t.st.attempt] == worlds[..t.st.attempt];
      }
    }
  }

  lemma {:induction false} StartUncounted(s: Strategy, stream: StreamId)
    ensures DigestOf(BeginTurn(s, stream).log).choiceErrors == 0
  {
    hide DigestOf;
    NoDigest([]);
    assert [] + BeginTurn(s, stream).log == BeginTurn(s, stream).log;
    UnrelatedJoin([], BeginTurn(s, stream).log);
  }

  lemma {:induction false} NoneUncounted(ctx: Ctx, worlds: seq<World>)
    ensures Uncounted(ctx, worlds) == 0 <==> forall i | 0 <= i < |worlds| :: !UncountedIn(ctx, worlds[i])
    decreases |worlds|
  {
    hide UncountedIn;
    if worlds != [] { NoneUncounted(ctx, worlds[..|worlds| - 1]); }
  }

  /** The trailer counts every normalization error offered exactly if no attempt of the turn was stopped by a frame, or
      closed on a tail, with several choices; it is one short for each that was. */
  lemma {:induction false} TrailerCountsErrorsIff(ctx: Ctx, s: Strategy, stream: StreamId, worlds: seq<World>)
    requires EnoughWorlds(s, worlds) && forall i | 0 <= i < |worlds| :: EofIsLast(worlds[i].wakes)
    ensures var t := AfterWorlds(ctx, s, stream, worlds);
            && t.verdict.Some? && t.st.attempt <= |worlds|
            && var trailer := Trailer(t, t.verdict.value); var offered := ErrorRecords(t.log + [trailer]);
               && offered == trailer.normErrors + Uncounted(ctx, worlds[..t.st.attempt])
               && (offered == trailer.normErrors <==> forall i | 0 <= i < t.st.attempt :: !UncountedIn(ctx, worlds[i]))
  {
    hide AfterWorlds, DigestOf, UncountedIn, EofIsLast, Concludes, ErrorRecords, AttemptMarks;
    var t := AfterWorlds(ctx, s, stream, worlds);
    TraceAgrees(ctx, s, stream, worlds);
    TurnUncounted(ctx, s, stream, worlds);
    UnrelatedJoin(t.log, [Trailer(t, t.verdict.value)]);
    NoneUncounted(ctx, worlds[..t.st.attempt]);
  }
}
