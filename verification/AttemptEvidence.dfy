/** What the records of an attempt say about its content, against the specification of its bytes. */
module AttemptEvidence {
  import opened Text
  import opened Framing
  import opened Sse
  import opened Vocabulary
  import opened Machine
  import opened Refinement
  import opened Handler
  import opened Throughput
  import opened AttemptSpec
  import opened AttemptTrace
  import opened AttemptOutcome
  import opened AttemptIsolation
  import opened AttemptReceived
  import opened SseRuns

  // ---- anomalies ----

  lemma {:induction false} FrameAnomalies(ctx: Ctx, a: Attempt, at: nat, gap: nat, ev: SseEvent, seen: seq<SseEvent>,
                                          st: StreamView)
    requires InStep(ctx, a, seen) && Accounted(a, st)
    ensures var b := OnFrame(ctx, a, at, gap, ev);
            b.end.Some? ==> AnomaliesIn(b.log) == AnomaliesOf(Consume(ctx.decode, seen + [ev]).fed)
  {
    hide Consume, Judge, Accounted, DigestOf, AnomaliesOf, Settle, PaceNotes;
    ConsumeOneMore(ctx.decode, seen, ev);
    if ev.payload.Data? {
      DataReadyAccounts(a, at, gap, ev, st);
      HandOverAccounts(ctx, DataReady(a, at, gap, ev), st, ev.payload.data);
    }
  }

  lemma {:induction false} FramesAnomalies(ctx: Ctx, a: Attempt, at: nat, gap: nat, evs: seq<SseEvent>,
                                           seen: seq<SseEvent>, st: StreamView)
    requires InStep(ctx, a, seen) && Accounted(a, st)
    ensures var b := OnFrames(ctx, a, at, gap, evs);
            b.end.Some? ==> AnomaliesIn(b.log) == AnomaliesOf(Consume(ctx.decode, seen + evs).fed)
    decreases |evs|
  {
    hide Consume, OnFrame, Accounted, DigestOf, AnomaliesOf;
    if evs != [] {
      var init, last := evs[..|evs| - 1], evs[|evs| - 1];
      var b := OnFrames(ctx, a, at, gap, init);
      assert (seen + init) + [last] == seen + evs;
      FramesInStep(ctx, a, at, gap, init, seen);
      FramesAnomalies(ctx, a, at, gap, init, seen, st);
      if b.end.None? {
        FramesAccounts(ctx, a, at, gap, init, st);
        FrameAnomalies(ctx, b, at, gap, last, seen + init, st);
      } else {
        ConsumeSticks(ctx.decode, seen + init, [last]);
      }
    }
  }

  ghost predicate Surfaced(ctx: Ctx, a: Attempt, seen: Bytes) {
    a.end.Some? && a.end.value.Finished? ==> AnomaliesIn(a.log) == AnomaliesOf(OutcomeOf(ctx.decode, seen).fed)
  }

  lemma {:induction false} ReadSurfaces(ctx: Ctx, a: Attempt, at: nat, bytes: Bytes, seen: Bytes, st: StreamView)
    requires Standing(ctx, a, seen, false) && a.end.None? && Accounted(a, st)
    ensures Surfaced(ctx, OnRead(ctx, a, at, bytes), seen + bytes)
  {
    hide Consume, Verdict, Split, EventsOf, OnFrames, Accounted, DigestOf, AnomaliesOf, Resolution;
    var c := Split(a.buf + bytes);
    if |c.rest| <= DEFAULT_BUF_LIMIT {
      var b := CountRead(a, at, |bytes|).(buf := c.rest);
      var frames := EventsOf(Split(seen).blocks);
      FramesGrow(seen, bytes);
      SplitInSteps(seen, bytes);
      CountReadAccounts(a, at, |bytes|, st, b);
      FramesInStep(ctx, b, at, Since(at, a.loc.lastReadAt), EventsOf(c.blocks), frames);
      FramesAnomalies(ctx, b, at, Since(at, a.loc.lastReadAt), EventsOf(c.blocks), frames, st);
    }
  }

  lemma {:induction false} StepSurfaces(ctx: Ctx, a0: Attempt, w: Wake, seen: Bytes, st: StreamView)
    requires Standing(ctx, a0, seen, false) && a0.end.None? && Accounted(a0, st)
    ensures Surfaced(ctx, Step(ctx, a0, w), seen + if w.arm.ReadArm? then w.arm.bytes else [])
  {
    hide Consume, Verdict, Split, EventsOf, OnRead, OnEof, Accounted, DigestOf, AnomaliesOf, Resolution, TailFed,
        Leftover;
    var a := a0.(loc := a0.loc.(polls := a0.loc.polls + 1));
    SameAccounts(a0, st, a);
    assert seen + [] == seen;
    if w.arm.ReadArm? {
      ReadSurfaces(ctx, a, w.at, w.arm.bytes, seen, st);
    } else if w.arm.EofArm? {
      EofAccounts(ctx, a, st);
      LeftoverFed(ctx, a);
    }
  }

  lemma {:induction false} RunSurfaces(ctx: Ctx, st: StreamView, wakes: seq<Wake>)
    requires st.fed == [] && EofIsLast(wakes)
    ensures Surfaced(ctx, AfterWakes(ctx, st, wakes), BytesOf(wakes))
    decreases |wakes|
  {
    hide Consume, Split, EventsOf, Step, BytesOf, Accounted, DigestOf, OutcomeOf;
    if wakes != [] {
      var init, w := wakes[..|wakes| - 1], wakes[|wakes| - 1];
      var a := AfterWakes(ctx, st, init);
      assert forall i | 0 <= i < |init| :: init[i] == wakes[i];
      RunSurfaces(ctx, st, init);
      RunStanding(ctx, st, init);
      BytesOneMore(wakes);
      assert !ClosedBy(init);
      if a.end.None? {
        AttemptAccounts(ctx, st, init);
        StepSurfaces(ctx, a, w, BytesOf(init), st);
      } else if a.end.value.Finished? {
        OutcomeSettled(ctx.decode, BytesOf(init), if w.arm.ReadArm? then w.arm.bytes else []);
      }
    }
  }

  /** The anomalies of what the machine was given are offered to the bus, all of them and in order, on the handler's
      exits; on every other exit none is. So none is lost exactly on a handler's exit or when there was none. */
  lemma {:induction false} AnomaliesSurfaceIff(ctx: Ctx, st: StreamView, wakes: seq<Wake>)
    requires st.fed == [] && EofIsLast(wakes) && AfterWakes(ctx, st, wakes).end.Some?
    ensures var met := Met(ctx, wakes);
            var found, offered := AnomaliesOf(Given(ctx.decode, met)), AnomaliesIn(AfterWakes(ctx, st, wakes).log);
            && offered == (if EndsByHandler(met) then found else [])
            && (offered == found <==> EndsByHandler(met) || found == [])
  {
    hide AfterWakes, BytesOf, OutcomeOf, DigestOf, AnomaliesOf, Given, EndsByHandler, AllMet;
    var met := Met(ctx, wakes);
    MetSuffices(ctx, st, wakes);
    SomeWake(ctx, st, wakes);
    RunSurfaces(ctx, st, met);
    AttemptAccounts(ctx, st, met);
    ExitKind(ctx, st, met);
    if EndsByHandler(met) { GivenIsOutcome(ctx, st, met); }
  }

  lemma SomeWake(ctx: Ctx, st: StreamView, wakes: seq<Wake>)
    requires AfterWakes(ctx, st, wakes).end.Some?
    ensures wakes != []
  {
  }

  // ---- content ----

  /** The stream's content counters, while the attempt runs. */
  ghost predicate Gained(a: Attempt, st: StreamView) {
    a.end.None? ==>
      && a.st.sawAnyContent == (st.sawAnyContent || HasText(a.st.fed))
      && a.st.contentBytes == st.contentBytes + TextBytes(a.st.fed)
  }

  lemma {:induction false} TextBytesJoin(a: seq<DriverEvent>, b: seq<DriverEvent>)
    ensures TextBytes(a + b) == TextBytes(a) + TextBytes(b)
    decreases |b|
  {
    if b == [] {
      assert a + b == a;
    } else {
      assert (a + b)[..|a + b| - 1] == a + b[..|b| - 1];
      TextBytesJoin(a, b[..|b| - 1]);
    }
  }

  lemma {:induction false} HasTextJoin(a: seq<DriverEvent>, b: seq<DriverEvent>)
    ensures HasText(a + b) <==> HasText(a) || HasText(b)
  {
    var s := a + b;
    if HasText(a) {
      var i :| 0 <= i < |a| && a[i].TextDelta?;
      assert s[i].TextDelta?;
    }
    if HasText(b) {
      var i :| 0 <= i < |b| && b[i].TextDelta?;
      assert s[|a| + i].TextDelta?;
    }
  }

  lemma {:induction false} FrameGains(ctx: Ctx, a: Attempt, at: nat, gap: nat, ev: SseEvent, st: StreamView)
    requires Gained(a, st) && a.end.None?
    ensures Gained(OnFrame(ctx, a, at, gap, ev), st)
  {
    hide Judge, TextBytes, HasText, PaceNotes, Verdict, AnomaliesOf;
    if ev.payload.Data? {
      match Judge(ctx.decode, ev.payload.data)
      case Accept(evs, _, _) =>
        TextBytesJoin(a.st.fed, evs);
        HasTextJoin(a.st.fed, evs);
      case Reject(_, _) =>
    }
  }

  lemma {:induction false} FramesGain(ctx: Ctx, a: Attempt, at: nat, gap: nat, evs: seq<SseEvent>, st: StreamView)
    requires Gained(a, st) && a.end.None?
    ensures Gained(OnFrames(ctx, a, at, gap, evs), st)
    decreases |evs|
  {
    hide OnFrame, Gained;
    if evs != [] {
      var b := OnFrames(ctx, a, at, gap, evs[..|evs| - 1]);
      FramesGain(ctx, a, at, gap, evs[..|evs| - 1], st);
      if b.end.None? { FrameGains(ctx, b, at, gap, evs[|evs| - 1], st); } else { EndedGains(b, st); }
    }
  }

  lemma EndedGains(a: Attempt, st: StreamView)
    requires a.end.Some?
    ensures Gained(a, st)
  {
  }

  lemma {:induction false} StepGains(ctx: Ctx, a0: Attempt, w: Wake, st: StreamView)
    requires Gained(a0, st) && a0.end.None?
    ensures Gained(Step(ctx, a0, w), st)
  {
    hide TextBytes, HasText, Split, EventsOf, OnFrames, Evaluate, OnEof, AnomaliesOf, Verdict;
    var a := a0.(loc := a0.loc.(polls := a0.loc.polls + 1));
    match w.arm
    case ReadArm(bytes) =>
      var c := Split(a.buf + bytes);
      if |c.rest| <= DEFAULT_BUF_LIMIT {
        FramesGain(ctx, CountRead(a, w.at, |bytes|).(buf := c.rest), w.at, Since(w.at, a.loc.lastReadAt),
            EventsOf(c.blocks), st);
      }
    case EofArm =>
      EofEnds(ctx, a);
    case _ =>
  }

  lemma {:induction false} RunGains(ctx: Ctx, st: StreamView, wakes: seq<Wake>)
    requires st.fed == []
    ensures Gained(AfterWakes(ctx, st, wakes), st)
    decreases |wakes|
  {
    hide Step, Gained;
    if wakes == [] {
      NothingGained(st);
    } else {
      var a := AfterWakes(ctx, st, wakes[..|wakes| - 1]);
      RunGains(ctx, st, wakes[..|wakes| - 1]);
      if a.end.None? { StepGains(ctx, a, wakes[|wakes| - 1], st); }
    }
  }

  lemma NothingGained(st: StreamView)
    requires st.fed == []
    ensures Gained(Begin(st), st)
  {
  }

  lemma {:induction false} EofRecord(ctx: Ctx, a: Attempt)
    ensures var saw := a.st.sawAnyContent || HasText(TailFed(ctx.decode, a.buf));
            StreamEnd(a.st.stream, a.st.attempt, if saw then PeerClosed else ClosedWithNoContent, 0)
                in OnEof(ctx, a).log
  {
    hide AnomaliesOf, Verdict, TailFed, HasText;
    LeftoverFed(ctx, a);
    LeftoverPlace(ctx, a);
    hide Leftover;
    var b := Leftover(ctx, a);
    var rec := EndRecord(b, if b.st.sawAnyContent then PeerClosed else ClosedWithNoContent);
    assert OnEof(ctx, a).log[|b.log|] == rec;
  }

  lemma LeftoverPlace(ctx: Ctx, a: Attempt)
    ensures var b := Leftover(ctx, a); b.buf == [] && b.st.stream == a.st.stream && b.st.attempt == a.st.attempt
  {
    hide BlockEvent, Judge;
  }

  // ---- text, whatever the exit ----

  /** The stream's flag says whether the turn had text before, or the frames `seen` gave some. */
  ghost predicate Heard(ctx: Ctx, a: Attempt, st: StreamView, seen: seq<SseEvent>) {
    a.st.sawAnyContent == (st.sawAnyContent || HasText(Consume(ctx.decode, seen).fed))
  }

  lemma {:induction false} FrameHeard(ctx: Ctx, a: Attempt, at: nat, gap: nat, ev: SseEvent, st: StreamView,
                                      seen: seq<SseEvent>)
    requires InStep(ctx, a, seen) && Heard(ctx, a, st, seen)
    ensures Heard(ctx, OnFrame(ctx, a, at, gap, ev), st, seen + [ev])
  {
    hide Consume, Judge, HasText, PaceNotes, Verdict, AnomaliesOf;
    ConsumeOneMore(ctx.decode, seen, ev);
    if ev.payload.Data? {
      match Judge(ctx.decode, ev.payload.data)
      case Accept(evs, _, _) => HasTextJoin(a.st.fed, evs);
      case Reject(_, _) =>
    }
  }

  lemma {:induction false} FramesHeard(ctx: Ctx, a: Attempt, at: nat, gap: nat, evs: seq<SseEvent>, st: StreamView,
                                       seen: seq<SseEvent>)
    requires InStep(ctx, a, seen) && Heard(ctx, a, st, seen)
    ensures Heard(ctx, OnFrames(ctx, a, at, gap, evs), st, seen + evs)
    decreases |evs|
  {
    hide Consume, OnFrame, HasText, Verdict;
    if evs == [] {
      assert seen + evs == seen;
    } else {
      var init, last := evs[..|evs| - 1], evs[|evs| - 1];
      var b := OnFrames(ctx, a, at, gap, init);
      assert (seen + init) + [last] == seen + evs;
      FramesHeard(ctx, a, at, gap, init, st, seen);
      FramesInStep(ctx, a, at, gap, init, seen);
      if b.end.None? {
        FrameHeard(ctx, b, at, gap, last, st, seen + init);
      } else {
        ConsumeSticks(ctx.decode, seen + init, [last]);
      }
    }
  }

  lemma {:induction false} ReadHeard(ctx: Ctx, a: Attempt, at: nat, bytes: Bytes, st: StreamView, chunks: seq<Bytes>)
    requires Reading(ctx, a, chunks) && Heard(ctx, a, st, PushAll(DEFAULT_BUF_LIMIT, [], chunks).events)
    ensures Heard(ctx, OnRead(ctx, a, at, bytes), st, PushAll(DEFAULT_BUF_LIMIT, [], chunks + [bytes]).events)
  {
    hide Consume, Split, EventsOf, OnFrames, PushAll, HasText;
    OneMorePush(chunks, bytes);
    var seen := PushAll(DEFAULT_BUF_LIMIT, [], chunks).events;
    var c := Split(a.buf + bytes);
    assert seen + [] == seen;
    if |c.rest| <= DEFAULT_BUF_LIMIT {
      FramesHeard(ctx, CountRead(a, at, |bytes|).(buf := c.rest), at, Since(at, a.loc.lastReadAt), EventsOf(c.blocks),
          st, seen);
    }
  }

  lemma EofKeepsFlag(ctx: Ctx, a: Attempt)
    ensures OnEof(ctx, a).st.sawAnyContent == Leftover(ctx, a).st.sawAnyContent
  {
    hide Leftover, AnomaliesOf, Verdict;
  }

  lemma {:induction false} LastHeard(ctx: Ctx, a: Attempt, st: StreamView, wakes: seq<Wake>)
    requires wakes != [] && Reading(ctx, a, ReadsOf(wakes[..|wakes| - 1])) && Gained(a, st)
    ensures Step(ctx, a, wakes[|wakes| - 1]).st.sawAnyContent == (st.sawAnyContent || HasText(Given(ctx.decode, wakes)))
  {
    hide PushAll, Consume, OnEof, Leftover, OnRead, TailFed, Verdict, HasText, TextBytes, AnomaliesOf;
    var w, init := wakes[|wakes| - 1], wakes[..|wakes| - 1];
    var b := a.(loc := a.loc.(polls := a.loc.polls + 1));
    var fed := Consume(ctx.decode, PushAll(DEFAULT_BUF_LIMIT, [], ReadsOf(wakes)).events).fed;
    assert fed + [] == fed;
    if w.arm.ReadArm? {
      ReadHeard(ctx, b, w.at, w.arm.bytes, st, ReadsOf(init));
    } else if w.arm.EofArm? {
      assert ReadsOf(wakes) == ReadsOf(init);
      LeftoverFed(ctx, b);
      EofKeepsFlag(ctx, b);
      HasTextJoin(a.st.fed, TailFed(ctx.decode, a.buf));
    } else {
      OtherStep(ctx, a, w);
      assert ReadsOf(wakes) == ReadsOf(init);
    }
  }

  /** After an attempt the stream's flag says whether it or the turn before it had any text. */
  lemma {:induction false} RunHeard(ctx: Ctx, st: StreamView, wakes: seq<Wake>)
    requires st.fed == [] && wakes != []
    ensures AfterWakes(ctx, st, wakes).st.sawAnyContent
        == (st.sawAnyContent || HasText(Given(ctx.decode, Met(ctx, wakes))))
  {
    hide Step, Given, HasText, PushAll, Gained;
    var met := Met(ctx, wakes);
    MetSuffices(ctx, st, wakes);
    var init := met[..|met| - 1];
    AttemptsAreIsolated(ctx, st, NewStream(0), init);
    RunReads(ctx, st, init);
    RunGains(ctx, st, init);
    LastHeard(ctx, AfterWakes(ctx, st, init), st, met);
  }

  /** The end of the attempt is recorded once, with this cause. */
  ghost predicate EndRecordedAs(log: Log, st: StreamView, cause: StreamEndCause, unconsumed: nat) {
    var end := StreamEnd(st.stream, st.attempt, cause, unconsumed);
    end in log && forall i | 0 <= i < |log| && log[i].StreamEnd? :: log[i] == end
  }

  lemma {:induction false} MarksOfTwo(log: Log, i: nat, j: nat)
    requires i < |log| && log[i].StreamEnd?
    ensures |DigestOf(log).marks| >= 1
    ensures i < j < |log| && log[j].StreamEnd? ==> |DigestOf(log).marks| >= 2
    decreases |log|
  {
    hide DigestOf;
    var init, last := log[..|log| - 1], log[|log| - 1];
    assert log == init + [last];
    DigestSnoc(init, last);
    if i < |init| { MarksOfTwo(init, i, j); }
  }

  lemma {:induction false} OneEnd(log: Log, st: StreamView, cause: StreamEndCause, unconsumed: nat)
    requires StreamEnd(st.stream, st.attempt, cause, unconsumed) in log && |DigestOf(log).marks| == 1
    ensures EndRecordedAs(log, st, cause, unconsumed)
  {
    hide DigestOf;
    var i: nat :| i < |log| && log[i] == StreamEnd(st.stream, st.attempt, cause, unconsumed);
    forall j: nat | j < |log| && log[j].StreamEnd? ensures i == j {
      if i < j { MarksOfTwo(log, i, j); } else if j < i { MarksOfTwo(log, j, i); }
    }
  }

  /** The close is met by a running attempt. */
  lemma {:induction false} LastWake(ctx: Ctx, st: StreamView, wakes: seq<Wake>)
    requires st.fed == [] && AllMet(ctx, wakes)
    ensures var a := AfterWakes(ctx, st, wakes[..|wakes| - 1]);
            a.end.None? && AfterWakes(ctx, st, wakes) == Step(ctx, a, wakes[|wakes| - 1])
  {
    hide Step;
    AttemptsAreIsolated(ctx, st, NewStream(0), wakes[..|wakes| - 1]);
  }

  lemma {:induction false} CloseEnds(ctx: Ctx, st: StreamView, wakes: seq<Wake>)
    requires st.fed == [] && AllMet(ctx, wakes) && ClosedBy(wakes)
    ensures AfterWakes(ctx, st, wakes).end.Some?
  {
    hide AfterWakes, OnEof;
    LastWake(ctx, st, wakes);
    var a := AfterWakes(ctx, st, wakes[..|wakes| - 1]);
    EofEnds(ctx, a.(loc := a.loc.(polls := a.loc.polls + 1)));
  }

  lemma {:induction false} CloseRecorded(ctx: Ctx, st: StreamView, wakes: seq<Wake>)
    requires st.fed == [] && AllMet(ctx, wakes) && ClosedBy(wakes)
    ensures var saw := st.sawAnyContent || HasText(Given(ctx.decode, wakes));
            StreamEnd(st.stream, st.attempt, if saw then PeerClosed else ClosedWithNoContent, 0)
                in AfterWakes(ctx, st, wakes).log
  {
    hide AfterWakes, PushAll, TailFed, OnEof, Consume, HasText, DigestOf, TextBytes, UpTo;
    var init := wakes[..|wakes| - 1];
    var a := AfterWakes(ctx, st, init);
    LastWake(ctx, st, wakes);
    RunReads(ctx, st, init);
    RunGains(ctx, st, init);
    AttemptAccounts(ctx, st, init);
    assert ReadsOf(wakes) == ReadsOf(init);
    EofRecord(ctx, a.(loc := a.loc.(polls := a.loc.polls + 1)));
    HasTextJoin(a.st.fed, TailFed(ctx.decode, a.buf));
  }

  /** When the peer closes a running attempt, the end is recorded as "closed with no content" exactly if neither this
      attempt nor the turn before it had any text. */
  lemma {:induction false} ClosedWithNoContentIff(ctx: Ctx, st: StreamView, wakes: seq<Wake>)
    requires st.fed == [] && AllMet(ctx, wakes) && ClosedBy(wakes)
    ensures var saw := st.sawAnyContent || HasText(Given(ctx.decode, wakes));
            EndRecordedAs(AfterWakes(ctx, st, wakes).log, st, if saw then PeerClosed else ClosedWithNoContent, 0)
  {
    hide AfterWakes, Given, HasText, DigestOf, EndRecordedAs, AllMet;
    AttemptAccounts(ctx, st, wakes);
    CloseRecorded(ctx, st, wakes);
    CloseEnds(ctx, st, wakes);
    var saw := st.sawAnyContent || HasText(Given(ctx.decode, wakes));
    OneEnd(AfterWakes(ctx, st, wakes).log, st, if saw then PeerClosed else ClosedWithNoContent, 0);
  }
}
