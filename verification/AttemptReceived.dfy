/** What an attempt's machine is given, however the attempt ends: a wire exit keeps no verdict, but it has read
    frames. */
module AttemptReceived {
  import opened Text
  import opened Framing
  import opened Sse
  import opened SseRuns
  import opened Vocabulary
  import opened Machine
  import opened Refinement
  import opened Handler
  import opened Throughput
  import opened AttemptSpec
  import opened AttemptOutcome
  import opened AttemptIsolation

  /** The wake-ups the loop meets: none after the one that ends it. */
  function Met(ctx: Ctx, wakes: seq<Wake>): seq<Wake> {
    if wakes == [] then []
    else if AfterWakes(ctx, NewStream(0), wakes[..|wakes| - 1]).end.Some? then Met(ctx, wakes[..|wakes| - 1])
    else wakes
  }

  /** All the wake-ups are met. */
  ghost predicate AllMet(ctx: Ctx, wakes: seq<Wake>) {
    wakes != [] && AfterWakes(ctx, NewStream(0), wakes[..|wakes| - 1]).end.None?
  }

  lemma {:induction false} MetSuffices(ctx: Ctx, st: StreamView, wakes: seq<Wake>)
    requires st.fed == []
    ensures AfterWakes(ctx, st, wakes) == AfterWakes(ctx, st, Met(ctx, wakes))
    ensures wakes != [] ==> AllMet(ctx, Met(ctx, wakes))
    ensures EofIsLast(wakes) ==> EofIsLast(Met(ctx, wakes))
    decreases |wakes|
  {
    hide Step, NewStream;
    if wakes != [] {
      var init := wakes[..|wakes| - 1];
      FreshStream();
      AttemptsAreIsolated(ctx, st, NewStream(0), init);
      MetSuffices(ctx, st, init);
    }
  }

  lemma FreshStream()
    ensures NewStream(0).fed == []
  {
  }

  /** The events of the frames it read, up to the first sentinel or refused frame, and of the recovered tail if the peer
      closed. */
  function Given(decode: Decoder, wakes: seq<Wake>): seq<DriverEvent> {
    var run := PushAll(DEFAULT_BUF_LIMIT, [], ReadsOf(wakes));
    Consume(decode, run.events).fed + if ClosedBy(wakes) then TailFed(decode, run.buf) else []
  }

  /** The last wake-up is one of the handler's exits: the peer's close, or a read that overflows nothing. */
  predicate EndsByHandler(wakes: seq<Wake>) {
    || ClosedBy(wakes)
    || (wakes != [] && wakes[|wakes| - 1].arm.ReadArm? && !PushAll(DEFAULT_BUF_LIMIT, [], ReadsOf(wakes)).overflowed)
  }

  /** A running attempt has read what the parser's run gives, and holds what it leaves. */
  ghost predicate Reading(ctx: Ctx, a: Attempt, chunks: seq<Bytes>) {
    var run := PushAll(DEFAULT_BUF_LIMIT, [], chunks);
    InStep(ctx, a, run.events) && a.buf == run.buf && !run.overflowed
  }

  lemma {:induction false} OneMorePush(chunks: seq<Bytes>, bytes: Bytes)
    requires !PushAll(DEFAULT_BUF_LIMIT, [], chunks).overflowed
    ensures var run, next := PushAll(DEFAULT_BUF_LIMIT, [], chunks), PushAll(DEFAULT_BUF_LIMIT, [], chunks + [bytes]);
            var c := Split(run.buf + bytes);
            && next.overflowed == (|c.rest| > DEFAULT_BUF_LIMIT) && next.buf == c.rest
            && next.events == run.events + if next.overflowed then [] else EventsOf(c.blocks)
  {
    hide Split, EventsOf;
    PushAllJoin(DEFAULT_BUF_LIMIT, [], chunks, [bytes]);
    assert [bytes][1..] == [];
    var c := Split(PushAll(DEFAULT_BUF_LIMIT, [], chunks).buf + bytes);
    assert EventsOf(c.blocks) + [] == EventsOf(c.blocks);
  }

  lemma {:induction false} ReadReading(ctx: Ctx, a: Attempt, at: nat, bytes: Bytes, chunks: seq<Bytes>)
    requires Reading(ctx, a, chunks)
    ensures var b, next := OnRead(ctx, a, at, bytes), PushAll(DEFAULT_BUF_LIMIT, [], chunks + [bytes]);
            && (b.end.None? ==> Reading(ctx, b, chunks + [bytes]))
            && (next.overflowed ==> b.end.Some? && b.end.value.OnWire? && b.st.fed == a.st.fed)
            && (!next.overflowed && b.end.Some? ==> StoppedBy(ctx, b, next.events))
  {
    hide Consume, Split, EventsOf, OnFrames, PushAll, Verdict;
    OneMorePush(chunks, bytes);
    var c := Split(a.buf + bytes);
    if |c.rest| <= DEFAULT_BUF_LIMIT {
      var b := CountRead(a, at, |bytes|).(buf := c.rest);
      var gap := Since(at, a.loc.lastReadAt);
      FramesInStep(ctx, b, at, gap, EventsOf(c.blocks), PushAll(DEFAULT_BUF_LIMIT, [], chunks).events);
      FramesKeepBuffer(ctx, b, at, gap, EventsOf(c.blocks));
    }
  }

  /** Wake-ups that neither read nor see the close leave what was read alone. */
  lemma {:induction false} OtherStep(ctx: Ctx, a: Attempt, w: Wake)
    requires a.end.None? && !w.arm.ReadArm? && !w.arm.EofArm?
    ensures var b := Step(ctx, a, w);
            && b.st.fed == a.st.fed && b.buf == a.buf && b.st.sawAnyContent == a.st.sawAnyContent
            && (b.end.Some? ==> b.end.value.OnWire?)
  {
    hide Evaluate;
  }

  lemma {:induction false} RunReads(ctx: Ctx, st: StreamView, wakes: seq<Wake>)
    requires st.fed == [] && AfterWakes(ctx, st, wakes).end.None?
    ensures Reading(ctx, AfterWakes(ctx, st, wakes), ReadsOf(wakes)) && !ClosedBy(wakes)
    decreases |wakes|
  {
    hide Step, PushAll, Consume, OnEof;
    if wakes == [] {
      NothingYet(ctx, st);
    } else {
      var init, w := wakes[..|wakes| - 1], wakes[|wakes| - 1];
      var a := AfterWakes(ctx, st, init);
      RunReads(ctx, st, init);
      StepReads(ctx, a, w, ReadsOf(init));
      assert ReadsOf(init) + [] == ReadsOf(init);
    }
  }

  lemma NothingYet(ctx: Ctx, st: StreamView)
    requires st.fed == []
    ensures Reading(ctx, Begin(st), [])
  {
  }

  lemma {:induction false} StepReads(ctx: Ctx, a: Attempt, w: Wake, chunks: seq<Bytes>)
    requires Reading(ctx, a, chunks) && Step(ctx, a, w).end.None?
    ensures !w.arm.EofArm? && Reading(ctx, Step(ctx, a, w), chunks + if w.arm.ReadArm? then [w.arm.bytes] else [])
  {
    hide PushAll, Consume, OnEof, OnRead;
    var b := a.(loc := a.loc.(polls := a.loc.polls + 1));
    assert chunks + [] == chunks;
    if w.arm.ReadArm? {
      ReadReading(ctx, b, w.at, w.arm.bytes, chunks);
    } else if w.arm.EofArm? {
      EofEnds(ctx, b);
    } else {
      OtherStep(ctx, a, w);
    }
  }

  /** Whether a wake-up is the handler's exit can be told from the bytes; and on a wire exit the machine still holds
      what it was given. */
  lemma {:induction false} LastStep(ctx: Ctx, a: Attempt, w: Wake, wakes: seq<Wake>)
    requires wakes != [] && w == wakes[|wakes| - 1] && Reading(ctx, a, ReadsOf(wakes[..|wakes| - 1]))
    requires Step(ctx, a, w).end.Some?
    ensures var b := Step(ctx, a, w);
            && (b.end.value.Finished? <==> EndsByHandler(wakes))
            && (b.end.value.OnWire? ==> b.st.fed == Given(ctx.decode, wakes))
  {
    hide PushAll, Consume, OnEof, OnRead, TailFed, Verdict;
    var init := wakes[..|wakes| - 1];
    var b := a.(loc := a.loc.(polls := a.loc.polls + 1));
    var run := PushAll(DEFAULT_BUF_LIMIT, [], ReadsOf(init));
    assert Consume(ctx.decode, run.events).fed + [] == a.st.fed;
    if w.arm.ReadArm? {
      ReadReading(ctx, b, w.at, w.arm.bytes, ReadsOf(init));
      OneMorePush(ReadsOf(init), w.arm.bytes);
      assert run.events + [] == run.events;
    } else if w.arm.EofArm? {
      EofEnds(ctx, b);
    } else {
      OtherStep(ctx, a, w);
      assert ReadsOf(wakes) == ReadsOf(init);
    }
  }

  lemma {:induction false} ExitKind(ctx: Ctx, st: StreamView, wakes: seq<Wake>)
    requires st.fed == [] && AllMet(ctx, wakes) && AfterWakes(ctx, st, wakes).end.Some?
    ensures var a := AfterWakes(ctx, st, wakes);
            && (a.end.value.Finished? <==> EndsByHandler(wakes))
            && (a.end.value.OnWire? ==> a.st.fed == Given(ctx.decode, wakes))
  {
    hide Step, PushAll, Given, EndsByHandler;
    var init := wakes[..|wakes| - 1];
    AttemptsAreIsolated(ctx, st, NewStream(0), init);
    RunReads(ctx, st, init);
    LastStep(ctx, AfterWakes(ctx, st, init), wakes[|wakes| - 1], wakes);
  }

  /** On the handler's exits the machine was given exactly the outcome's events. */
  lemma {:induction false} GivenIsOutcome(ctx: Ctx, st: StreamView, wakes: seq<Wake>)
    requires st.fed == [] && AllMet(ctx, wakes) && EofIsLast(wakes)
    requires AfterWakes(ctx, st, wakes).end.Some? && AfterWakes(ctx, st, wakes).end.value.Finished?
    ensures Given(ctx.decode, wakes) == OutcomeOf(ctx.decode, BytesOf(wakes)).fed
  {
    hide Step, PushAll, Consume, Split, EventsOf, TailFed, Verdict, Resolution;
    var init, w := wakes[..|wakes| - 1], wakes[|wakes| - 1];
    AttemptsAreIsolated(ctx, st, NewStream(0), init);
    RunReads(ctx, st, init);
    ExitKind(ctx, st, wakes);
    RunStanding(ctx, st, wakes);
    if ClosedBy(wakes) { assert ReadsOf(wakes) == ReadsOf(init); }
    ChunkingInvariance(DEFAULT_BUF_LIMIT, ReadsOf(wakes));
    var fed := Consume(ctx.decode, EventsOf(Split(BytesOf(wakes)).blocks)).fed;
    assert fed + [] == fed;
  }
}
