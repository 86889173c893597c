/** An attempt on texts that a sender has put into frames: what it comes to and which error it reports, read off the
    decoder alone. */
module AttemptTexts {
  import opened Text
  import opened Utf8
  import opened Framing
  import opened Sse
  import opened SseRuns
  import opened SseRoundTrip
  import opened Vocabulary
  import opened Machine
  import opened Refinement
  import opened Handler
  import opened AttemptSpec
  import opened AttemptTrace
  import opened AttemptOutcome
  import AttemptIsolation
  import AttemptEvidence
  import opened AttemptReceived
  import opened AttemptTranscript
  import opened Senses

  /** A frame for each text, and one more text whose frame is never terminated. */
  function Sending(ms: seq<Message>, last: Option<Message>): Bytes {
    Bytewise(RenderAll(FramesOf(ms))) + match last { case None => [] case Some(m) => Body(FrameOf(m)) }
  }

  predicate AllSendable(ms: seq<Message>, last: Option<Message>) {
    (forall i | 0 <= i < |ms| :: Sendable(ms[i])) && (last.Some? ==> Sendable(last.value))
  }

  function SenseOfLast(decode: Decoder, last: Option<Message>): Option<Sense> {
    match last { case None => None case Some(m) => Some(SenseOf(decode, EncodeAll(m.text))) }
  }

  lemma {:induction false} SendingSplits(ms: seq<Message>, last: Option<Message>)
    requires AllSendable(ms, last)
    ensures var c := Split(Sending(ms, last));
            && EventsOf(c.blocks) == DataEvents(ms)
            && TailEvents(c.rest) == match last { case None => []
                                                  case Some(m) => [SseEvent(Data(EncodeAll(m.text)), |c.rest|)] }
  {
    hide Split, Bytewise, RenderAll, EventsOf, DataEvents, Readable, Sendable, FramesOf, Meanings, Meaning, Body,
      FrameOf, BlockEvent, EncodeAll, WholeFrame;
    MessagesRead(ms);
    FramesRead(FramesOf(ms));
    match last
    case None => SplitIsTheOnlyCutting(Cutting(RenderAll(FramesOf(ms)), []));
    case Some(m) =>
      var f := FrameOf(m);
      MessageReads(m);
      BodyIsFree(f);
      FrameReads(f);
      BodyStarts(f);
      SplitIsTheOnlyCutting(Cutting(RenderAll(FramesOf(ms)), Body(f)));
  }

  lemma {:induction false} UpshotIs(decode: Decoder, ms: seq<Message>, last: Option<Message>, i: nat)
    requires AllSendable(ms, last) && FirstStop(SensesOf(decode, TextsOf(ms)), i)
    ensures Resolution(decode, Sending(ms, last))
         == Upshot(SensesOf(decode, TextsOf(ms)), i, SenseOfLast(decode, last))
  {
    hide Split, EventsOf, DataEvents, Consume, Sending, AllSendable, EncodeAll, SenseOf, Judge, TailEvents, ContentOf,
      FirstFinish, LastUsage, TextOf, FinishOf, UsageOf, SaidEvents, TextsOf;
    var ss := SensesOf(decode, TextsOf(ms));
    SendingSplits(ms, last);
    ConsumeTexts(decode, ms, i);
    var fed := Consume(decode, DataEvents(ms)).fed;
    assert ss[..i] + [] == ss[..i] && fed + [] == fed;
    if i == |ss| && last.Some? {
      JudgedBySense(decode, EncodeAll(last.value.text));
      var s := SenseOf(decode, EncodeAll(last.value.text));
      match s
      case Says(_, _, _, _) => SaidOneMore(fed, ss[..i], s);
      case Stop => DoneHoldsNothing(fed, ss[..i]);
      case Broken(_) =>
    }
  }

  // ---- the frames an attempt met ----

  function EventsIn(seen: seq<Seen>): (evs: seq<SseEvent>)
    ensures |evs| == |seen| && forall i | 0 <= i < |evs| :: evs[i] == seen[i].ev
  {
    seq(|seen|, i requires 0 <= i < |seen| => seen[i].ev)
  }

  lemma {:induction false} OverflowLasts(chunks: seq<Bytes>, bytes: Bytes)
    requires PushAll(DEFAULT_BUF_LIMIT, [], chunks).overflowed
    ensures PushAll(DEFAULT_BUF_LIMIT, [], chunks + [bytes]).overflowed
  {
    hide PushAll, Split;
    OverflowIff(DEFAULT_BUF_LIMIT, chunks);
    OverflowIff(DEFAULT_BUF_LIMIT, chunks + [bytes]);
    assert forall i | 0 < i <= |chunks| :: (chunks + [bytes])[..i] == chunks[..i];
  }

  lemma {:induction false} SeenEvents(wakes: seq<Wake>)
    requires !PushAll(DEFAULT_BUF_LIMIT, [], ReadsOf(wakes)).overflowed
    ensures EventsIn(SeenOf(wakes)) == PushAll(DEFAULT_BUF_LIMIT, [], ReadsOf(wakes)).events
    decreases |wakes|
  {
    hide PushAll, Split, EventsOf;
    if wakes == [] {
      NoReads();
    } else {
      var init, w := wakes[..|wakes| - 1], wakes[|wakes| - 1];
      if w.arm.ReadArm? {
        var before := ReadsOf(init);
        if PushAll(DEFAULT_BUF_LIMIT, [], before).overflowed { OverflowLasts(before, w.arm.bytes); }
        SeenEvents(init);
        OneMorePush(before, w.arm.bytes);
      } else {
        assert ReadsOf(wakes) == ReadsOf(init);
        SeenEvents(init);
      }
    }
  }

  lemma NoReads()
    ensures PushAll(DEFAULT_BUF_LIMIT, [], ReadsOf([])) == Run([], [], false)
  {
  }

  /** The wake-ups met are the first ones, all of them if the peer's close is met. */
  lemma {:induction false} MetBytes(ctx: Ctx, wakes: seq<Wake>) returns (more: Bytes)
    requires EofIsLast(wakes)
    ensures BytesOf(wakes) == BytesOf(Met(ctx, wakes)) + more
    ensures ClosedBy(Met(ctx, wakes)) ==> Met(ctx, wakes) == wakes
    ensures |Met(ctx, wakes)| <= |wakes|
    decreases |wakes|
  {
    hide BytesOf, AfterWakes;
    if wakes == [] || AfterWakes(ctx, NewStream(0), wakes[..|wakes| - 1]).end.None? {
      more := [];
      assert BytesOf(wakes) + [] == BytesOf(wakes);
    } else {
      var init, w := wakes[..|wakes| - 1], wakes[|wakes| - 1];
      assert forall i | 0 <= i < |init| :: init[i] == wakes[i];
      more := MetBytes(ctx, init);
      BytesOneMore(wakes);
      more := more + if w.arm.ReadArm? then w.arm.bytes else [];
    }
  }

  lemma {:induction false} FinishedReads(ctx: Ctx, st: StreamView, met: seq<Wake>)
    requires st.fed == [] && AllMet(ctx, met)
    requires AfterWakes(ctx, st, met).end.Some? && AfterWakes(ctx, st, met).end.value.Finished?
    ensures !PushAll(DEFAULT_BUF_LIMIT, [], ReadsOf(met)).overflowed
    ensures EventsIn(SeenOf(met)) == EventsOf(Split(BytesOf(met)).blocks)
    ensures PushAll(DEFAULT_BUF_LIMIT, [], ReadsOf(met)).buf == Split(BytesOf(met)).rest
  {
    hide Step, PushAll, Consume, Split, EventsOf, SeenOf;
    var init := met[..|met| - 1];
    AttemptIsolation.AttemptsAreIsolated(ctx, st, NewStream(0), init);
    RunReads(ctx, st, init);
    ExitKind(ctx, st, met);
    if ClosedBy(met) { assert ReadsOf(met) == ReadsOf(init); }
    SeenEvents(met);
    ChunkingInvariance(DEFAULT_BUF_LIMIT, ReadsOf(met));
  }

  // ---- the errors told ----

  function ErrorsIn(log: Log): Log {
    if log == [] then []
    else ErrorsIn(log[..|log| - 1]) + if log[|log| - 1].NormalizationError? then [log[|log| - 1]] else []
  }

  lemma {:induction false} ErrorsJoin(a: Log, b: Log)
    ensures ErrorsIn(a + b) == ErrorsIn(a) + ErrorsIn(b)
    decreases |b|
  {
    if b == [] {
      assert a + b == a;
    } else {
      assert (a + b)[..|a + b| - 1] == a + b[..|b| - 1];
      ErrorsJoin(a, b[..|b| - 1]);
    }
  }

  lemma {:induction false} ErrorsTold(log: Log)
    ensures ErrorsIn(Transcript(log)) == ErrorsIn(log)
    decreases |log|
  {
    if log != [] {
      var init, last := log[..|log| - 1], log[|log| - 1];
      ErrorsTold(init);
      assert log == init + [last];
      ErrorsJoin(init, [last]);
      ErrorsJoin(Transcript(init), if Tells(last) then [last] else []);
      assert [last][..0] == [];
    }
  }

  lemma {:induction false} NoErrors(log: Log)
    requires forall i | 0 <= i < |log| :: !log[i].NormalizationError?
    ensures ErrorsIn(log) == []
    decreases |log|
  {
    if log != [] { NoErrors(log[..|log| - 1]); }
  }

  /** The error record of text number `n`, if it is broken. */
  function ErrorOf(st: StreamView, n: nat, s: Sense): Log {
    if s.Broken? then [NormalizationError(st.stream, st.attempt, n, s.detail)] else []
  }

  lemma {:induction false} DataErrors(decode: Decoder, st: StreamView, n: nat, data: Bytes, before: Log)
    requires forall i | 0 <= i < |before| :: !before[i].NormalizationError?
    ensures ErrorsIn(before + ToldData(decode, st, n, data)) == ErrorOf(st, n, SenseOf(decode, data))
  {
    hide SenseOf, ErrorsIn;
    ErrorsJoin(before, ToldData(decode, st, n, data));
    NoErrors(before);
    match SenseOf(decode, data)
    case Broken(detail) => OneError(NormalizationError(st.stream, st.attempt, n, detail));
    case _ => NoErrors(ToldData(decode, st, n, data));
  }

  lemma {:induction false} OneError(rec: EmissionRecord)
    requires rec.NormalizationError?
    ensures ErrorsIn([rec]) == [rec]
  {
    assert [rec][..0] == [];
  }

  lemma {:induction false} FrameErrors(decode: Decoder, st: StreamView, before: seq<Seen>, s: Seen)
    requires s.ev.payload.Data?
    ensures ErrorsIn(ToldFrame(decode, st, before, s))
         == ErrorOf(st, |before| + 1, SenseOf(decode, s.ev.payload.data))
  {
    hide SenseOf, ErrorsIn, ToldData, SawData, FromRead;
    var n, bytes := |before| + 1, s.ev.rawByteLen;
    var head := [Installment(st.stream, st.attempt, n, FromRead(before), s.read, bytes, DataKind, s.ev.payload.data,
                   Complete)]
                + (if SawData(before) then [] else [Wire(st.stream, st.attempt, Ttft(Ms(s.at)))])
                + [Wire(st.stream, st.attempt, InterReadGap(Ms(s.gap), bytes))];
    DataErrors(decode, st, n, s.ev.payload.data, head);
  }

  /** The frames are data that say `ss`. */
  predicate Say(decode: Decoder, seen: seq<Seen>, ss: seq<Sense>) {
    |seen| == |ss|
    && forall i | 0 <= i < |ss| :: seen[i].ev.payload.Data? && SenseOf(decode, seen[i].ev.payload.data) == ss[i]
  }

  lemma {:induction false} FirstStopBefore(ss: seq<Sense>, i: nat) returns (k: nat)
    requires ss != [] && FirstStop(ss, i)
    ensures k == (if i == |ss| then |ss| - 1 else i) && FirstStop(ss[..|ss| - 1], k)
    ensures i == |ss| ==> ss[|ss| - 1].Says?
  {
    k := if i == |ss| then |ss| - 1 else i;
    assert forall j | 0 <= j < i :: ss[..i][j] == ss[j];
  }

  lemma {:induction false} FramesErrors(decode: Decoder, st: StreamView, seen: seq<Seen>, ss: seq<Sense>, i: nat)
    requires Say(decode, seen, ss) && FirstStop(ss, i)
    ensures Stopped(decode, seen) <==> i < |ss|
    ensures ErrorsIn(ToldFrames(decode, st, seen)) == if i < |ss| then ErrorOf(st, i + 1, ss[i]) else []
    decreases |ss|
  {
    hide SenseOf, ErrorsIn, ToldFrame, ErrorOf, ToldFrames, Stopped, FirstStop;
    if ss == [] {
      NothingStops(decode, st, i, ss);
    } else {
      var n := |ss| - 1;
      var before, s := seen[..n], seen[n];
      var k := FirstStopBefore(ss, i);
      FramesErrors(decode, st, before, ss[..n], k);
      assert seen == before + [s];
      StoppedOneMore(decode, before, s);
      ToldOneMore(decode, st, before, s);
      ErrorsJoin(ToldFrames(decode, st, before), ToldFrame(decode, st, before, s));
      FrameErrors(decode, st, before, s);
      NoErrorOf(st, |ss|, ss[n]);
      StopAtMost(ss, i);
      if i < n { assert ToldFrames(decode, st, before) + [] == ToldFrames(decode, st, before); }
    }
  }

  lemma StopAtMost(ss: seq<Sense>, i: nat)
    requires FirstStop(ss, i)
    ensures i <= |ss| && (i < |ss| ==> !ss[i].Says?)
  {
  }

  lemma NothingStops(decode: Decoder, st: StreamView, i: nat, ss: seq<Sense>)
    requires ss == [] && FirstStop(ss, i)
    ensures i == 0 && !Stopped(decode, []) && ErrorsIn(ToldFrames(decode, st, [])) == []
  {
  }

  lemma NoErrorOf(st: StreamView, n: nat, s: Sense)
    ensures !s.Broken? ==> ErrorOf(st, n, s) == []
  {
  }

  /** The errors that the stream's counter counts: all but refused choice lists. */
  function Counted(errors: Log): nat {
    if errors == [] then 0
    else
      var last := errors[|errors| - 1];
      Counted(errors[..|errors| - 1]) + if last.NormalizationError? && !last.error.ManyChoices? then 1 else 0
  }

  lemma {:induction false} CountedSnoc(errors: Log, rec: EmissionRecord)
    ensures Counted(errors + [rec]) ==
            Counted(errors) + if rec.NormalizationError? && !rec.error.ManyChoices? then 1 else 0
  {
    assert (errors + [rec])[..|errors|] == errors;
  }

  lemma {:induction false} CountedAre(log: Log)
    ensures DigestOf(log).errors == Counted(ErrorsIn(log))
    decreases |log|
  {
    hide DigestOf, Counted;
    if log == [] {
      NoDigest(log);
      NoneCounted();
    } else {
      var init, last := log[..|log| - 1], log[|log| - 1];
      CountedAre(init);
      assert log == init + [last];
      DigestSnoc(init, last);
      CountedSnoc(ErrorsIn(init), last);
      assert ErrorsIn(init) + [] == ErrorsIn(init);
    }
  }

  lemma NoneCounted()
    ensures Counted([]) == 0
  {
  }

  lemma {:induction false} DataEventAt(ms: seq<Message>, j: nat)
    requires j < |ms|
    ensures |DataEvents(ms)| == |ms| && DataEvents(ms)[j].payload == Data(EncodeAll(ms[j].text))
    decreases |ms|
  {
    hide EncodeAll, Body, FrameOf;
    var init := ms[..|ms| - 1];
    if init != [] { DataEventAt(init, if j < |init| then j else 0); }
  }

  lemma {:induction false} DataEventsPrefix(ms: seq<Message>, n: nat)
    requires n <= |ms|
    ensures |DataEvents(ms)| == |ms| && DataEvents(ms[..n]) == DataEvents(ms)[..n]
    decreases |ms|
  {
    hide EncodeAll, Body, FrameOf;
    if n == |ms| {
      assert ms[..n] == ms;
      if ms != [] { DataEventAt(ms, 0); }
      assert DataEvents(ms)[..n] == DataEvents(ms);
    } else {
      var init := ms[..|ms| - 1];
      DataEventsPrefix(init, n);
      assert init[..n] == ms[..n];
      DataEventAt(ms, 0);
    }
  }

  /** The frames met are those of the first texts, and of all of them if the peer's close is met. */
  lemma {:induction false} MetTexts(ctx: Ctx, st: StreamView, ms: seq<Message>, last: Option<Message>,
                                    wakes: seq<Wake>)
    requires st.fed == [] && AllSendable(ms, last) && EofIsLast(wakes) && BytesOf(wakes) == Sending(ms, last)
    requires AfterWakes(ctx, st, wakes).end.Some? && AfterWakes(ctx, st, wakes).end.value.Finished?
    ensures var met := Met(ctx, wakes); var seen := SeenOf(met);
            && |seen| <= |ms| && EventsIn(seen) == DataEvents(ms[..|seen|])
            && Say(ctx.decode, seen, SensesOf(ctx.decode, TextsOf(ms))[..|seen|])
            && (ClosedBy(met) ==> |seen| == |ms| && met == wakes)
  {
    hide BytesOf, AfterWakes, Split, EventsOf, DataEvents, Sending, SeenOf, EncodeAll, SenseOf, PushAll, AllSendable,
      TailEvents, ClosedBy;
    var met := Met(ctx, wakes);
    var seen := SeenOf(met);
    MetSuffices(ctx, st, wakes);
    AttemptEvidence.SomeWake(ctx, st, wakes);
    FinishedReads(ctx, st, met);
    var more := MetBytes(ctx, wakes);
    EventsGrow(BytesOf(met), more);
    SendingSplits(ms, last);
    assert EventsIn(seen) <= DataEvents(ms);
    DataEventsPrefix(ms, |ms|);
    DataEventsPrefix(ms, |seen|);
    var ss := SensesOf(ctx.decode, TextsOf(ms))[..|seen|];
    forall j | 0 <= j < |seen|
      ensures seen[j].ev.payload.Data? && SenseOf(ctx.decode, seen[j].ev.payload.data) == ss[j]
    {
      DataEventAt(ms, j);
      assert EventsIn(seen)[j] == DataEvents(ms)[j];
    }
  }

  /** An attempt that a handler's exit ends is stopped by the first frame that stops, or else the peer's close was
      met. */
  lemma {:induction false} WhereItEnds(ctx: Ctx, st: StreamView, ms: seq<Message>, last: Option<Message>,
                                       wakes: seq<Wake>, i: nat)
    requires st.fed == [] && AllSendable(ms, last) && EofIsLast(wakes) && BytesOf(wakes) == Sending(ms, last)
    requires AfterWakes(ctx, st, wakes).end.Some? && AfterWakes(ctx, st, wakes).end.value.Finished?
    requires FirstStop(SensesOf(ctx.decode, TextsOf(ms)), i)
    ensures ClosedBy(Met(ctx, wakes)) <==> i == |ms|
    ensures |SeenOf(Met(ctx, wakes))| <= |ms| && (i < |ms| ==> i < |SeenOf(Met(ctx, wakes))|)
  {
    hide BytesOf, Step, Split, EventsOf, DataEvents, Sending, SeenOf, EncodeAll, SenseOf, PushAll, AllSendable,
      TailEvents, Consume, Say, Stopped, ToldFrames, Transcript, Heeded;
    var met := Met(ctx, wakes);
    var seen := SeenOf(met);
    var ss := SensesOf(ctx.decode, TextsOf(ms));
    MetSuffices(ctx, st, wakes);
    AttemptEvidence.SomeWake(ctx, st, wakes);
    MetTexts(ctx, st, ms, last, wakes);
    FinishedReads(ctx, st, met);
    var n := |seen|;
    var k := if i < n then i else n;
    assert SensesOf(ctx.decode, TextsOf(ms[..n])) == ss[..n];
    assert FirstStop(ss[..n], k) by { FirstStopCut(ss, i, n); }
    FramesErrors(ctx.decode, st, seen, ss[..n], k);
    if ClosedBy(met) {
      var init := met[..|met| - 1];
      AttemptIsolation.AttemptsAreIsolated(ctx, st, NewStream(0), init);
      RunAbreast(ctx, st, init);
      SeenBeforeClose(met);
    } else {
      RunStanding(ctx, st, met);
      ConsumeTexts(ctx.decode, ms[..n], k);
    }
  }

  lemma SeenBeforeClose(met: seq<Wake>)
    requires ClosedBy(met)
    ensures SeenOf(met) == SeenOf(met[..|met| - 1])
  {
  }

  lemma {:induction false} FirstStopCut(ss: seq<Sense>, i: nat, n: nat)
    requires FirstStop(ss, i) && n <= |ss|
    ensures FirstStop(ss[..n], if i < n then i else n)
  {
    var k := if i < n then i else n;
    assert ss[..n][..k] == ss[..i][..k];
    assert forall j | 0 <= j < k :: ss[..i][j] == ss[j];
  }

  /** What the recovered tail adds. */
  lemma {:induction false} TailErrors(decode: Decoder, st: StreamView, seen: seq<Seen>, readCount: nat, rest: Bytes,
                                      last: Option<Message>)
    requires TailEvents(rest) == match last { case None => []
                                              case Some(m) => [SseEvent(Data(EncodeAll(m.text)), |rest|)] }
    ensures ErrorsIn(ToldTail(decode, st, seen, readCount, rest)) ==
            match SenseOfLast(decode, last) { case None => [] case Some(s) => ErrorOf(st, |seen| + 1, s) }
  {
    hide TailEvents, ErrorsIn, ToldData, SenseOf, EncodeAll, FromRead;
    match last
    case None => NoErrors(ToldTail(decode, st, seen, readCount, rest));
    case Some(m) =>
      var rec := Installment(st.stream, st.attempt, |seen| + 1, FromRead(seen), readCount, |rest|, DataKind,
                             EncodeAll(m.text), RecoveredTail);
      DataErrors(decode, st, |seen| + 1, EncodeAll(m.text), [rec]);
  }

  /** The error records of an attempt on the texts `ms` and the unterminated text `last`. */
  function ErrorsOn(decode: Decoder, st: StreamView, ss: seq<Sense>, i: nat, last: Option<Message>): Log
    requires i <= |ss|
  {
    if i < |ss| then ErrorOf(st, i + 1, ss[i])
    else match SenseOfLast(decode, last) { case None => [] case Some(s) => ErrorOf(st, |ss| + 1, s) }
  }

  lemma {:induction false} AttemptErrors(ctx: Ctx, st: StreamView, ms: seq<Message>, last: Option<Message>,
                                         wakes: seq<Wake>, i: nat)
    requires st.fed == [] && AllSendable(ms, last) && EofIsLast(wakes) && BytesOf(wakes) == Sending(ms, last)
    requires AfterWakes(ctx, st, wakes).end.Some? && AfterWakes(ctx, st, wakes).end.value.Finished?
    requires FirstStop(SensesOf(ctx.decode, TextsOf(ms)), i)
    ensures ErrorsIn(AfterWakes(ctx, st, wakes).log)
         == ErrorsOn(ctx.decode, st, SensesOf(ctx.decode, TextsOf(ms)), i, last)
  {
    hide BytesOf, AfterWakes, Split, EventsOf, DataEvents, Sending, SeenOf, EncodeAll, SenseOf, PushAll, AllSendable,
      TailEvents, Say, Stopped, ToldFrames, ToldTail, Transcript, ErrorsIn, ErrorOf, ClosedBy, FirstStop, SenseOfLast;
    var met := Met(ctx, wakes);
    var seen := SeenOf(met);
    var ss := SensesOf(ctx.decode, TextsOf(ms));
    var a := AfterWakes(ctx, st, wakes);
    AttemptTells(ctx, st, wakes);
    ErrorsTold(a.log);
    MetTexts(ctx, st, ms, last, wakes);
    WhereItEnds(ctx, st, ms, last, wakes, i);
    StopAtMost(ss, i);
    FirstStopCut(ss, i, |seen|);
    FramesErrors(ctx.decode, st, seen, ss[..|seen|], if i < |seen| then i else |seen|);
    var frames := ToldFrames(ctx.decode, st, seen);
    if ClosedBy(met) {
      MetSuffices(ctx, st, wakes);
      AttemptEvidence.SomeWake(ctx, st, wakes);
      FinishedReads(ctx, st, met);
      SendingSplits(ms, last);
      var rest := PushAll(DEFAULT_BUF_LIMIT, [], ReadsOf(met)).buf;
      TailErrors(ctx.decode, st, seen, |ReadsOf(met)|, rest, last);
      ErrorsJoin(frames, ToldTail(ctx.decode, st, seen, |ReadsOf(met)|, rest));
    } else {
      assert frames + [] == frames;
    }
  }

  /** Texts put into frames and read anyhow: if the attempt ends through the handler, it ends as the texts before the
      first one that stops it say. A broken text cuts it off at the characters said before, and is reported once, with
      its number and the decoder's own words; the counter leaves refused choice lists out. */
  lemma {:induction false} TextsDecide(ctx: Ctx, st: StreamView, ms: seq<Message>, last: Option<Message>,
                                       wakes: seq<Wake>, i: nat)
    requires st.fed == [] && AllSendable(ms, last) && EofIsLast(wakes) && BytesOf(wakes) == Sending(ms, last)
    requires AfterWakes(ctx, st, wakes).end.Some? && AfterWakes(ctx, st, wakes).end.value.Finished?
    requires FirstStop(SensesOf(ctx.decode, TextsOf(ms)), i)
    ensures var a, ss := AfterWakes(ctx, st, wakes), SensesOf(ctx.decode, TextsOf(ms));
            var errors := ErrorsOn(ctx.decode, st, ss, i, last);
            && a.end == Some(Finished(Upshot(ss, i, SenseOfLast(ctx.decode, last))))
            && ErrorsIn(a.log) == errors && a.st.normErrors == st.normErrors + Counted(errors)
  {
    hide AfterWakes, BytesOf, Sending, AllSendable, SensesOf, TextsOf, FirstStop, Upshot, ErrorsOn, ErrorsIn, Counted,
      DigestOf, EofIsLast, Resolution;
    AttemptRefinesSpec(ctx, st, wakes);
    UpshotIs(ctx.decode, ms, last, i);
    AttemptErrors(ctx, st, ms, last, wakes, i);
    AttemptAccounts(ctx, st, wakes);
    CountedAre(AfterWakes(ctx, st, wakes).log);
  }
}
