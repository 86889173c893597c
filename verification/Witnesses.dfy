/** Inputs at which the documentation promises more than the code does. One endpoint's dialect is enough: "t" brings
    text, "f" a finish reason, and "2" two choices. */
module Witnesses {
  import opened Text
  import opened Utf8
  import opened Framing
  import opened Sse
  import opened SseRuns
  import opened SseRoundTrip
  import opened Vocabulary
  import opened Machine
  import opened Refinement
  import opened Handler
  import opened AttemptSpec
  import opened AttemptOutcome
  import opened AttemptEvidence
  import opened AttemptReceived
  import opened TurnSpec
  import opened TurnFacts
  import opened TurnEvidence

  const T: Bytes := [0x74]
  const F: Bytes := [0x66]
  const TWO: Bytes := [0x32]

  function Dialect(data: Bytes): Decoded {
    if data == T then Parsed(Chunk([Choice(Some(T), false, None)], None, None))
    else if data == F then Parsed(Chunk([Choice(None, false, Some(F))], None, None))
    else if data == TWO then Parsed(Chunk([Choice(Some(T), false, None), Choice(Some(T), false, None)], None, None))
    else Malformed(data)
  }

  /** One frame for each text. */
  function Wire(texts: seq<Bytes>): Bytes { Bytewise(RenderAll(FramesOf(Messages(texts)))) }

  function Messages(texts: seq<Bytes>): seq<Message>
  {
    seq(|texts|, i requires 0 <= i < |texts| => SseRoundTrip.Message(texts[i], Lf))
  }

  function OneFrame(text: Bytes): Bytes { Body(FrameOf(SseRoundTrip.Message(text, Lf))) }

  predicate Letter(text: Bytes) { text == T || text == F || text == TWO }

  predicate Letters(texts: seq<Bytes>) {
    forall i | 0 <= i < |texts| :: Letter(texts[i])
  }

  /** What one read of these frames gives. */
  lemma {:induction false} ReadAtOnce(texts: seq<Bytes>)
    requires Letters(texts)
    ensures PushAll(DEFAULT_BUF_LIMIT, [], [Wire(texts)]) == Run(DataEvents(Messages(texts)), [], false)
  {
    hide Split, EventsOf, DataEvents, PushAll;
    var ms := Messages(texts);
    WireSplits(texts);
    assert [] + Wire(texts) == Wire(texts);
    NothingPushed();
    OneMorePush([], Wire(texts));
    assert [] + [Wire(texts)] == [Wire(texts)];
    assert [] + DataEvents(ms) == DataEvents(ms);
  }

  lemma {:induction false} WireSplits(texts: seq<Bytes>)
    requires Letters(texts)
    ensures Split(Wire(texts)).rest == [] && EventsOf(Split(Wire(texts)).blocks) == DataEvents(Messages(texts))
  {
    hide Split, Bytewise, RenderAll, EventsOf, DataEvents, FramesOf, Meanings, Readable;
    var ms := Messages(texts);
    forall i | 0 <= i < |ms| ensures Sendable(ms[i]) { }
    MessagesRead(ms);
    FramesRead(FramesOf(ms));
    SplitIsTheOnlyCutting(Cutting(RenderAll(FramesOf(ms)), []));
    assert Wire(texts) + [] == Wire(texts);
  }

  lemma NothingPushed()
    ensures PushAll(DEFAULT_BUF_LIMIT, [], []) == Run([], [], false)
  {
  }

  lemma {:induction false} Judged()
    ensures Judge(Dialect, T) == Accept([TextDelta(T)], 0, false)
    ensures Judge(Dialect, F) == Accept([Finish(F)], 0, false)
    ensures Judge(Dialect, TWO) == Reject(ManyChoices(2), false)
  {
    hide IsSentinel, ChoicesEvents, ToolCalls;
    NoSentinel();
    OneChoice(Choice(Some(T), false, None));
    OneChoice(Choice(None, false, Some(F)));
  }

  lemma {:induction false} NoSentinel()
    ensures !IsSentinel(T) && !IsSentinel(F) && !IsSentinel(TWO)
  {
  }

  lemma {:induction false} OneChoice(c: Choice)
    ensures ChoicesEvents([c]) == ChoiceEvents(c) && ToolCalls([c]) == if c.toolCalls then 1 else 0
  {
    assert [c][..0] == [];
  }

  function OneEvent(text: Bytes): SseEvent { SseEvent(Data(text), |OneFrame(text)|) }

  lemma {:induction false} OneMoreText(texts: seq<Bytes>, text: Bytes)
    requires Letter(text)
    ensures DataEvents(Messages(texts + [text])) == DataEvents(Messages(texts)) + [OneEvent(text)]
  {
    hide Body, FrameOf, EncodeAll;
    AsciiEncoding(text);
    var ms := Messages(texts + [text]);
    assert ms[..|ms| - 1] == Messages(texts);
  }

  lemma {:induction false} EventsOfTexts(texts: seq<Bytes>, text: Bytes)
    requires Letter(text)
    ensures Consume(Dialect, DataEvents(Messages(texts + [text])))
         == ConsumeOne(Dialect, Consume(Dialect, DataEvents(Messages(texts))), OneEvent(text))
  {
    hide Consume, ConsumeOne, OneEvent, DataEvents;
    OneMoreText(texts, text);
    ConsumeOneMore(Dialect, DataEvents(Messages(texts)), OneEvent(text));
  }

  lemma {:induction false} OneText(text: Bytes)
    requires Letter(text)
    ensures Consume(Dialect, DataEvents(Messages([text])))
         == ConsumeOne(Dialect, Consumed([], Going), OneEvent(text))
  {
    hide Judge, OneFrame;
    EventsOfTexts([], text);
    assert [] + [text] == [text];
  }

  /** Frames that stop nothing, in one read, and then the connection breaks. */
  function ReadThenBreak(texts: seq<Bytes>): seq<Wake> {
    [Wake(0, ReadArm(Wire(texts))), Wake(0, ErrorArm(BROKEN))]
  }

  // "eof"
  const BROKEN: Bytes := [0x65, 0x6F, 0x66]

  lemma {:induction false} BrokenAttempt(cfg: Config, st: StreamView, texts: seq<Bytes>)
    requires Letters(texts) && st.fed == [] && Consume(Dialect, DataEvents(Messages(texts))).stop == Going
    ensures var ctx, wakes := Ctx(cfg, Dialect), ReadThenBreak(texts);
            && AfterWakes(ctx, st, wakes).end == Some(OnWire(TransportError(BROKEN)))
            && AllMet(ctx, wakes) && Met(ctx, wakes) == wakes
            && Given(Dialect, wakes) == Consume(Dialect, DataEvents(Messages(texts))).fed
  {
    hide PushAll, Consume, DataEvents, OnRead, Wire;
    var ctx, wakes := Ctx(cfg, Dialect), ReadThenBreak(texts);
    ReadOnly(cfg, st, texts);
    FreshStream();
    ReadOnly(cfg, NewStream(0), texts);
    assert wakes[..1] == [wakes[0]];
    assert ReadsOf(wakes) == ReadsOf(wakes[..1]) + [] == [Wire(texts)];
    ReadAtOnce(texts);
    var fed := Consume(Dialect, DataEvents(Messages(texts))).fed;
    assert fed + [] == fed;
  }

  lemma {:induction false} ReadOnly(cfg: Config, st: StreamView, texts: seq<Bytes>)
    requires Letters(texts) && st.fed == [] && Consume(Dialect, DataEvents(Messages(texts))).stop == Going
    ensures AfterWakes(Ctx(cfg, Dialect), st, [Wake(0, ReadArm(Wire(texts)))]).end.None?
    ensures ReadsOf([Wake(0, ReadArm(Wire(texts)))]) == [Wire(texts)]
  {
    hide PushAll, Consume, DataEvents, OnRead, Wire;
    var ctx, w := Ctx(cfg, Dialect), Wake(0, ReadArm(Wire(texts)));
    assert [w][..0] == [];
    NothingYet(ctx, st);
    var b := Begin(st).(loc := FRESH_LOCALS.(polls := 1));
    ReadReading(ctx, b, 0, Wire(texts), []);
    ReadAtOnce(texts);
    assert [] + [Wire(texts)] == [Wire(texts)];
  }

  lemma {:induction false} FinishThenText()
    ensures Consume(Dialect, DataEvents(Messages([F, T]))) == Consumed([Finish(F), TextDelta(T)], Going)
  {
    hide Consume, DataEvents, Messages, Judge, OneFrame;
    Judged();
    OneText(F);
    EventsOfTexts([F], T);
    assert [F] + [T] == [F, T];
    assert [] + [Finish(F)] == [Finish(F)] && [Finish(F)] + [TextDelta(T)] == [Finish(F), TextDelta(T)];
  }

  lemma {:induction false} TextAlone()
    ensures Consume(Dialect, DataEvents(Messages([T]))) == Consumed([TextDelta(T)], Going)
  {
    hide Consume, DataEvents, Messages, Judge, OneFrame;
    Judged();
    OneText(T);
    assert [] + [TextDelta(T)] == [TextDelta(T)];
  }

  /** Text after the finish, then a break: the machine holds an anomaly, and no record shows it. */
  lemma {:induction false} LostAnomaly(cfg: Config, stream: StreamId)
    ensures var ctx, wakes := Ctx(cfg, Dialect), ReadThenBreak([F, T]);
            var a := AfterWakes(ctx, NewStream(stream), wakes);
            && a.end == Some(OnWire(TransportError(BROKEN)))
            && Given(Dialect, wakes) == [Finish(F), TextDelta(T)]
            && AnomaliesOf(Given(Dialect, wakes)) == [LateText] && AnomaliesIn(a.log) == []
  {
    hide PushAll, AfterWakes, Consume, DataEvents, Messages, AnomaliesOf, Given, Wire, Met;
    var ctx, wakes := Ctx(cfg, Dialect), ReadThenBreak([F, T]);
    FinishThenText();
    BrokenAttempt(cfg, NewStream(stream), [F, T]);
    AnomaliesSurfaceIff(ctx, NewStream(stream), wakes);
    Late();
  }

  lemma {:induction false} Late()
    ensures AnomaliesOf([Finish(F), TextDelta(T)]) == [LateText]
  {
    var evs := [Finish(F), TextDelta(T)];
    assert evs[..1] == [Finish(F)] && [Finish(F)][..0] == [];
    assert FirstFinish([Finish(F)]) == Some(F) && AnomaliesOf([Finish(F)]) == [];
  }

  // ---- an earlier attempt's text hides an empty close ----

  const BREAKS_OFF := World(1, 0, Streaming, 0, 0, ReadThenBreak([T]))

  const HANGS_UP := World(1, 0, Streaming, 0, 0, [Wake(0, EofArm)])

  lemma {:induction false} HangUp(ctx: Ctx, st: StreamView)
    requires st.fed == []
    ensures AllMet(ctx, HANGS_UP.wakes) && Given(ctx.decode, HANGS_UP.wakes) == []
    ensures AttemptRun(ctx, st, HANGS_UP).end == Some(Finished(Faulted(EmptyStream)))
  {
    assert HANGS_UP.wakes[..0] == [];
    assert ReadsOf([]) + [] == [];
    assert ReadsOf(HANGS_UP.wakes) == [];
    NothingPushed();
    hide OnEof;
    assert AfterWakes(ctx, st, HANGS_UP.wakes) == Step(ctx, AfterWakes(ctx, st, HANGS_UP.wakes[..0]),
        HANGS_UP.wakes[0]);
    EmptyClose(ctx, Begin(st).(loc := FRESH_LOCALS.(polls := 1)));
  }

  lemma EmptyClose(ctx: Ctx, a: Attempt)
    requires a.buf == [] && a.st.fed == []
    ensures OnEof(ctx, a).end == Some(Finished(Faulted(EmptyStream)))
  {
  }

  lemma {:induction false} BreaksOffOnce(cfg: Config, s: Strategy, stream: StreamId)
    requires s.allowance >= 1
    ensures var ctx := Ctx(cfg, Dialect);
            && AfterWorlds(ctx, s, stream, [BREAKS_OFF]).verdict.None?
            && Given(Dialect, BREAKS_OFF.wakes) == [TextDelta(T)] && Met(ctx, BREAKS_OFF.wakes) == BREAKS_OFF.wakes
  {
    hide AfterWakes, Given, Met, Consume, DataEvents, Messages, Wire, AttemptTime;
    var ctx := Ctx(cfg, Dialect);
    TextAlone();
    BrokenAttempt(cfg, NextAttempt(NewStream(stream)), [T]);
    assert [BREAKS_OFF][..0] == [];
    assert AfterWorlds(ctx, s, stream, [BREAKS_OFF][..0]) == BeginTurn(s, stream);
  }

  /** The first attempt brings text and breaks off; the second closes with nothing at all, and its end says "peer
      closed". */
  lemma {:induction false} HiddenEmptyClose(cfg: Config, s: Strategy, stream: StreamId)
    requires s.allowance >= 1
    ensures var ctx := Ctx(cfg, Dialect); var st := NextStream(ctx, s, stream, [BREAKS_OFF]);
            && AfterWorlds(ctx, s, stream, [BREAKS_OFF]).verdict.None?
            && Received(ctx, HANGS_UP) == [] && AttemptRun(ctx, st, HANGS_UP).end
               == Some(Finished(Faulted(EmptyStream)))
            && EndRecordedAs(AttemptRun(ctx, st, HANGS_UP).log, st, PeerClosed, 0)
  {
    hide AfterWakes, AfterWorlds, Given, Met, EndRecordedAs, AttemptRun, Wire;
    var ctx := Ctx(cfg, Dialect);
    var st := NextStream(ctx, s, stream, [BREAKS_OFF]);
    BreaksOffOnce(cfg, s, stream);
    HangUp(ctx, st);
    MetAll(ctx, HANGS_UP.wakes);
    EmptyCloseIff(ctx, s, stream, [BREAKS_OFF], HANGS_UP);
    assert HasText(Received(ctx, BREAKS_OFF)) by { assert Received(ctx, BREAKS_OFF)[0].TextDelta?; }
    assert ([BREAKS_OFF] + [HANGS_UP])[0] == BREAKS_OFF;
  }

  // ---- a refusal the trailer does not count ----

  const OFFERS_TWO := World(1, 0, Streaming, 0, 0, [Wake(0, ReadArm(Wire([TWO]))), Wake(0, EofArm)])

  const ONE_TRY := Strategy(0, false)

  /** The frame with two choices, as the handler takes it. */
  lemma {:induction false} RefusedFrame(cfg: Config, a: Attempt, ev: SseEvent, at: nat, gap: nat)
    requires ev.payload == Data(TWO) && a.end.None? && a.st.fed == []
    ensures var b := OnFrame(Ctx(cfg, Dialect), a, at, gap, ev);
            && b.end == Some(Finished(Faulted(Aborted(0)))) && b.st.normErrors == a.st.normErrors
            && NormalizationError(a.st.stream, a.st.attempt, a.loc.instSeq + 1, ManyChoices(2)) in b.log
  {
    hide Judge, AnomaliesOf;
    Judged();
  }

  lemma {:induction false} WireOfTwo()
    ensures Split([] + Wire([TWO])).rest == [] && EventsOf(Split([] + Wire([TWO])).blocks) == [OneEvent(TWO)]
  {
    hide Split, EventsOf, Wire, OneEvent, DataEvents;
    WireSplits([TWO]);
    assert [] + Wire([TWO]) == Wire([TWO]);
    OneMoreText([], TWO);
    assert [] + [TWO] == [TWO];
    NoEvents();
  }

  lemma NoEvents()
    ensures DataEvents(Messages([])) + [OneEvent(TWO)] == [OneEvent(TWO)]
  {
  }

  lemma {:induction false} RefusedRead(cfg: Config, st: StreamView)
    requires st.fed == []
    ensures var a := AttemptRun(Ctx(cfg, Dialect), st, OFFERS_TWO);
            && a.end == Some(Finished(Faulted(Aborted(0)))) && a.st.normErrors == st.normErrors
            && NormalizationError(st.stream, st.attempt, 1, ManyChoices(2)) in a.log
  {
    hide Split, EventsOf, Wire, OnFrame, OneFrame;
    var ctx, bytes := Ctx(cfg, Dialect), Wire([TWO]);
    var wakes := OFFERS_TWO.wakes;
    assert wakes[..1] == [wakes[0]] && [wakes[0]][..0] == [];
    WireOfTwo();
    var ev := OneEvent(TWO);
    var b := CountRead(Begin(st).(loc := FRESH_LOCALS.(polls := 1)), 0, |bytes|).(buf := []);
    RefusedFrame(cfg, b, ev, 0, 0);
    assert OnFrames(ctx, b, 0, 0, [ev]) == OnFrame(ctx, b, 0, 0, ev) by { assert [ev][..0] == []; }
    assert AfterWakes(ctx, st, wakes[..1]) == Step(ctx, AfterWakes(ctx, st, wakes[..1][..0]), wakes[0]);
    assert AfterWakes(ctx, st, wakes[..1]) == OnFrame(ctx, b, 0, 0, ev);
  }

  /** One attempt, refused for two choices: an error record is offered, and the trailer says there was none. */
  lemma {:induction false} UncountedRefusal(cfg: Config, stream: StreamId)
    ensures EnoughWorlds(ONE_TRY, [OFFERS_TWO])
    ensures var t := AfterWorlds(Ctx(cfg, Dialect), ONE_TRY, stream, [OFFERS_TWO]);
            && t.verdict == Some(Failed(Aborted(0))) && Trailer(t, t.verdict.value).normErrors == 0
            && NormalizationError(stream, 1, 1, ManyChoices(2)) in t.log
  {
    hide AttemptRun, AttemptTime, Wire;
    RefusedRead(cfg, NextAttempt(NewStream(stream)));
    assert [OFFERS_TWO][..0] == [];
  }

  // ---- a frame lost with what follows it ----

  const FLOOD: Bytes := seq(DEFAULT_BUF_LIMIT + 1, _ => 0x61)

  /** One frame and one byte more than the limit: read apart, the frame gives its event; in one read, nothing is left
      of it. */
  lemma {:induction false} LostFrame()
    ensures PushAll(DEFAULT_BUF_LIMIT, [], [Wire([T]), FLOOD]).events == DataEvents(Messages([T]))
    ensures |DataEvents(Messages([T]))| == 1 && DataEvents(Messages([T]))[0].payload == Data(T)
    ensures PushAll(DEFAULT_BUF_LIMIT, [], [Wire([T]) + FLOOD]) == Run([], FLOOD, true)
  {
    hide Split, EventsOf, PushAll, OneFrame;
    WireSplits([T]);
    FramesLostWithTheRest(DEFAULT_BUF_LIMIT, Wire([T]), FLOOD);
    SplitInSteps(Wire([T]), FLOOD);
    assert [] + FLOOD == FLOOD && [] + (Wire([T]) + FLOOD) == Wire([T]) + FLOOD;
    SplitFree(FLOOD);
    NothingPushed();
    OneMorePush([], Wire([T]) + FLOOD);
    assert [] + [Wire([T]) + FLOOD] == [Wire([T]) + FLOOD];
    OneMoreText([], T);
    assert [] + [T] == [T];
  }
}
