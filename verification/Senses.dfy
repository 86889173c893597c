/** What a text of the stream says, read straight off the decoder's answer, and what a list of texts amounts to. */
module Senses {
  import opened Text
  import opened Utf8
  import opened Trimming
  import opened Sse
  import opened SseRoundTrip
  import opened Vocabulary
  import opened Machine
  import opened Refinement
  import opened AttemptOutcome

  datatype Sense =
    | Stop
    | Broken(detail: Detail)
    | Says(text: Bytes, finish: Option<Bytes>, usage: Option<TokenUsage>, tools: bool)

  /** What a chunk with at most one choice says. */
  function Saying(choices: seq<Choice>, usage: Option<TokenUsage>): Sense
    requires |choices| <= 1
  {
    if choices == [] then Says([], None, usage, false)
    else Says(if choices[0].content.Some? then choices[0].content.value else [], choices[0].finishReason, usage,
              choices[0].toolCalls)
  }

  /** `[DONE]` stops; what cannot be decoded, carries an error or has several choices is broken; anything else says
      what it holds. */
  function SenseOf(decode: Decoder, data: Bytes): Sense {
    if IsSentinel(data) then Stop
    else
      match decode(data)
      case Malformed(why) => Broken(BadChunk(why))
      case Parsed(Chunk(_, _, Some(error))) => Broken(ServerError(error))
      case Parsed(Chunk(choices, usage, None)) =>
        if |choices| > 1 then Broken(ManyChoices(|choices|))
        else Saying(choices, usage)
  }

  /** The sentinel is `[DONE]` with white space around it. */
  lemma {:induction false} SentinelIff(text: seq<scalar>)
    ensures IsSentinel(EncodeAll(text))
       <==> exists a, b :: AllWhite(a) && AllWhite(b) && text == a + Codes("[DONE]") + b
  {
    hide Trim, White, AllWhite;
    AsciiEncoding(Codes("[DONE]"));
    assert Codes("[DONE]") == DONE_SENTINEL;
    BracketsAreBlack();
    TrimsToIff(text, Codes("[DONE]"));
  }

  lemma BracketsAreBlack()
    ensures Trimmed(Codes("[DONE]"))
  {
  }

  /** The events of what is said: text if there is any, then the finish, then the usage. */
  function SaidEvents(s: Sense): seq<DriverEvent>
    requires s.Says?
  {
    (if s.text != [] then [TextDelta(s.text)] else [])
    + (if s.finish.Some? then [Finish(s.finish.value)] else [])
    + (if s.usage.Some? then [UsageReport(s.usage.value)] else [])
  }

  lemma {:induction false} SayingEvents(choices: seq<Choice>, usage: Option<TokenUsage>)
    requires |choices| <= 1
    ensures ChoicesEvents(choices) + UsageEvents(usage) == SaidEvents(Saying(choices, usage))
    ensures Done !in SaidEvents(Saying(choices, usage))
    ensures ToolCalls(choices) == if Saying(choices, usage).tools then 1 else 0
  {
    FewChoices(choices);
    if choices != [] { assert choices[..0] == []; }
  }

  lemma {:induction false} JudgedBySense(decode: Decoder, data: Bytes)
    ensures Judge(decode, data) ==
            match SenseOf(decode, data)
            case Stop => Accept([Done], 0, true)
            case Broken(detail) => Reject(detail, !detail.ManyChoices?)
            case Says(t, f, u, tools) => Accept(SaidEvents(Says(t, f, u, tools)), if tools then 1 else 0, false)
  {
    hide IsSentinel, ChoicesEvents, ToolCalls, UsageEvents, SaidEvents;
    if !IsSentinel(data) && decode(data).Parsed? && |decode(data).chunk.choices| <= 1 {
      SayingEvents(decode(data).chunk.choices, decode(data).chunk.usage);
    }
  }

  // ---- a list of texts ----

  function SensesOf(decode: Decoder, texts: seq<Bytes>): (ss: seq<Sense>)
    ensures |ss| == |texts| && forall i | 0 <= i < |ss| :: ss[i] == SenseOf(decode, texts[i])
  {
    seq(|texts|, i requires 0 <= i < |texts| => SenseOf(decode, texts[i]))
  }

  predicate AllSay(ss: seq<Sense>) { forall i | 0 <= i < |ss| :: ss[i].Says? }

  function TextOf(ss: seq<Sense>): Bytes
    requires AllSay(ss)
  {
    if ss == [] then [] else TextOf(ss[..|ss| - 1]) + ss[|ss| - 1].text
  }

  /** The first finish reason said. */
  function FinishOf(ss: seq<Sense>): Option<Bytes>
    requires AllSay(ss)
  {
    if ss == [] then None
    else if FinishOf(ss[..|ss| - 1]).Some? then FinishOf(ss[..|ss| - 1])
    else ss[|ss| - 1].finish
  }

  /** The last usage said. */
  function UsageOf(ss: seq<Sense>): Option<TokenUsage>
    requires AllSay(ss)
  {
    if ss == [] then None
    else if ss[|ss| - 1].usage.Some? then ss[|ss| - 1].usage
    else UsageOf(ss[..|ss| - 1])
  }

  /** Text number `i` is the first that stops the reading; there is none if `i` is the number of texts. */
  predicate FirstStop(ss: seq<Sense>, i: nat) {
    i <= |ss| && AllSay(ss[..i]) && (i < |ss| ==> !ss[i].Says?)
  }

  /** What the texts come to, with what is said after the last frame end: cut off by a broken text, and otherwise whole
      if a finish was said. A broken tail changes nothing. */
  function Upshot(ss: seq<Sense>, i: nat, tail: Option<Sense>): TurnResolution
    requires FirstStop(ss, i)
  {
    var said := ss[..i] + if i == |ss| && tail.Some? && tail.value.Says? then [tail.value] else [];
    var chars := CharCount(TextOf(said));
    if i < |ss| && ss[i].Broken? then Faulted(Aborted(chars))
    else
      match FinishOf(said)
      case Some(reason) => Resolved(ChatOutcome(TextOf(said), reason, UsageOf(said)))
      case None => Faulted(if chars == 0 then EmptyStream else Truncated(chars))
  }

  function TextsOf(ms: seq<Message>): (texts: seq<Bytes>)
    ensures |texts| == |ms| && forall i | 0 <= i < |texts| :: texts[i] == EncodeAll(ms[i].text)
  {
    seq(|ms|, i requires 0 <= i < |ms| => EncodeAll(ms[i].text))
  }

  // ---- the events fed against what is said ----

  /** The events `fed` hold what `ss` say. */
  ghost predicate Holds(fed: seq<DriverEvent>, ss: seq<Sense>) {
    && AllSay(ss)
    && ContentOf(fed) == TextOf(ss) && FirstFinish(fed) == FinishOf(ss) && LastUsage(fed) == UsageOf(ss)
  }

  lemma {:induction false} TextFolds(evs: seq<DriverEvent>, text: Bytes)
    ensures var more := evs + if text != [] then [TextDelta(text)] else [];
            && ContentOf(more) == ContentOf(evs) + text && FirstFinish(more) == FirstFinish(evs)
            && LastUsage(more) == LastUsage(evs)
  {
    hide ContentOf, FirstFinish, LastUsage, AnomaliesOf;
    if text != [] {
      OneMore(evs, TextDelta(text));
    } else {
      assert evs + [] == evs && ContentOf(evs) + [] == ContentOf(evs);
    }
  }

  lemma {:induction false} FinishFolds(evs: seq<DriverEvent>, finish: Option<Bytes>)
    ensures var more := evs + if finish.Some? then [Finish(finish.value)] else [];
            && ContentOf(more) == ContentOf(evs) && LastUsage(more) == LastUsage(evs)
            && FirstFinish(more) == if FirstFinish(evs).Some? then FirstFinish(evs) else finish
  {
    hide ContentOf, FirstFinish, LastUsage, AnomaliesOf;
    if finish.Some? { OneMore(evs, Finish(finish.value)); } else { assert evs + [] == evs; }
  }

  lemma {:induction false} UsageFolds(evs: seq<DriverEvent>, usage: Option<TokenUsage>)
    ensures var more := evs + if usage.Some? then [UsageReport(usage.value)] else [];
            && ContentOf(more) == ContentOf(evs) && FirstFinish(more) == FirstFinish(evs)
            && LastUsage(more) == if usage.Some? then usage else LastUsage(evs)
  {
    hide ContentOf, FirstFinish, LastUsage, AnomaliesOf;
    if usage.Some? { OneMore(evs, UsageReport(usage.value)); } else { assert evs + [] == evs; }
  }

  lemma {:induction false} SaidOneMore(fed: seq<DriverEvent>, ss: seq<Sense>, s: Sense)
    requires Holds(fed, ss) && s.Says?
    ensures Holds(fed + SaidEvents(s), ss + [s])
  {
    hide ContentOf, FirstFinish, LastUsage;
    var text := fed + if s.text != [] then [TextDelta(s.text)] else [];
    var finish := text + if s.finish.Some? then [Finish(s.finish.value)] else [];
    var usage := finish + if s.usage.Some? then [UsageReport(s.usage.value)] else [];
    TextFolds(fed, s.text);
    FinishFolds(text, s.finish);
    UsageFolds(finish, s.usage);
    assert fed + SaidEvents(s) == usage;
    assert (ss + [s])[..|ss|] == ss;
  }

  function StopOf(ss: seq<Sense>, i: nat): AttemptOutcome.Stop
    requires i <= |ss|
  {
    if i == |ss| then Going else if ss[i].Broken? then AtRejection else AtSentinel
  }

  lemma {:induction false} DoneHoldsNothing(fed: seq<DriverEvent>, ss: seq<Sense>)
    requires Holds(fed, ss)
    ensures Holds(fed + [Done], ss)
  {
    hide ContentOf, FirstFinish, LastUsage, TextOf, FinishOf, UsageOf, AnomaliesOf;
    OneMore(fed, Done);
  }

  lemma {:induction false} OneMoreSense(decode: Decoder, c: Consumed, ev: SseEvent, before: seq<Sense>, s: Sense)
    requires ev.payload.Data? && s == SenseOf(decode, ev.payload.data) && c.stop == Going && Holds(c.fed, before)
    ensures var next := ConsumeOne(decode, c, ev);
            && next.stop == (match s { case Stop => AtSentinel case Broken(_) => AtRejection case _ => Going })
            && Holds(next.fed, if s.Says? then before + [s] else before)
  {
    hide Judge, SenseOf, Holds, SaidEvents;
    JudgedBySense(decode, ev.payload.data);
    match s
    case Stop => DoneHoldsNothing(c.fed, before);
    case Broken(_) =>
    case Says(_, _, _, _) => SaidOneMore(c.fed, before, s);
  }

  /** Reading the texts in order stops at number `i`, and what was fed before is what was said before. */
  lemma {:induction false} ConsumeTexts(decode: Decoder, ms: seq<Message>, i: nat)
    requires FirstStop(SensesOf(decode, TextsOf(ms)), i)
    ensures var ss, c := SensesOf(decode, TextsOf(ms)), Consume(decode, DataEvents(ms));
            c.stop == StopOf(ss, i) && Holds(c.fed, ss[..i])
    decreases |ms|
  {
    hide Holds, SenseOf, ConsumeOne, Body, FrameOf, EncodeAll;
    var ss := SensesOf(decode, TextsOf(ms));
    if ms == [] {
      NothingHolds();
    } else {
      var init, m := ms[..|ms| - 1], ms[|ms| - 1];
      var before := SensesOf(decode, TextsOf(init));
      assert before == ss[..|init|];
      var k := if i == |ms| then |init| else i;
      assert before[..k] == ss[..k];
      assert AllSay(before[..k]) by { assert forall j | 0 <= j < k :: ss[..i][j] == ss[j]; }
      ConsumeTexts(decode, init, k);
      var ev := SseEvent(Data(EncodeAll(m.text)), |Body(FrameOf(m))|);
      ConsumeOneMore(decode, DataEvents(init), ev);
      if i >= |init| {
        OneMoreSense(decode, Consume(decode, DataEvents(init)), ev, ss[..|init|], ss[|init|]);
        assert ss[..|init|] + [ss[|init|]] == ss;
        assert i == |ms| ==> ss[..i] == ss && ss[..i][|init|].Says?;
      } else {
        Sticks(decode, Consume(decode, DataEvents(init)), ev);
      }
    }
  }

  lemma Sticks(decode: Decoder, c: Consumed, ev: SseEvent)
    requires c.stop != Going
    ensures ConsumeOne(decode, c, ev) == c
  {
  }

  lemma NothingHolds()
    ensures Holds([], [])
  {
  }
}
