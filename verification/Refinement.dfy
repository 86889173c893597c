/** What one `data` installment means (`normalize` and the judgement part of `on_installment`,
    chat2/src/event_handler.rs:37-108 and 225-262), around an arbitrary JSON decoder. */
module Refinement {
  import opened Text
  import opened Vocabulary

  datatype Choice = Choice(content: Option<Bytes>, toolCalls: bool, finishReason: Option<Bytes>)

  datatype Chunk = Chunk(choices: seq<Choice>, usage: Option<TokenUsage>, error: Option<Bytes>)

  datatype Decoded = Malformed(why: Bytes) | Parsed(chunk: Chunk)

  type Decoder = Bytes -> Decoded

  datatype Normalized =
    | Normal(events: seq<DriverEvent>, toolCalls: nat, multipleChoices: Option<nat>)
    | Abnormal(detail: Detail)

  const DONE_SENTINEL: Bytes := [0x5B, 0x44, 0x4F, 0x4E, 0x45, 0x5D]

  predicate IsSentinel(data: Bytes) { Trim(data) == DONE_SENTINEL }

  function ChoiceEvents(c: Choice): seq<DriverEvent> {
    (if c.content.Some? && c.content.value != [] then [TextDelta(c.content.value)] else [])
    + (if c.finishReason.Some? then [Finish(c.finishReason.value)] else [])
  }

  function ChoicesEvents(cs: seq<Choice>): seq<DriverEvent> {
    if cs == [] then [] else ChoicesEvents(cs[..|cs| - 1]) + ChoiceEvents(cs[|cs| - 1])
  }

  function ToolCalls(cs: seq<Choice>): nat {
    if cs == [] then 0 else ToolCalls(cs[..|cs| - 1]) + if cs[|cs| - 1].toolCalls then 1 else 0
  }

  function UsageEvents(u: Option<TokenUsage>): seq<DriverEvent> {
    match u { case None => [] case Some(t) => [UsageReport(t)] }
  }

  function Normalization(decode: Decoder, data: Bytes): Normalized {
    if IsSentinel(data) then Normal([Done], 0, None)
    else
      match decode(data)
      case Malformed(why) => Abnormal(BadChunk(why))
      case Parsed(chunk) =>
        if chunk.error.Some? then Abnormal(ServerError(chunk.error.value))
        else Normal(ChoicesEvents(chunk.choices) + UsageEvents(chunk.usage), ToolCalls(chunk.choices),
                    if |chunk.choices| > 1 then Some(|chunk.choices|) else None)
  }

  method Normalize(decode: Decoder, data: Bytes) returns (n: Normalized)
    ensures n == Normalization(decode, data)
  {
    if IsSentinel(data) {
      return Normal([Done], 0, None);
    }
    var chunk;
    match decode(data) {
      case Malformed(why) => return Abnormal(BadChunk(why));
      case Parsed(c) => chunk := c;
    }
    if chunk.error.Some? {
      return Abnormal(ServerError(chunk.error.value));
    }
    var multiple := if |chunk.choices| > 1 then Some(|chunk.choices|) else None;
    var events: seq<DriverEvent> := [];
    var toolCalls := 0;
    for i := 0 to |chunk.choices|
      invariant events == ChoicesEvents(chunk.choices[..i]) && toolCalls == ToolCalls(chunk.choices[..i])
    {
      var c := chunk.choices[i];
      ghost var before := events;
      assert chunk.choices[..i + 1][..i] == chunk.choices[..i];
      if c.toolCalls {
        toolCalls := toolCalls + 1;
      }
      if c.content.Some? && |c.content.value| > 0 {
        events := events + [TextDelta(c.content.value)];
      }
      if c.finishReason.Some? {
        events := events + [Finish(c.finishReason.value)];
      }
      assert events == before + ChoiceEvents(c);
    }
    assert chunk.choices[..|chunk.choices|] == chunk.choices;
    if chunk.usage.Some? {
      events := events + [UsageReport(chunk.usage.value)];
    }
    return Normal(events, toolCalls, multiple);
  }

  /** What the handler decides about a `data` installment. */
  datatype Judgement =
    | Accept(events: seq<DriverEvent>, toolCalls: nat, done: bool)
    | Reject(detail: Detail, counted: bool)

  function Judge(decode: Decoder, data: Bytes): Judgement {
    match Normalization(decode, data)
    case Abnormal(detail) => Reject(detail, true)
    case Normal(events, toolCalls, multiple) =>
      // a refused choice list is recorded as an error but not counted as one
      if multiple.Some? then Reject(ManyChoices(multiple.value), false)
      else Accept(events, toolCalls, Done in events)
  }

  predicate TextsNonEmpty(evs: seq<DriverEvent>) {
    forall i | 0 <= i < |evs| && evs[i].TextDelta? :: evs[i].text != []
  }

  /** Text, then finish, then usage, each at most once and text never empty. */
  predicate InOrder(evs: seq<DriverEvent>) {
    && |evs| <= 3 && TextsNonEmpty(evs) && Done !in evs
    && (forall p, q | 0 <= p < q < |evs| ::
          (evs[p].TextDelta? && !evs[q].TextDelta?) || (evs[p].Finish? && evs[q].UsageReport?))
  }

  lemma OneChoiceInOrder(c: Choice, u: Option<TokenUsage>)
    ensures InOrder(ChoiceEvents(c) + UsageEvents(u)) && InOrder(UsageEvents(u))
  {
  }

  lemma {:induction false} FewChoices(cs: seq<Choice>)
    requires |cs| <= 1
    ensures ToolCalls(cs) <= 1
    ensures ChoicesEvents(cs) == if cs == [] then [] else ChoiceEvents(cs[0])
  {
    if cs != [] { assert cs[..0] == []; }
  }

  lemma {:induction false} FewChoicesInOrder(cs: seq<Choice>, u: Option<TokenUsage>)
    requires |cs| <= 1
    ensures InOrder(ChoicesEvents(cs) + UsageEvents(u)) && ToolCalls(cs) <= 1
  {
    hide InOrder, ChoiceEvents, UsageEvents, ChoicesEvents;
    FewChoices(cs);
    if cs == [] {
      assert [] + UsageEvents(u) == UsageEvents(u);
      OneChoiceInOrder(Choice(None, false, None), u);
    } else {
      OneChoiceInOrder(cs[0], u);
    }
  }

  /** An accepted installment is the sentinel alone, or at most text, finish and usage in that order, never empty text;
      anything with two or more choices is refused, whatever the choices hold. */
  lemma {:induction false} AcceptedShape(decode: Decoder, data: Bytes)
    ensures var j := Judge(decode, data);
            j.Accept? ==>
              && (j.done <==> IsSentinel(data))
              && (if j.done then j.events == [Done] && j.toolCalls == 0 else InOrder(j.events) && j.toolCalls <= 1)
    ensures !IsSentinel(data) && decode(data).Parsed? && |decode(data).chunk.choices| > 1
        ==> Judge(decode, data).Reject?
  {
    hide IsSentinel, ChoicesEvents, ToolCalls, UsageEvents;
    if !IsSentinel(data) && decode(data).Parsed? && |decode(data).chunk.choices| <= 1 {
      FewChoicesInOrder(decode(data).chunk.choices, decode(data).chunk.usage);
    }
    hide TextsNonEmpty;
  }
}
