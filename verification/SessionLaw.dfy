/** A session as its user would tell it: what each line asks for, what the history then is, and what each turn is
    sent. */
module SessionLaw {
  import opened Text
  import opened Utf8
  import opened Vocabulary
  import opened AttemptSpec
  import opened TurnSpec
  import opened TurnOutcome
  import opened ChatSpec
  import ChatFacts

  datatype Command = Blank | Leave | Forget | Say(text: Bytes)

  function Quitting(): Bytes { EncodeAll(Codes("/quit")) }

  function Exiting(): Bytes { EncodeAll(Codes("/exit")) }

  function Resetting(): Bytes { EncodeAll(Codes("/reset")) }

  /** What a line asks for, without the white space around it. */
  function CommandOf(line: Bytes): Command {
    var text := Trim(line);
    if text == [] then Blank
    else if text == Quitting() || text == Exiting() then Leave
    else if text == Resetting() then Forget
    else Say(text)
  }

  /** The lines since the last reset. */
  function SinceReset(inputs: seq<Input>): seq<Input> {
    if inputs == [] || CommandOf(inputs[|inputs| - 1].line).Forget? then []
    else SinceReset(inputs[..|inputs| - 1]) + [inputs[|inputs| - 1]]
  }

  /** What an endpoint makes of its worlds. */
  function Answer(setup: Setup, cfg: Config, worlds: seq<World>): TurnVerdict
    requires EnoughWorlds(PlanOf(setup), worlds)
  {
    VerdictOf(Ctx(cfg, setup.decode), PlanOf(setup), worlds)
  }

  /** The message is handed to the second endpoint. */
  predicate HandedOn(setup: Setup, input: Input)
    requires Plausible(setup, input)
  {
    setup.second.Some? && Answer(setup, setup.primary, input.onPrimary).Failover?
  }

  /** Both endpoints hand the message on, the second to nobody. */
  predicate Crashes(setup: Setup, input: Input)
    requires Plausible(setup, input)
  {
    HandedOn(setup, input) && Answer(setup, setup.second.value, input.onSecond).Failover?
  }

  /** What is committed for a message, by the endpoint asked last. */
  function Reply(setup: Setup, input: Input): Option<Bytes>
    requires Plausible(setup, input)
  {
    var v := if HandedOn(setup, input) then Answer(setup, setup.second.value, input.onSecond)
             else Answer(setup, setup.primary, input.onPrimary);
    if v.Committed? then Some(v.outcome.content) else None
  }

  predicate AllPlausible(setup: Setup, inputs: seq<Input>) {
    forall i | 0 <= i < |inputs| :: Plausible(setup, inputs[i])
  }

  /** The user/assistant pairs of the committed turns, in order. */
  function Exchanges(setup: Setup, inputs: seq<Input>): History
    requires AllPlausible(setup, inputs)
  {
    if inputs == [] then []
    else
      var init, last := inputs[..|inputs| - 1], inputs[|inputs| - 1];
      Exchanges(setup, init) +
      match CommandOf(last.line)
      case Say(text) =>
        (match Reply(setup, last)
         case Some(reply) => [Message(User, text), Message(Assistant, reply)]
         case None => [])
      case _ => []
  }

  lemma {:induction false} SinceResetIs(inputs: seq<Input>) returns (k: nat)
    ensures k <= |inputs| && SinceReset(inputs) == inputs[k..]
    ensures k > 0 ==> CommandOf(inputs[k - 1].line).Forget?
    ensures forall i | k <= i < |inputs| :: !CommandOf(inputs[i].line).Forget?
    decreases |inputs|
  {
    hide CommandOf;
    if inputs == [] || CommandOf(inputs[|inputs| - 1].line).Forget? {
      k := |inputs|;
    } else {
      var init := inputs[..|inputs| - 1];
      k := SinceResetIs(init);
      assert inputs[k..] == init[k..] + [inputs[|inputs| - 1]];
      forall i | k <= i < |inputs| ensures !CommandOf(inputs[i].line).Forget? {
        if i < |init| { assert init[i] == inputs[i]; }
      }
    }
  }

  lemma {:induction false} SincePlausible(setup: Setup, inputs: seq<Input>)
    requires AllPlausible(setup, inputs)
    ensures AllPlausible(setup, SinceReset(inputs))
  {
    hide Plausible, CommandOf;
    var k := SinceResetIs(inputs);
  }

  /** The history at the prompt after these lines. */
  function HistoryAt(setup: Setup, inputs: seq<Input>): History
    requires AllPlausible(setup, inputs)
  {
    SincePlausible(setup, inputs);
    Head(setup.system) + Exchanges(setup, SinceReset(inputs))
  }

  /** The turns of one message. */
  function TurnsOf(setup: Setup, sent: History, streams: nat, input: Input): seq<Asked>
    requires Plausible(setup, input)
  {
    [Asked(sent, setup.primary, streams + 1, input.onPrimary, Answer(setup, setup.primary, input.onPrimary))]
    + if HandedOn(setup, input) then
        [Asked(sent, setup.second.value, streams + 2, input.onSecond,
           Answer(setup, setup.second.value, input.onSecond))]
      else []
  }

  /** The turns of these lines: each message is sent with the history at its prompt, and streams count from one. */
  function AskedBy(setup: Setup, inputs: seq<Input>): seq<Asked>
    requires AllPlausible(setup, inputs)
  {
    if inputs == [] then []
    else
      var init, last := inputs[..|inputs| - 1], inputs[|inputs| - 1];
      var before := AskedBy(setup, init);
      before +
      match CommandOf(last.line)
      case Say(text) => TurnsOf(setup, HistoryAt(setup, init) + [Message(User, text)], |before|, last)
      case _ => []
  }

  /** No line comes after this one. */
  predicate Halts(setup: Setup, input: Input)
    requires Plausible(setup, input)
  {
    CommandOf(input.line).Leave? || (CommandOf(input.line).Say? && Crashes(setup, input))
  }

  // ---- the session follows ----

  /** At a prompt. */
  ghost predicate AtPrompt(setup: Setup, c: Chat, inputs: seq<Input>)
    requires AllPlausible(setup, inputs)
  {
    && c.stop.None? && c.history == HistoryAt(setup, inputs) && c.asked == AskedBy(setup, inputs)
    && c.streamId == |c.asked|
  }

  lemma {:induction false} QuitIs()
    ensures Quitting() == QUIT
  {
    var cs := Codes("/quit");
    AsciiEncoding(cs);
    assert cs[0] == 0x2F && cs[1] == 0x71 && cs[2] == 0x75 && cs[3] == 0x69 && cs[4] == 0x74;
  }

  lemma {:induction false} ExitIs()
    ensures Exiting() == EXIT
  {
    var cs := Codes("/exit");
    AsciiEncoding(cs);
    assert cs[0] == 0x2F && cs[1] == 0x65 && cs[2] == 0x78 && cs[3] == 0x69 && cs[4] == 0x74;
  }

  lemma {:induction false} ResetIs()
    ensures Resetting() == RESET
  {
    var cs := Codes("/reset");
    AsciiEncoding(cs);
    assert cs[0] == 0x2F && cs[1] == 0x72 && cs[2] == 0x65 && cs[3] == 0x73 && cs[4] == 0x65 && cs[5] == 0x74;
  }

  lemma {:induction false} Literals(line: Bytes)
    ensures var text := Trim(line);
            && (CommandOf(line).Blank? <==> text == [])
            && (CommandOf(line).Leave? <==> text == QUIT || text == EXIT)
            && (CommandOf(line).Forget? <==> text == RESET)
            && (CommandOf(line).Say? ==> CommandOf(line).text == text)
  {
    hide Trim, Quitting, Exiting, Resetting;
    QuitIs();
    ExitIs();
    ResetIs();
  }

  lemma {:induction false} AskingIs(setup: Setup, sent: History, streamId: nat, input: Input)
    requires Plausible(setup, input)
    ensures var asked := Asking(setup, sent, streamId, input);
            && asked == TurnsOf(setup, sent, streamId, input)
            && (Final(setup, asked).Failover? <==> Crashes(setup, input))
            && (Final(setup, asked).Committed? <==> Reply(setup, input).Some?)
            && (Reply(setup, input).Some? ==> Final(setup, asked).outcome.content == Reply(setup, input).value)
  {
    hide VerdictOf, EnoughWorlds;
  }

  lemma {:induction false} SinceOneMore(inputs: seq<Input>, last: Input)
    ensures SinceReset(inputs + [last]) ==
            if CommandOf(last.line).Forget? then [] else SinceReset(inputs) + [last]
  {
    hide CommandOf;
    assert (inputs + [last])[..|inputs|] == inputs;
  }

  lemma {:induction false} ExchangesOneMore(setup: Setup, inputs: seq<Input>, last: Input)
    requires AllPlausible(setup, inputs) && Plausible(setup, last)
    ensures AllPlausible(setup, inputs + [last])
    ensures Exchanges(setup, inputs + [last]) == Exchanges(setup, inputs) +
            match CommandOf(last.line)
            case Say(text) =>
              (match Reply(setup, last)
               case Some(reply) => [Message(User, text), Message(Assistant, reply)]
               case None => [])
            case _ => []
  {
    hide CommandOf, Reply, Plausible;
    assert (inputs + [last])[..|inputs|] == inputs;
  }

  /** The history after one more line. */
  lemma {:induction false} HistoryOneMore(setup: Setup, inputs: seq<Input>, last: Input)
    requires AllPlausible(setup, inputs) && Plausible(setup, last)
    ensures AllPlausible(setup, inputs + [last])
    ensures HistoryAt(setup, inputs + [last]) ==
            match CommandOf(last.line)
            case Forget => Head(setup.system)
            case Say(text) =>
              (match Reply(setup, last)
               case Some(reply) => HistoryAt(setup, inputs) + [Message(User, text)] + [Message(Assistant, reply)]
               case None => HistoryAt(setup, inputs))
            case _ => HistoryAt(setup, inputs)
  {
    hide CommandOf, Reply, Plausible, SinceReset, Exchanges;
    var since := SinceReset(inputs);
    SincePlausible(setup, inputs);
    SinceOneMore(inputs, last);
    assert AllPlausible(setup, inputs + [last]);
    if CommandOf(last.line).Forget? {
      NoExchange(setup);
      assert Head(setup.system) + [] == Head(setup.system);
    } else {
      ExchangesOneMore(setup, since, last);
      var e := Exchanges(setup, since);
      assert e + [] == e;
      match CommandOf(last.line)
      case Say(text) =>
        if Reply(setup, last).Some? {
          var pair := [Message(User, text), Message(Assistant, Reply(setup, last).value)];
          assert Head(setup.system) + (e + pair) == Head(setup.system) + e + [pair[0]] + [pair[1]];
        }
      case _ =>
    }
  }

  lemma NoExchange(setup: Setup)
    ensures Exchanges(setup, []) == []
  {
  }

  lemma {:induction false} AskedOneMore(setup: Setup, inputs: seq<Input>, last: Input)
    requires AllPlausible(setup, inputs) && Plausible(setup, last)
    ensures AllPlausible(setup, inputs + [last])
    ensures AskedBy(setup, inputs + [last]) == AskedBy(setup, inputs) +
            match CommandOf(last.line)
            case Say(text) =>
              TurnsOf(setup, HistoryAt(setup, inputs) + [Message(User, text)], |AskedBy(setup, inputs)|, last)
            case _ => []
  {
    hide CommandOf, TurnsOf, Plausible, HistoryAt;
    assert (inputs + [last])[..|inputs|] == inputs;
  }

  /** One line, entered at a prompt. */
  lemma {:induction false} LineObeyed(setup: Setup, c: Chat, inputs: seq<Input>, last: Input)
    requires AllPlausible(setup, inputs) && Plausible(setup, last) && AtPrompt(setup, c, inputs)
    ensures AllPlausible(setup, inputs + [last])
    ensures var d := Enter(setup, c, last);
            if !Halts(setup, last) then AtPrompt(setup, d, inputs + [last])
            else if CommandOf(last.line).Leave? then d == c.(stop := Some(Quit))
            else
              && d.stop == Some(Crashed) && d.asked == AskedBy(setup, inputs + [last])
              && d.history == c.history + [Message(User, CommandOf(last.line).text)]
  {
    hide CommandOf, Plausible, Trim, HistoryAt, AskedBy, Asking, TurnsOf, Final, Reply, Crashes;
    Literals(last.line);
    HistoryOneMore(setup, inputs, last);
    AskedOneMore(setup, inputs, last);
    assert AskedBy(setup, inputs) + [] == AskedBy(setup, inputs);
    match CommandOf(last.line)
    case Say(text) =>
      AskingIs(setup, c.history + [Message(User, text)], c.streamId, last);
    case Forget =>
      ForgetsAll(setup, c, inputs);
    case _ =>
  }

  lemma {:induction false} NoSystem(setup: Setup, inputs: seq<Input>)
    requires AllPlausible(setup, inputs)
    ensures forall i | 0 <= i < |Exchanges(setup, inputs)| :: Exchanges(setup, inputs)[i].role != System
    decreases |inputs|
  {
    hide CommandOf, Reply, Plausible;
    if inputs != [] { NoSystem(setup, inputs[..|inputs| - 1]); }
  }

  lemma {:induction false} HeadKept(system: Option<Bytes>, e: History)
    requires forall i | 0 <= i < |e| :: e[i].role != System
    ensures SystemOnly(Head(system) + e) == Head(system)
    decreases |e|
  {
    hide SystemOnly, Head;
    if e == [] {
      ChatFacts.HeadIsSystem(system);
      assert Head(system) + e == Head(system);
    } else {
      var init, m := e[..|e| - 1], e[|e| - 1];
      HeadKept(system, init);
      ChatFacts.RetainOne(Head(system) + init, m);
      assert Head(system) + e == Head(system) + init + [m];
    }
  }

  /** Of the history at a prompt only its head is a system message. */
  lemma {:induction false} ForgetsAll(setup: Setup, c: Chat, inputs: seq<Input>)
    requires AllPlausible(setup, inputs) && c.history == HistoryAt(setup, inputs)
    ensures SystemOnly(c.history) == Head(setup.system)
  {
    hide SystemOnly, Plausible, Exchanges, SinceReset, Head;
    SincePlausible(setup, inputs);
    NoSystem(setup, SinceReset(inputs));
    HeadKept(setup.system, Exchanges(setup, SinceReset(inputs)));
  }

  /** Line `n` is the first after which no line comes; there is none if `n` is the number of lines. */
  predicate FirstHalt(setup: Setup, inputs: seq<Input>, n: nat)
    requires AllPlausible(setup, inputs)
  {
    n <= |inputs| && (forall i | 0 <= i < n :: !Halts(setup, inputs[i])) && (n < |inputs| ==> Halts(setup, inputs[n]))
  }

  lemma {:induction false} PlausiblePrefix(setup: Setup, inputs: seq<Input>, n: nat)
    requires AllPlausible(setup, inputs) && n <= |inputs|
    ensures AllPlausible(setup, inputs[..n])
  {
    hide Plausible;
  }

  lemma {:induction false} LinesObeyed(setup: Setup, inputs: seq<Input>, n: nat)
    requires AllPlausible(setup, inputs) && FirstHalt(setup, inputs, n)
    ensures var c := AfterLines(setup, inputs);
            if n == |inputs| then AtPrompt(setup, c, inputs)
            else
              && AllPlausible(setup, inputs[..n]) && AllPlausible(setup, inputs[..n + 1])
              && if CommandOf(inputs[n].line).Leave? then
                   && c.stop == Some(Quit) && c.history == HistoryAt(setup, inputs[..n])
                   && c.asked == AskedBy(setup, inputs[..n])
                 else
                   && c.stop == Some(Crashed) && c.asked == AskedBy(setup, inputs[..n + 1])
                   && c.history == HistoryAt(setup, inputs[..n]) + [Message(User, CommandOf(inputs[n].line).text)]
    decreases |inputs|
  {
    hide CommandOf, Plausible, HistoryAt, AskedBy, Enter, Halts;
    if inputs == [] {
      AtFirst(setup);
    } else {
      var init, last := inputs[..|inputs| - 1], inputs[|inputs| - 1];
      PlausiblePrefix(setup, inputs, |init|);
      assert forall i | 0 <= i < |init| :: init[i] == inputs[i];
      assert inputs == init + [last];
      var k := if n == |inputs| then |init| else n;
      LinesObeyed(setup, init, k);
      if n >= |init| {
        LineObeyed(setup, AfterLines(setup, init), init, last);
        assert inputs[..|init|] == init && inputs[..|inputs|] == inputs;
      } else {
        assert init[..n] == inputs[..n] && init[..n + 1] == inputs[..n + 1];
      }
    }
  }

  lemma AtFirst(setup: Setup)
    ensures AtPrompt(setup, Opening(setup), [])
  {
  }
}
