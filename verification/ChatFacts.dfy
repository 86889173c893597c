/** What holds of every session. */
module ChatFacts {
  import opened Text
  import opened Vocabulary
  import opened Machine
  import opened Refinement
  import opened AttemptSpec
  import opened AttemptOutcome
  import opened TurnSpec
  import opened TurnFacts
  import opened TurnOutcome
  import opened ChatSpec

  /** Some turn was sent exactly `sent` and committed `text`. */
  ghost predicate Answered(sent: History, text: Bytes, asked: seq<Asked>) {
    exists k | 0 <= k < |asked| :: Answers(asked[k], sent, text)
  }

  predicate Answers(a: Asked, sent: History, text: Bytes) {
    a.sent == sent && a.verdict.Committed? && a.verdict.outcome.content == text
  }

  /** The head, then whole user/assistant pairs, each answer committed for exactly the history before it. */
  ghost predicate Dialogue(head: History, h: History, asked: seq<Asked>)
    decreases |h|
  {
    || h == head
    || (&& |h| >= |head| + 2 && h[|h| - 2].role == User && h[|h| - 1].role == Assistant
        && Answered(h[..|h| - 1], h[|h| - 1].text, asked) && Dialogue(head, h[..|h| - 2], asked))
  }

  lemma {:induction false} DialogueKept(head: History, h: History, asked: seq<Asked>, more: seq<Asked>)
    requires Dialogue(head, h, asked)
    ensures Dialogue(head, h, asked + more)
    decreases |h|
  {
    if h != head {
      DialogueKept(head, h[..|h| - 2], asked, more);
      var k :| 0 <= k < |asked| && Answers(asked[k], h[..|h| - 1], h[|h| - 1].text);
      assert Answers((asked + more)[k], h[..|h| - 1], h[|h| - 1].text);
    }
  }

  lemma {:induction false} ResetKeepsHead(system: Option<Bytes>, h: History, asked: seq<Asked>)
    requires Dialogue(Head(system), h, asked)
    ensures SystemOnly(h) == Head(system)
    decreases |h|
  {
    hide Answered, SystemOnly;
    if h == Head(system) {
      HeadIsSystem(system);
    } else {
      var init := h[..|h| - 2];
      ResetKeepsHead(system, init, asked);
      RetainOne(init, h[|h| - 2]);
      RetainOne(init + [h[|h| - 2]], h[|h| - 1]);
      assert h == init + [h[|h| - 2]] + [h[|h| - 1]];
      assert SystemOnly(init) + [] + [] == SystemOnly(init);
    }
  }

  lemma {:induction false} RetainOne(h: History, m: Message)
    ensures SystemOnly(h + [m]) == SystemOnly(h) + if m.role == System then [m] else []
  {
    assert (h + [m])[..|h|] == h;
  }

  lemma {:induction false} HeadIsSystem(system: Option<Bytes>)
    ensures SystemOnly(Head(system)) == Head(system)
  {
    if system.Some? { RetainOne([], Message(System, system.value)); }
  }

  /** A recorded turn is what that endpoint made of it. */
  ghost predicate Faithful(setup: Setup, a: Asked) {
    && (a.cfg == setup.primary || setup.second == Some(a.cfg))
    && EnoughWorlds(PlanOf(setup), a.worlds)
    && a.verdict == VerdictOf(Ctx(a.cfg, setup.decode), PlanOf(setup), a.worlds)
  }

  ghost predicate Numbered(asked: seq<Asked>) { forall k: nat | k < |asked| :: asked[k].stream == k + 1 }

  ghost predicate AllFaithful(setup: Setup, asked: seq<Asked>)
  {
    forall k | 0 <= k < |asked| :: Faithful(setup, asked[k])
  }

  /** At a prompt the history is a dialogue; after a crash the user's message is left hanging. */
  ghost predicate Orderly(setup: Setup, c: Chat) {
    && c.streamId == |c.asked| && Numbered(c.asked) && AllFaithful(setup, c.asked)
    && if c.stop == Some(Crashed) then
         c.history != [] && c.history[|c.history| - 1].role == User
         && Dialogue(Head(setup.system), c.history[..|c.history| - 1], c.asked)
       else Dialogue(Head(setup.system), c.history, c.asked)
  }

  lemma AskingIsFaithful(setup: Setup, sent: History, streamId: nat, input: Input)
    requires Plausible(setup, input)
    ensures var asked := Asking(setup, sent, streamId, input);
            && AllFaithful(setup, asked) && (forall k: nat | k < |asked| :: asked[k].stream == streamId + k + 1)
            && forall k | 0 <= k < |asked| :: asked[k].sent == sent
  {
    hide VerdictOf, EnoughWorlds;
  }

  lemma {:induction false} MoreAsked(setup: Setup, before: seq<Asked>, asked: seq<Asked>)
    requires Numbered(before) && AllFaithful(setup, before) && AllFaithful(setup, asked)
    requires forall k: nat | k < |asked| :: asked[k].stream == |before| + k + 1
    ensures Numbered(before + asked) && AllFaithful(setup, before + asked)
  {
    hide Faithful;
    var all := before + asked;
    forall k: nat | k < |all| ensures all[k].stream == k + 1 && Faithful(setup, all[k]) {
      if k < |before| { assert all[k] == before[k]; } else { assert all[k] == asked[k - |before|]; }
    }
  }

  lemma {:induction false} AskOrderly(setup: Setup, c: Chat, text: Bytes, input: Input)
    requires Plausible(setup, input) && Orderly(setup, c) && c.stop.None?
    ensures Orderly(setup, Ask(setup, c, text, input))
  {
    hide Asking, Plausible, Faithful, Dialogue, Numbered, AllFaithful;
    var sent := c.history + [Message(User, text)];
    var asked := Asking(setup, sent, c.streamId, input);
    AskingIsFaithful(setup, sent, c.streamId, input);
    MoreAsked(setup, c.asked, asked);
    DialogueKept(Head(setup.system), c.history, c.asked, asked);
    match Final(setup, asked) {
      case Committed(o) => AnswerKept(Head(setup.system), c.history, text, c.asked, asked, o);
      case Failed(_) =>
      case Failover(_) => assert sent[..|sent| - 1] == c.history;
    }
  }

  lemma {:induction false} AnswerKept(head: History, h: History, text: Bytes, before: seq<Asked>, asked: seq<Asked>,
                                      o: ChatOutcome)
    requires Dialogue(head, h, before + asked) && |h| >= |head|
    requires asked != [] && asked[|asked| - 1].sent == h + [Message(User, text)]
        && asked[|asked| - 1].verdict == Committed(o)
    ensures Dialogue(head, h + [Message(User, text)] + [Message(Assistant, o.content)], before + asked)
  {
    var sent := h + [Message(User, text)];
    var all := sent + [Message(Assistant, o.content)];
    assert all[..|all| - 1] == sent && all[..|all| - 2] == h;
    assert Answers((before + asked)[|before| + |asked| - 1], sent, o.content);
  }

  lemma {:induction false} EnterOrderly(setup: Setup, c: Chat, input: Input)
    requires Plausible(setup, input) && Orderly(setup, c) && c.stop.None?
    ensures Orderly(setup, Enter(setup, c, input))
  {
    hide Ask, Plausible, Faithful, Trim;
    ResetKeepsHead(setup.system, c.history, c.asked);
    AskOrderly(setup, c, Trim(input.line), input);
  }

  /** At every prompt of every session the history is the system message, if any, and whole user/assistant pairs;
      each assistant text was committed by a turn that was sent exactly the history before it; streams are numbered
      from one. */
  lemma {:induction false} HistoryWellFormed(setup: Setup, inputs: seq<Input>)
    requires forall i | 0 <= i < |inputs| :: Plausible(setup, inputs[i])
    ensures Orderly(setup, AfterLines(setup, inputs))
    decreases |inputs|
  {
    hide Enter, Plausible, Orderly;
    if inputs == [] {
      OpeningOrderly(setup);
    } else {
      var init := inputs[..|inputs| - 1];
      assert forall i | 0 <= i < |init| :: init[i] == inputs[i];
      HistoryWellFormed(setup, init);
      var c := AfterLines(setup, init);
      if c.stop.None? { EnterOrderly(setup, c, inputs[|inputs| - 1]); }
    }
  }

  lemma OpeningOrderly(setup: Setup)
    ensures Orderly(setup, Opening(setup))
  {
  }

  // ---- what the assistant says came over the wire ----

  /** `text` is what some attempt's bytes said, in full. */
  ghost predicate SaidOnWire(decode: Decoder, text: Bytes, worlds: seq<World>) {
    exists j | 0 <= j < |worlds| :: Said(decode, text, worlds[j])
  }

  predicate Said(decode: Decoder, text: Bytes, w: World) {
    w.dial == Streaming && text == ContentOf(OutcomeOf(decode, BytesOf(w.wakes)).fed)
  }

  lemma {:induction false} CommittedWasSaid(setup: Setup, a: Asked)
    requires Faithful(setup, a) && a.verdict.Committed?
        && forall i | 0 <= i < |a.worlds| :: EofIsLast(a.worlds[i].wakes)
    ensures SaidOnWire(setup.decode, a.verdict.outcome.content, a.worlds)
  {
    hide AfterWorlds, VerdictOf, EnoughWorlds, OutcomeOf, ContentOf, BytesOf, FirstFinish, LastUsage, EofIsLast;
    var ctx, plan := Ctx(a.cfg, setup.decode), PlanOf(setup);
    TurnRefinesSpec(ctx, plan, a.stream, a.worlds);
    CommittedIsLastAttempt(ctx, plan, a.stream, a.worlds);
    var t := AfterWorlds(ctx, plan, a.stream, a.worlds);
    assert Said(setup.decode, a.verdict.outcome.content, a.worlds[t.st.attempt - 1]);
  }

  /** Every assistant message of a session is, word for word, what one attempt of one turn received. */
  lemma {:induction false} AssistantTextIsWireText(setup: Setup, head: History, h: History, asked: seq<Asked>)
    requires Dialogue(head, h, asked) && AllFaithful(setup, asked)
    requires forall k, i | 0 <= k < |asked| && 0 <= i < |asked[k].worlds| :: EofIsLast(asked[k].worlds[i].wakes)
    ensures forall p | |head| <= p < |h| && h[p].role == Assistant ::
              exists k | 0 <= k < |asked| ::
                asked[k].sent == h[..p] && SaidOnWire(setup.decode, h[p].text, asked[k].worlds)
    decreases |h|
  {
    hide Faithful, EofIsLast, SaidOnWire;
    if h != head {
      var init := h[..|h| - 2];
      AssistantTextIsWireText(setup, head, init, asked);
      var k :| 0 <= k < |asked| && Answers(asked[k], h[..|h| - 1], h[|h| - 1].text);
      CommittedWasSaid(setup, asked[k]);
      forall p | |head| <= p < |h| && h[p].role == Assistant
        ensures exists k | 0 <= k < |asked| ::
                  asked[k].sent == h[..p] && SaidOnWire(setup.decode, h[p].text, asked[k].worlds)
      {
        if p < |init| { assert init[p] == h[p] && init[..p] == h[..p]; }
      }
    }
  }

  // ---- the arm that is not unreachable ----

  /** The loop's `unreachable!` is reached exactly when there is a second endpoint and both endpoints use up their
      allowance: the hand-off does not make the second one the last. */
  lemma {:induction false} CrashIff(setup: Setup, c: Chat, text: Bytes, input: Input)
    requires Plausible(setup, input) && c.stop.None?
    ensures Ask(setup, c, text, input).stop == Some(Crashed) <==>
            && setup.second.Some?
            && Exhausts(Ctx(setup.primary, setup.decode), input.onPrimary)
            && Exhausts(Ctx(setup.second.value, setup.decode), input.onSecond)
  {
    hide VerdictOf, Exhausts;
    FailoverIff(Ctx(setup.primary, setup.decode), PlanOf(setup), input.onPrimary);
    if setup.second.Some? { FailoverIff(Ctx(setup.second.value, setup.decode), PlanOf(setup), input.onSecond); }
  }

  const SILENT_PEER := World(1, 0, DialTimedOut, 0, 0, [])

  // "hi"
  const HELLO: Bytes := [0x68, 0x69]

  function Silence(setup: Setup): Input {
    var worlds := seq(setup.allowance + 1, _ => SILENT_PEER);
    Input(HELLO, worlds, worlds)
  }

  lemma SilenceExhausts(setup: Setup, cfg: Config)
    ensures Exhausts(Ctx(cfg, setup.decode), Silence(setup).onPrimary)
  {
  }

  /** With a second endpoint configured, two peers that never answer crash the session at its first message. */
  lemma {:induction false} CrashExample(setup: Setup)
    requires setup.second.Some?
    ensures Plausible(setup, Silence(setup)) && AfterLines(setup, [Silence(setup)]).stop == Some(Crashed)
  {
    hide Exhausts, Ask;
    SilenceExhausts(setup, setup.primary);
    SilenceExhausts(setup, setup.second.value);
    CrashIff(setup, Opening(setup), HELLO, Silence(setup));
    assert [Silence(setup)][..0] == [];
    assert AfterLines(setup, [Silence(setup)][..0]) == Opening(setup);
  }
}
