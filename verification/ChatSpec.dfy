/** The terminal loop: history, commands and the failover hand-off (chat2/src/main.rs:57-103), as a fold over the lines
    the user enters. An `Input` carries what the surroundings would do to a turn on each endpoint. */
module ChatSpec {
  import opened Text
  import opened Vocabulary
  import opened Refinement
  import opened Handler
  import opened AttemptSpec
  import opened TurnSpec
  import opened TurnOutcome

  datatype Role = System | User | Assistant

  datatype Message = Message(role: Role, text: Bytes)

  type History = seq<Message>

  datatype Input = Input(line: Bytes, onPrimary: seq<World>, onSecond: seq<World>)

  datatype Setup = Setup(decode: Decoder, primary: Config, second: Option<Config>, allowance: nat,
      system: Option<Bytes>)

  /** A turn put to an endpoint. */
  datatype Asked = Asked(sent: History, cfg: Config, stream: StreamId, worlds: seq<World>, verdict: TurnVerdict)

  datatype Stop = Quit | Crashed

  datatype Chat = Chat(history: History, streamId: nat, asked: seq<Asked>, stop: Option<Stop>)

  // "/quit", "/exit" and "/reset"
  const QUIT: Bytes := [0x2F, 0x71, 0x75, 0x69, 0x74]
  const EXIT: Bytes := [0x2F, 0x65, 0x78, 0x69, 0x74]
  const RESET: Bytes := [0x2F, 0x72, 0x65, 0x73, 0x65, 0x74]

  function PlanOf(setup: Setup): Strategy { Strategy(setup.allowance, setup.second.Some?) }

  function Head(system: Option<Bytes>): History {
    match system
    case None => []
    case Some(text) => [Message(System, text)]
  }

  /** `history.retain(|m| m.role == "system")`. */
  function SystemOnly(h: History): History {
    if h == [] then []
    else SystemOnly(h[..|h| - 1]) + (if h[|h| - 1].role == System then [h[|h| - 1]] else [])
  }

  predicate Plausible(setup: Setup, input: Input) {
    EnoughWorlds(PlanOf(setup), input.onPrimary) && EnoughWorlds(PlanOf(setup), input.onSecond)
  }

  function AskOne(setup: Setup, cfg: Config, sent: History, stream: StreamId, worlds: seq<World>): Asked
    requires EnoughWorlds(PlanOf(setup), worlds)
  {
    Asked(sent, cfg, stream, worlds, VerdictOf(Ctx(cfg, setup.decode), PlanOf(setup), worlds))
  }

  /** The turns put to the endpoints for one user message. */
  function Asking(setup: Setup, sent: History, streamId: nat, input: Input): (asked: seq<Asked>)
    requires Plausible(setup, input)
    ensures 1 <= |asked| <= 2
  {
    var first := AskOne(setup, setup.primary, sent, streamId + 1, input.onPrimary);
    if first.verdict.Failover? && setup.second.Some? then
      [first, AskOne(setup, setup.second.value, sent, streamId + 2, input.onSecond)]
    else [first]
  }

  /** The verdict the loop acts on: a failover nobody can take is a failure. */
  function Final(setup: Setup, asked: seq<Asked>): TurnVerdict
    requires asked != []
  {
    var v := asked[|asked| - 1].verdict;
    if v.Failover? && setup.second.None? then Failed(Protocol(NoAlternative)) else v
  }

  function Ask(setup: Setup, c: Chat, text: Bytes, input: Input): Chat
    requires Plausible(setup, input)
  {
    var sent := c.history + [Message(User, text)];
    var asked := Asking(setup, sent, c.streamId, input);
    var d := c.(streamId := c.streamId + |asked|, asked := c.asked + asked);
    match Final(setup, asked)
    case Committed(o) => d.(history := sent + [Message(Assistant, o.content)])
    case Failed(_) => d
    case Failover(_) => d.(history := sent, stop := Some(Crashed))
  }

  function Enter(setup: Setup, c: Chat, input: Input): Chat
    requires Plausible(setup, input)
  {
    var text := Trim(input.line);
    if text == [] then c
    else if text == QUIT || text == EXIT then c.(stop := Some(Quit))
    else if text == RESET then c.(history := SystemOnly(c.history))
    else Ask(setup, c, text, input)
  }

  function Opening(setup: Setup): Chat { Chat(Head(setup.system), 0, [], None) }

  function AfterLines(setup: Setup, inputs: seq<Input>): Chat
    requires forall i | 0 <= i < |inputs| :: Plausible(setup, inputs[i])
  {
    if inputs == [] then Opening(setup)
    else
      var init := inputs[..|inputs| - 1];
      assert forall i | 0 <= i < |init| :: init[i] == inputs[i];
      var c := AfterLines(setup, init);
      if c.stop.Some? then c else Enter(setup, c, inputs[|inputs| - 1])
  }

  /** Everything the turns offered to the bus. */
  function TurnRecords(setup: Setup, asked: seq<Asked>): Log {
    if asked == [] then []
    else
      var a := asked[|asked| - 1];
      var t := AfterWorlds(Ctx(a.cfg, setup.decode), PlanOf(setup), a.stream, a.worlds);
      TurnRecords(setup, asked[..|asked| - 1]) + t.log + [Trailer(t, a.verdict)]
  }
}
