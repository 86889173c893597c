/** The program's main loop over its drivers, and its exit (chat2/src/main.rs:57-114), proved equal to `ChatSpec`. */
module Session {
  import opened Text
  import opened Vocabulary
  import opened BusSystem
  import opened Emission
  import opened Handler
  import opened AttemptSpec
  import opened TurnSpec
  import opened TurnOutcome
  import opened Driver
  import opened ChatSpec

  /** Both drivers share one handler, which knows whether there is a second. */
  predicate Linked(driver: OpenAiCompatDriver, second: OpenAiCompatDriver?) {
    && driver.handler.knowsFailoverExists == (second != null)
    && (second != null ==> second.handler == driver.handler)
  }

  ghost function SetupOf(driver: OpenAiCompatDriver, second: OpenAiCompatDriver?, system: Option<Bytes>): Setup {
    Setup(driver.handler.decode, driver.cfg, if second == null then None else Some(second.cfg),
          driver.handler.retryAllowancePerTurn, system)
  }

  lemma {:induction false} OneTurn(setup: Setup, a: Asked)
    ensures var t := AfterWorlds(Ctx(a.cfg, setup.decode), PlanOf(setup), a.stream, a.worlds);
            TurnRecords(setup, [a]) == t.log + [Trailer(t, a.verdict)]
  {
    hide AfterWorlds;
    assert [a][..0] == [];
    var t := AfterWorlds(Ctx(a.cfg, setup.decode), PlanOf(setup), a.stream, a.worlds);
    assert [] + t.log == t.log;
  }

  lemma {:induction false} RecordsJoin(setup: Setup, xs: seq<Asked>, ys: seq<Asked>)
    ensures TurnRecords(setup, xs + ys) == TurnRecords(setup, xs) + TurnRecords(setup, ys)
    decreases |ys|
  {
    hide AfterWorlds;
    if ys == [] {
      assert xs + ys == xs;
    } else {
      RecordsJoin(setup, xs, ys[..|ys| - 1]);
      assert (xs + ys)[..|xs + ys| - 1] == xs + ys[..|ys| - 1];
    }
  }

  /** A turn on one endpoint. */
  method PutTo(endpoint: OpenAiCompatDriver, stream: StreamId, worlds: seq<World>, ghost setup: Setup,
      ghost sent: History)
    returns (verdict: TurnVerdict, ghost asked: Asked)
    requires endpoint.handler.Valid() && endpoint.Plan() == PlanOf(setup) && endpoint.handler.decode == setup.decode
    requires EnoughWorlds(PlanOf(setup), worlds)
    modifies endpoint.handler, endpoint.handler.bus
    ensures endpoint.handler.Valid() && asked == AskOne(setup, endpoint.cfg, sent, stream, worlds)
        && verdict == asked.verdict
    ensures endpoint.handler.bus.offered == old(endpoint.handler.bus.offered) + TurnRecords(setup, [asked])
  {
    hide EventHandler.Valid, AfterWorlds, VerdictOf, EnoughWorlds, TurnRecords;
    verdict := endpoint.ExecuteTurn(stream, worlds);
    TurnRefinesSpec(endpoint.Context(), PlanOf(setup), stream, worlds);
    asked := AskOne(setup, endpoint.cfg, sent, stream, worlds);
    OneTurn(setup, asked);
  }

  /** The turn on the first endpoint and, if that one is exhausted, on the second. */
  method Resolve(driver: OpenAiCompatDriver, second: OpenAiCompatDriver?, streamId0: nat, input: Input,
                 ghost setup: Setup, ghost sent: History)
    returns (verdict: TurnVerdict, streamId: nat, ghost asked: seq<Asked>)
    requires driver.handler.Valid() && Linked(driver, second) && setup == SetupOf(driver, second, setup.system)
        && Plausible(setup, input)
    modifies driver.handler, driver.handler.bus
    ensures driver.handler.Valid() && asked == Asking(setup, sent, streamId0, input) && verdict == Final(setup, asked)
    ensures streamId == streamId0 + |asked|
    ensures driver.handler.bus.offered == old(driver.handler.bus.offered) + TurnRecords(setup, asked)
  {
    hide EventHandler.Valid, VerdictOf, EnoughWorlds, TurnRecords;
    streamId := streamId0 + 1;
    ghost var first;
    verdict, first := PutTo(driver, streamId, input.onPrimary, setup, sent);
    asked := [first];
    if verdict.Failover? {
      if second == null {
        verdict := Failed(Protocol(NoAlternative));
      } else {
        streamId := streamId + 1;
        ghost var next;
        verdict, next := PutTo(second, streamId, input.onSecond, setup, sent);
        RecordsJoin(setup, [first], [next]);
        asked := [first, next];
        assert asked == [first] + [next];
      }
    }
  }

  /** One line from the user. */
  method TakeLine(driver: OpenAiCompatDriver, second: OpenAiCompatDriver?, input: Input, history0: History,
      streamId0: nat,
                  ghost setup: Setup, ghost c: Chat)
    returns (history: History, streamId: nat, stop: Option<Stop>)
    requires driver.handler.Valid() && Linked(driver, second) && setup == SetupOf(driver, second, setup.system)
        && Plausible(setup, input)
    requires history0 == c.history && streamId0 == c.streamId && c.stop.None?
    modifies driver.handler, driver.handler.bus
    ensures driver.handler.Valid()
    ensures var d := Enter(setup, c, input);
            && history == d.history && streamId == d.streamId && stop == d.stop
            && c.asked <= d.asked
            && driver.handler.bus.offered == old(driver.handler.bus.offered) + TurnRecords(setup, d.asked[|c.asked|..])
  {
    hide EventHandler.Valid, Trim, Asking, Final, TurnRecords, Plausible, SystemOnly;
    history, streamId, stop := history0, streamId0, None;
    var text := Trim(input.line);
    NoTurns(setup, driver.handler.bus.offered, c.asked);
    if text == [] { return; }
    if text == QUIT || text == EXIT { stop := Some(Quit); return; }
    if text == RESET { history := SystemOnly(history); return; }
    history := history + [Message(User, text)];
    var verdict; ghost var asked;
    verdict, streamId, asked := Resolve(driver, second, streamId, input, setup, history);
    assert (c.asked + asked)[|c.asked|..] == asked;
    match verdict {
      case Committed(outcome) => history := history + [Message(Assistant, outcome.content)];
      case Failed(_) => history := history[..|history| - 1];
      case Failover(_) => stop := Some(Crashed);
    }
  }

  lemma NoTurns(setup: Setup, offered: Log, asked: seq<Asked>)
    ensures asked[|asked|..] == [] && offered + TurnRecords(setup, []) == offered
  {
  }

  lemma {:induction false} StopStays(setup: Setup, inputs: seq<Input>, n: nat)
    requires n <= |inputs| && forall i | 0 <= i < |inputs| :: Plausible(setup, inputs[i])
    requires AfterLines(setup, inputs[..n]).stop.Some?
    ensures AfterLines(setup, inputs) == AfterLines(setup, inputs[..n])
    decreases |inputs|
  {
    hide Enter, Plausible;
    if n == |inputs| {
      assert inputs[..n] == inputs;
    } else {
      assert inputs[..|inputs| - 1][..n] == inputs[..n];
      StopStays(setup, inputs[..|inputs| - 1], n);
    }
  }

  lemma {:induction false} OneMoreLine(setup: Setup, inputs: seq<Input>, i: nat)
    requires i < |inputs| && forall k | 0 <= k < |inputs| :: Plausible(setup, inputs[k])
    requires AfterLines(setup, inputs[..i]).stop.None?
    ensures AfterLines(setup, inputs[..i + 1]) == Enter(setup, AfterLines(setup, inputs[..i]), inputs[i])
  {
    hide Enter, Plausible;
    assert inputs[..i + 1][..i] == inputs[..i];
  }

  /** The prompt loop: until the input ends, the user quits, or the loop panics. */
  method Converse(driver: OpenAiCompatDriver, second: OpenAiCompatDriver?, system: Option<Bytes>, inputs: seq<Input>,
                  ghost setup: Setup)
    returns (history: History, streamId: nat, stop: Option<Stop>)
    requires driver.handler.Valid() && Linked(driver, second) && setup == SetupOf(driver, second, system)
    requires forall i | 0 <= i < |inputs| :: Plausible(setup, inputs[i])
    modifies driver.handler, driver.handler.bus
    ensures driver.handler.Valid()
    ensures var c := AfterLines(setup, inputs);
            && history == c.history && streamId == c.streamId && stop == c.stop
            && driver.handler.bus.offered == old(driver.handler.bus.offered) + TurnRecords(setup, c.asked)
  {
    hide EventHandler.Valid, Enter, Plausible, TurnRecords;
    history, streamId, stop := Head(system), 0, None;
    ghost var base := driver.handler.bus.offered;
    ghost var c := Opening(setup);
    NoTurns(setup, base, []);
    for i := 0 to |inputs|
      invariant c == AfterLines(setup, inputs[..i]) && c.stop.None? && stop.None?
      invariant history == c.history && streamId == c.streamId
      invariant driver.handler.Valid() && driver.handler.bus.offered == base + TurnRecords(setup, c.asked)
    {
      OneMoreLine(setup, inputs, i);
      driver.Await(driver.handler.bus.offered);
      ghost var d := Enter(setup, c, inputs[i]);
      history, streamId, stop := TakeLine(driver, second, inputs[i], history, streamId, setup, c);
      assert d.asked == c.asked + d.asked[|c.asked|..];
      RecordsJoin(setup, c.asked, d.asked[|c.asked|..]);
      c := d;
      if stop.Some? {
        StopStays(setup, inputs, i + 1);
        return;
      }
    }
    assert inputs[..|inputs|] == inputs;
  }

  /** The whole run, whatever turns the writer takes at the awaits. Unless the loop panics, every record the turns
      offered has by the end reached every sink, in order, or been counted as dropped, and the last drop report
      carries that count. */
  method RunProgram(driver: OpenAiCompatDriver, second: OpenAiCompatDriver?, system: Option<Bytes>, inputs: seq<Input>)
    returns (history: History, stop: Option<Stop>)
    requires driver.handler.Valid() && driver.handler.bus.offered == [] && Linked(driver, second)
    requires forall i | 0 <= i < |inputs| :: Plausible(SetupOf(driver, second, system), inputs[i])
    modifies driver.handler, driver.handler.bus
    ensures var c := AfterLines(SetupOf(driver, second, system), inputs); history == c.history && stop == c.stop
    ensures var bus := driver.handler.bus;
            && bus.Valid() && bus.offered == TurnRecords(SetupOf(driver, second, system),
               AfterLines(SetupOf(driver, second, system), inputs).asked)
            && (stop != Some(Crashed) ==>
                  && !bus.running && bus.queue == []
                  && Records(bus.stream) == Accepted(bus.offers) && Offered(bus.offers) == bus.offered
                  && LastReported(bus.stream) == bus.dropped == Rejected(bus.offers)
                  && forall j | 0 <= j < |bus.sinks| :: bus.sinks[j] == bus.stream)
  {
    hide AfterLines, TurnRecords, Plausible, Sound, CanRun, Run, Linked;
    ghost var setup := SetupOf(driver, second, system);
    var streamId;
    history, streamId, stop := Converse(driver, second, system, inputs, setup);
    if stop != Some(Crashed) {
      driver.handler.bus.CloseSender();
      var _ := driver.handler.bus.DrainAndExit();
    }
  }
}
