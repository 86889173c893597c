/** The event handler: per-stream state, refinement and strategy (chat2/src/event_handler.rs). */
module Handler {
  import opened Text
  import opened Vocabulary
  import opened Machine
  import opened Refinement
  import opened Emission

  type Log = seq<EmissionRecord>

  const U32: nat := 0x1_0000_0000

  datatype FlowDirective = Continue | StopComplete | Abort | ProtocolFault(detail: Detail)

  datatype FaultDirective = RetrySameEndpoint | GoToFailover | GiveUp

  /** The retries a turn is granted, and whether there is an alternative to fail over to. */
  datatype Strategy = Strategy(allowance: nat, knowsFailover: bool)

  /** A stream's state as a value; `fed` is what its machine has been fed in this attempt. */
  datatype StreamView = StreamView(
    stream: StreamId, attempt: nat, fed: seq<DriverEvent>, installments: nat, events: nat, normErrors: nat,
    readCount: nat, contentBytes: nat, sawAnyContent: bool)

  datatype Taken = Taken(st: StreamView, log: Log, directive: FlowDirective)

  function TextBytes(evs: seq<DriverEvent>): nat {
    if evs == [] then 0
    else TextBytes(evs[..|evs| - 1]) + (match evs[|evs| - 1] { case TextDelta(t) => |t| case _ => 0 })
  }

  function EventRecords(st: StreamView, seqNo: nat, evs: seq<DriverEvent>): Log {
    seq(|evs|, i requires 0 <= i < |evs| => NormalizedEvent(st.stream, st.attempt, seqNo, evs[i]))
  }

  function ToolCallNotes(st: StreamView, n: nat): Log { seq(n, _ => Wire(st.stream, st.attempt, UnhandledToolCalls)) }

  function Accepting(st: StreamView, evs: seq<DriverEvent>): StreamView {
    st.(fed := st.fed + evs, installments := st.installments + 1, events := st.events + |evs|,
        contentBytes := st.contentBytes + TextBytes(evs), sawAnyContent := st.sawAnyContent || HasText(evs))
  }

  /** The effect of one installment on the stream and what it offers to the bus. */
  function TakeInstallment(decode: Decoder, st: StreamView, seqNo: nat, kind: InstallmentKind, payload: Bytes): Taken {
    if kind == CommentKind then Taken(st, [], Continue)
    else
      match Judge(decode, payload)
      case Reject(detail, counted) =>
        Taken(if counted then st.(normErrors := st.normErrors + 1) else st,
              [NormalizationError(st.stream, st.attempt, seqNo, detail)], ProtocolFault(detail))
      case Accept(evs, toolCalls, done) =>
        Taken(Accepting(st, evs), ToolCallNotes(st, toolCalls) + EventRecords(st, seqNo, evs),
              if done then StopComplete else Continue)
  }

  function AnomalyRecords(st: StreamView): Log {
    var found := AnomaliesOf(st.fed);
    seq(|found|, i requires 0 <= i < |found| => AnomalySeen(st.stream, st.attempt, found[i]))
  }

  class StreamState {
    const streamId: StreamId
    var attempt: nat
    var machine: StreamMachine
    var installments: nat
    var events: nat
    var normErrors: nat
    var readCount: nat
    var contentBytes: nat
    var sawAnyContent: bool

    ghost predicate Valid()
      reads this, machine
    {
      machine.Valid()
    }

    ghost function View(): StreamView
      reads this, machine
    {
      StreamView(streamId, attempt, machine.fed, installments, events, normErrors, readCount, contentBytes,
          sawAnyContent)
    }

    constructor (streamId: StreamId)
      ensures Valid() && fresh(machine)
      ensures View() == NewStream(streamId)
    {
      this.streamId := streamId;
      attempt, installments, events, normErrors, readCount, contentBytes := 0, 0, 0, 0, 0, 0;
      sawAnyContent := false;
      machine := new StreamMachine();
    }

    /** A new attempt starts with a new machine; the turn's counters, and whether it ever saw text, carry over. */
    method BeginAttempt() returns (n: nat)
      requires Valid()
      modifies this
      ensures Valid() && fresh(machine)
      ensures n == old(attempt) + 1
      ensures View() == NextAttempt(old(View()))
    {
      attempt := attempt + 1;
      machine := new StreamMachine();
      return attempt;
    }
  }

  function NewStream(streamId: StreamId): StreamView { StreamView(streamId, 0, [], 0, 0, 0, 0, 0, false) }

  function NextAttempt(st: StreamView): StreamView { st.(attempt := st.attempt + 1, fed := []) }

  /** The strategy on a wire fault: spend the allowance first, then fail over if there is an alternative. */
  function FaultStrategy(remaining: nat, knowsFailover: bool): FaultDirective {
    if remaining > 0 then RetrySameEndpoint else if knowsFailover then GoToFailover else GiveUp
  }

  class EventHandler {
    const bus: EmissionBus
    const decode: Decoder
    const retryAllowancePerTurn: nat
    const knowsFailoverExists: bool
    var sendBuckets: nat

    ghost predicate Valid()
      reads this, bus
    {
      bus.Valid() && bus.open && bus.running && sendBuckets < U32
    }

    constructor (bus: EmissionBus, decode: Decoder, sendBuckets: nat, retryAllowancePerTurn: nat,
        knowsFailoverExists: bool)
      requires bus.Valid() && bus.open && bus.running && sendBuckets < U32
      ensures Valid() && this.bus == bus && this.decode == decode && this.sendBuckets == sendBuckets
      ensures this.retryAllowancePerTurn == retryAllowancePerTurn && this.knowsFailoverExists == knowsFailoverExists
    {
      this.bus, this.decode, this.sendBuckets := bus, decode, sendBuckets;
      this.retryAllowancePerTurn, this.knowsFailoverExists := retryAllowancePerTurn, knowsFailoverExists;
    }

    method BeginStream(streamId: StreamId) returns (st: StreamState)
      requires Valid()
      modifies bus
      ensures Valid() && fresh(st) && fresh(st.machine) && st.Valid() && st.View() == NewStream(streamId)
      ensures bus.offered == old(bus.offered) + [Ledger(streamId, 0, RetryAllowanceGranted(retryAllowancePerTurn))]
    {
      bus.Emit(Ledger(streamId, 0, RetryAllowanceGranted(retryAllowancePerTurn)));
      st := new StreamState(streamId);
    }

    /** Takes a bucket if there is one; with none it is refused at once, never made to wait. */
    method AcquireSendBucket(stream: StreamId, attempt: nat) returns (ok: bool)
      requires Valid()
      modifies this, bus
      ensures Valid() && ok == (old(sendBuckets) > 0)
      ensures sendBuckets == if ok then old(sendBuckets) - 1 else 0
      ensures bus.offered == old(bus.offered) +
                [Ledger(stream, attempt, if ok then SendBucketSpent(sendBuckets) else SendBucketDenied)]
    {
      if sendBuckets > 0 {
        sendBuckets := sendBuckets - 1;
        bus.Emit(Ledger(stream, attempt, SendBucketSpent(sendBuckets)));
        return true;
      }
      bus.Emit(Ledger(stream, attempt, SendBucketDenied));
      return false;
    }

    /** The counter is 32 bits wide and wraps. */
    method ReturnSendBucket(stream: StreamId, attempt: nat)
      requires Valid()
      modifies this, bus
      ensures Valid() && sendBuckets == (old(sendBuckets) + 1) % U32
      ensures bus.offered == old(bus.offered)
          + [Ledger(stream, attempt, SendBucketReturned((old(sendBuckets) + 1) % U32))]
    {
      sendBuckets := (sendBuckets + 1) % U32;
      bus.Emit(Ledger(stream, attempt, SendBucketReturned(sendBuckets)));
    }

    method OnWireFault(stream: StreamId, attempt: nat, remaining: nat) returns (d: FaultDirective, remaining': nat)
      requires Valid()
      modifies bus
      ensures Valid() && d == FaultStrategy(remaining, knowsFailoverExists)
      ensures remaining' == if remaining > 0 then remaining - 1 else 0
      ensures bus.offered == old(bus.offered) +
                if remaining > 0 then [Ledger(stream, attempt, RetryAllowanceSpent(remaining'))] else []
    {
      remaining' := remaining;
      if remaining' > 0 {
        remaining' := remaining' - 1;
        bus.Emit(Ledger(stream, attempt, RetryAllowanceSpent(remaining')));
        return RetrySameEndpoint, remaining';
      }
      d := if knowsFailoverExists then GoToFailover else GiveUp;
    }

    method OnInstallment(st: StreamState, seqNo: nat, kind: InstallmentKind, payload: Bytes) returns (d: FlowDirective)
      requires Valid() && st.Valid()
      modifies bus, st, st.machine
      ensures Valid() && st.Valid() && st.machine == old(st.machine)
      ensures var t := TakeInstallment(decode, old(st.View()), seqNo, kind, payload);
              && d == t.directive && st.View() == t.st && bus.offered == old(bus.offered) + t.log
    {
      if kind == CommentKind {
        return Continue;
      }
      hide EmissionBus.Valid, StreamMachine.Valid, Judge, Normalization, Accepting, EventRecords, ToolCallNotes;
      JudgeNormal(decode, payload);
      var norm := Normalize(decode, payload);
      match norm {
        case Abnormal(detail) =>
          st.normErrors := st.normErrors + 1;
          Refuse(st, seqNo, detail);
          return ProtocolFault(detail);
        case Normal(_, _, Some(n)) =>
          Refuse(st, seqNo, ManyChoices(n));
          return ProtocolFault(ManyChoices(n));
        case Normal(events, toolCalls, None) =>
          var sawDone := AcceptEvents(st, seqNo, events, toolCalls);
          return if sawDone then StopComplete else Continue;
      }
    }

    method Refuse(st: StreamState, seqNo: nat, detail: Detail)
      requires Valid() && st.Valid()
      modifies bus
      ensures Valid() && st.Valid() && bus.offered == old(bus.offered)
          + [NormalizationError(st.streamId, st.attempt, seqNo, detail)]
    {
      hide EmitRan, EmissionBus.Valid, StreamMachine.Valid;
      bus.Emit(NormalizationError(st.streamId, st.attempt, seqNo, detail));
    }

    method AcceptEvents(st: StreamState, seqNo: nat, events: seq<DriverEvent>, toolCalls: nat) returns (sawDone: bool)
      requires Valid() && st.Valid()
      modifies bus, st, st.machine
      ensures Valid() && st.Valid() && st.machine == old(st.machine)
      ensures st.View() == Accepting(old(st.View()), events)
      ensures sawDone == (Done in events)
      ensures bus.offered == old(bus.offered) +
                (ToolCallNotes(old(st.View()), toolCalls) + EventRecords(old(st.View()), seqNo, events))
    {
      hide EmitRan, EmissionBus.Valid, HasText, TextBytes, AnomaliesOf, ContentOf, FirstFinish, LastUsage;
      var stream, attempt := st.streamId, st.attempt;
      bus.EmitAll(seq(toolCalls, _ => Wire(stream, attempt, UnhandledToolCalls)));
      st.installments := st.installments + 1;
      st.events := st.events + |events|;
      sawDone := FeedAll(st, events);
      bus.EmitAll(seq(|events|, i requires 0 <= i < |events| => NormalizedEvent(stream, attempt, seqNo, events[i])));
    }

    method FeedAll(st: StreamState, events: seq<DriverEvent>) returns (sawDone: bool)
      requires st.Valid()
      modifies st`contentBytes, st`sawAnyContent, st.machine
      ensures st.Valid() && st.machine == old(st.machine)
      ensures st.machine.fed == old(st.machine.fed) + events
      ensures st.contentBytes == old(st.contentBytes) + TextBytes(events)
      ensures st.sawAnyContent == (old(st.sawAnyContent) || HasText(events))
      ensures sawDone == (Done in events)
    {
      hide ContentOf, FirstFinish, LastUsage, AnomaliesOf, HasText;
      NoText();
      sawDone := false;
      for i := 0 to |events|
        invariant st.Valid() && st.machine == old(st.machine)
        invariant st.machine.fed == old(st.machine.fed) + events[..i]
        invariant st.contentBytes == old(st.contentBytes) + TextBytes(events[..i])
        invariant st.sawAnyContent == (old(st.sawAnyContent) || HasText(events[..i]))
        invariant sawDone == (Done in events[..i])
      {
        var ev := events[i];
        st.machine.Feed(ev);
        assert events[..i + 1] == events[..i] + [ev];
        assert events[..i + 1][..i] == events[..i];
        HasTextOneMore(events[..i], ev);
        if ev.TextDelta? {
          st.contentBytes := st.contentBytes + |ev.text|;
          st.sawAnyContent := true;
        }
        if ev == Done {
          sawDone := true;
        }
      }
      assert events[..|events|] == events;
    }

    method FinalizeAttempt(st: StreamState, cause: EndCause) returns (r: TurnResolution)
      requires Valid() && st.Valid()
      modifies bus, st
      ensures Valid() && st.Valid() && fresh(st.machine)
      ensures r == Verdict(old(st.machine.fed), cause)
      ensures st.View() == old(st.View()).(fed := [])
      ensures bus.offered == old(bus.offered) + AnomalyRecords(old(st.View()))
    {
      hide EmitRan, EmissionBus.Valid, Verdict, ContentOf, FirstFinish, LastUsage;
      ghost var st0 := st.View();
      var machine := st.machine;
      st.machine := new StreamMachine();
      var stream, attempt, found := st.streamId, st.attempt, machine.anomalies;
      bus.EmitAll(seq(|found|, i requires 0 <= i < |found| => AnomalySeen(stream, attempt, found[i])));
      r := machine.Finalize(cause);
    }
  }

  lemma NoText()
    ensures !HasText([])
  {
  }

  lemma JudgeNormal(decode: Decoder, data: Bytes)
    ensures Judge(decode, data) ==
            match Normalization(decode, data)
            case Abnormal(detail) => Reject(detail, true)
            case Normal(evs, calls, multiple) =>
              if multiple.Some? then Reject(ManyChoices(multiple.value), false) else Accept(evs, calls, Done in evs)
  {
  }

  lemma {:induction false} HasTextOneMore(evs: seq<DriverEvent>, ev: DriverEvent)
    ensures HasText(evs + [ev]) <==> HasText(evs) || ev.TextDelta?
  {
    var more := evs + [ev];
    if HasText(evs) {
      var i :| 0 <= i < |evs| && evs[i].TextDelta?;
      assert more[i].TextDelta?;
    }
    if ev.TextDelta? { assert more[|evs|].TextDelta?; }
  }
}
