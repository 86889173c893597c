/** The emission bus (chat2/src/emission.rs) as a state machine: any number of emitters and one writer
    take their atomic actions in any order. `R` is the type of an ordinary record. */
module BusSystem {

  datatype Item<R> = Ordinary(r: R) | LatencySample | CaptureDrop(dropped: nat)

  /** Where an emitter is inside `emit`. */
  datatype Sender =
    | Ready
    | Refused  // `try_send` failed, the drop is not counted yet
    | Sent     // the record is queued or its drop counted; the emit counter is next
    | Sampling // every 256th emit also tries to queue a latency sample
    | Closed

  /** Where the writer is; a number says how many sinks already have the current item. */
  datatype Writer = Waiting | Writing(given: nat) | Checking | Reporting(given: nat) | Exited

  datatype Offer<R> = Offer(r: R, accepted: bool)

  /** `offers` and `stream` are history: everything offered, and everything the writer set out to write. */
  datatype Bus<R> = Bus(
    capacity: nat, queue: seq<Item<R>>, dropped: nat, emitCount: nat, senders: seq<Sender>,
    writer: Writer, lastReport: nat, sinks: seq<seq<Item<R>>>,
    offers: seq<Offer<R>>, stream: seq<Item<R>>)

  datatype Action<R> =
    | TrySend(i: nat, r: R)
    | CountDrop(i: nat)
    | CountEmit(i: nat)
    | TrySample(i: nat)
    | Close(i: nat)
    | Receive
    | WriteSink
    | LoadDrops
    | Exit

  const SAMPLE_EVERY: nat := 256

  predicate At<R>(b: Bus<R>, i: nat, pc: Sender) { i < |b.senders| && b.senders[i] == pc }

  predicate Enabled<R>(b: Bus<R>, a: Action<R>) {
    match a
    case TrySend(i, _) => At(b, i, Ready)
    case CountDrop(i) => At(b, i, Refused)
    case CountEmit(i) => At(b, i, Sent)
    case TrySample(i) => At(b, i, Sampling)
    case Close(i) => At(b, i, Ready)
    case Receive => b.writer == Waiting && b.queue != []
    case WriteSink => b.writer.Writing? || b.writer.Reporting?
    case LoadDrops => b.writer == Checking
    case Exit => b.writer == Waiting && b.queue == [] && forall i | 0 <= i < |b.senders| :: b.senders[i] == Closed
  }

  function Apply<R>(b: Bus<R>, a: Action<R>): Bus<R>
    requires Enabled(b, a)
  {
    match a
    case TrySend(i, r) =>
      if |b.queue| < b.capacity then
        b.(queue := b.queue + [Ordinary(r)], offers := b.offers + [Offer(r, true)], senders := b.senders[i := Sent])
      else
        b.(offers := b.offers + [Offer(r, false)], senders := b.senders[i := Refused])
    case CountDrop(i) => b.(dropped := b.dropped + 1, senders := b.senders[i := Sent])
    case CountEmit(i) =>
      var n := b.emitCount + 1;
      b.(emitCount := n, senders := b.senders[i := if n % SAMPLE_EVERY == 0 then Sampling else Ready])
    case TrySample(i) =>
      b.(queue := if |b.queue| < b.capacity then b.queue + [LatencySample] else b.queue,
         senders := b.senders[i := Ready])
    case Close(i) => b.(senders := b.senders[i := Closed])
    case Receive => b.(queue := b.queue[1..], stream := b.stream + [b.queue[0]], writer := Writing(0))
    case WriteSink =>
      var k := b.writer.given;
      if k < |b.sinks| && b.stream != [] then
        var given := b.sinks[k] + [b.stream[|b.stream| - 1]];
        b.(sinks := b.sinks[k := given],
           writer := if b.writer.Writing? then Writing(k + 1) else Reporting(k + 1))
      else
        b.(writer := if b.writer.Writing? then Checking else Waiting)
    case LoadDrops =>
      if b.dropped != b.lastReport then
        b.(lastReport := b.dropped, stream := b.stream + [CaptureDrop(b.dropped)], writer := Reporting(0))
      else b.(writer := Waiting)
    case Exit => b.(writer := Exited)
  }

  predicate CanRun<R>(b: Bus<R>, acts: seq<Action<R>>)
    decreases |acts|
  {
    acts == [] || (Enabled(b, acts[0]) && CanRun(Apply(b, acts[0]), acts[1..]))
  }

  function Run<R>(b: Bus<R>, acts: seq<Action<R>>): Bus<R>
    requires CanRun(b, acts)
    decreases |acts|
  {
    if acts == [] then b else Run(Apply(b, acts[0]), acts[1..])
  }

  function NewBus<R>(capacity: nat, senders: nat, sinks: nat): Bus<R> {
    Bus(capacity, [], 0, 0, seq(senders, _ => Ready), Waiting, 0, seq(sinks, _ => []), [], [])
  }

  lemma {:induction false} RunJoin<R>(b: Bus<R>, xs: seq<Action<R>>, ys: seq<Action<R>>)
    requires CanRun(b, xs) && CanRun(Run(b, xs), ys)
    ensures CanRun(b, xs + ys) && Run(b, xs + ys) == Run(Run(b, xs), ys)
    decreases |xs|
  {
    hide Apply, Enabled;
    if xs == [] {
      assert xs + ys == ys;
    } else {
      assert (xs + ys)[1..] == xs[1..] + ys;
      RunJoin(Apply(b, xs[0]), xs[1..], ys);
    }
  }

  // ---- conservation and order ----

  function Records<R>(items: seq<Item<R>>): seq<R> {
    if items == [] then []
    else Records(items[..|items| - 1]) + (match items[|items| - 1] { case Ordinary(r) => [r] case _ => [] })
  }

  function Accepted<R>(offers: seq<Offer<R>>): seq<R> {
    if offers == [] then []
    else
      var o := offers[|offers| - 1];
      Accepted(offers[..|offers| - 1]) + if o.accepted then [o.r] else []
  }

  function Rejected<R>(offers: seq<Offer<R>>): nat {
    if offers == [] then 0
    else Rejected(offers[..|offers| - 1]) + if offers[|offers| - 1].accepted then 0 else 1
  }

  function RefusedSenders(ss: seq<Sender>): nat {
    if ss == [] then 0
    else RefusedSenders(ss[..|ss| - 1]) + if ss[|ss| - 1] == Refused then 1 else 0
  }

  /** What a sink that already has the current item, or still lacks it, has been given. */
  ghost predicate SinkHas<R>(b: Bus<R>, j: nat)
    requires j < |b.sinks|
  {
    var lacks := match b.writer { case Writing(k) => j >= k case Reporting(k) => j >= k case _ => false };
    if lacks then b.stream != [] && b.sinks[j] == b.stream[..|b.stream| - 1]
    else b.sinks[j] == b.stream
  }

  ghost predicate Conserved<R>(b: Bus<R>) {
    && |b.queue| <= b.capacity
    && Accepted(b.offers) == Records(b.stream) + Records(b.queue)
    && Rejected(b.offers) == b.dropped + RefusedSenders(b.senders)
  }

  ghost predicate SinksAgree<R>(b: Bus<R>) {
    && (b.writer.Writing? || b.writer.Reporting? ==> b.writer.given <= |b.sinks| && b.stream != [])
    && forall j: nat | j < |b.sinks| :: SinkHas(b, j)
  }

  lemma {:induction false} RecordsJoin<R>(a: seq<Item<R>>, b: seq<Item<R>>)
    ensures Records(a + b) == Records(a) + Records(b)
    decreases |b|
  {
    if b == [] {
      assert a + b == a;
    } else {
      assert (a + b)[..|a + b| - 1] == a + b[..|b| - 1];
      RecordsJoin(a, b[..|b| - 1]);
    }
  }

  lemma {:induction false} RecordsOne<R>(x: Item<R>)
    ensures Records([x]) == match x { case Ordinary(r) => [r] case _ => [] }
  {
    assert [x][..0] == [];
  }

  lemma {:induction false} RefusedUpdate(ss: seq<Sender>, i: nat, pc: Sender)
    requires i < |ss|
    ensures RefusedSenders(ss[i := pc]) + (if ss[i] == Refused then 1 else 0)
         == RefusedSenders(ss) + (if pc == Refused then 1 else 0)
    decreases |ss|
  {
    var n := |ss| - 1;
    if i == n {
      assert ss[i := pc][..n] == ss[..n];
    } else {
      assert ss[i := pc][..n] == ss[..n][i := pc];
      RefusedUpdate(ss[..n], i, pc);
    }
  }

  lemma {:induction false} OfferOneMore<R>(offers: seq<Offer<R>>, o: Offer<R>)
    ensures Accepted(offers + [o]) == Accepted(offers) + if o.accepted then [o.r] else []
    ensures Rejected(offers + [o]) == Rejected(offers) + if o.accepted then 0 else 1
  {
    assert (offers + [o])[..|offers|] == offers;
  }

  lemma {:induction false} QueueOneMore<R>(stream: seq<Item<R>>, queue: seq<Item<R>>, x: Item<R>)
    ensures Records(stream) + Records(queue + [x]) == (Records(stream) + Records(queue)) + Records([x])
  {
    RecordsJoin(queue, [x]);
  }

  lemma {:induction false} MoveHead<R>(stream: seq<Item<R>>, queue: seq<Item<R>>)
    requires queue != []
    ensures Records(stream + [queue[0]]) + Records(queue[1..]) == Records(stream) + Records(queue)
  {
    RecordsJoin(stream, [queue[0]]);
    RecordsJoin([queue[0]], queue[1..]);
    assert [queue[0]] + queue[1..] == queue;
  }

  lemma {:induction false} SenderStepConserves<R>(b: Bus<R>, a: Action<R>)
    requires Conserved(b) && Enabled(b, a)
    requires a.TrySend? || a.CountDrop? || a.CountEmit? || a.TrySample? || a.Close?
    ensures Conserved(Apply(b, a))
  {
    hide Records, Accepted, Rejected, RefusedSenders;
    var c := Apply(b, a);
    RefusedUpdate(b.senders, a.i, c.senders[a.i]);
    assert c.senders == b.senders[a.i := c.senders[a.i]];
    if a.TrySend? {
      OfferOneMore(b.offers, c.offers[|b.offers|]);
      QueueOneMore(b.stream, b.queue, Ordinary(a.r));
      RecordsOne(Ordinary(a.r));
    } else if a.TrySample? {
      QueueOneMore(b.stream, b.queue, LatencySample);
      RecordsOne<R>(LatencySample);
    }
  }

  lemma {:induction false} WriterStepConserves<R>(b: Bus<R>, a: Action<R>)
    requires Conserved(b) && Enabled(b, a)
    requires a.Receive? || a.WriteSink? || a.LoadDrops? || a.Exit?
    ensures Conserved(Apply(b, a))
  {
    hide Records, Accepted, Rejected, RefusedSenders;
    if a.Receive? {
      MoveHead(b.stream, b.queue);
    } else if a.LoadDrops? {
      RecordsJoin(b.stream, [CaptureDrop(b.dropped)]);
      RecordsOne<R>(CaptureDrop(b.dropped));
    }
  }

  lemma {:induction false} StepKeepsSinks<R>(b: Bus<R>, a: Action<R>)
    requires SinksAgree(b) && Enabled(b, a)
    ensures SinksAgree(Apply(b, a))
  {
    var c := Apply(b, a);
    forall j: nat | j < |c.sinks| ensures SinkHas(c, j) {
      assert SinkHas(b, j);
      if a.Receive? || (a.LoadDrops? && b.dropped != b.lastReport) {
        assert c.stream[..|c.stream| - 1] == b.stream;
      } else if a.WriteSink? && b.writer.given < |b.sinks| && j == b.writer.given {
        assert b.stream[..|b.stream| - 1] + [b.stream[|b.stream| - 1]] == b.stream;
      }
    }
  }

  /** Over every run: accepted records are written or queued, in the order they were offered; the others
      are counted, or about to be; the queue is bounded; every sink is given the same stream. */
  lemma {:induction false} RunConserves<R>(b: Bus<R>, acts: seq<Action<R>>)
    requires Conserved(b) && SinksAgree(b) && CanRun(b, acts)
    ensures Conserved(Run(b, acts)) && SinksAgree(Run(b, acts))
    decreases |acts|
  {
    hide Apply, Enabled, Conserved, SinksAgree;
    if acts != [] {
      var a := acts[0];
      StepKeepsSinks(b, a);
      if a.TrySend? || a.CountDrop? || a.CountEmit? || a.TrySample? || a.Close? {
        SenderStepConserves(b, a);
      } else {
        WriterStepConserves(b, a);
      }
      RunConserves(Apply(b, a), acts[1..]);
    }
  }

  lemma {:induction false} NoneRefused(n: nat)
    ensures RefusedSenders(seq(n, _ => Ready)) == 0
    decreases n
  {
    if n > 0 {
      assert seq(n, _ => Ready)[..n - 1] == seq(n - 1, _ => Ready);
      NoneRefused(n - 1);
    }
  }

  lemma {:induction false} NewBusConserved<R>(capacity: nat, senders: nat, sinks: nat)
    ensures Conserved(NewBus<R>(capacity, senders, sinks)) && SinksAgree(NewBus<R>(capacity, senders, sinks))
  {
    NoneRefused(senders);
  }

  predicate Subsequence<R(==)>(a: seq<R>, b: seq<R>)
    decreases |b|
  {
    if b == [] then a == []
    else if a != [] && a[|a| - 1] == b[|b| - 1] then Subsequence(a[..|a| - 1], b[..|b| - 1])
    else Subsequence(a, b[..|b| - 1])
  }

  function Offered<R>(offers: seq<Offer<R>>): seq<R> {
    if offers == [] then [] else Offered(offers[..|offers| - 1]) + [offers[|offers| - 1].r]
  }

  lemma {:induction false} DropLast<R>(a: seq<R>, b: seq<R>)
    requires Subsequence(a, b) && a != []
    ensures Subsequence(a[..|a| - 1], b)
    decreases |b|
  {
    var a', b' := a[..|a| - 1], b[..|b| - 1];
    if a[|a| - 1] == b[|b| - 1] {
      assert Subsequence(a', b');
      if a' != [] && a'[|a'| - 1] == b[|b| - 1] { DropLast(a', b'); }
    } else {
      DropLast(a, b');
      if a' != [] && a'[|a'| - 1] == b[|b| - 1] { DropLast(a', b'); }
    }
  }

  lemma {:induction false} AcceptedInOrder<R>(offers: seq<Offer<R>>)
    ensures Subsequence(Accepted(offers), Offered(offers))
    decreases |offers|
  {
    if offers != [] {
      var init, o := offers[..|offers| - 1], offers[|offers| - 1];
      var a, b := Accepted(offers), Offered(offers);
      AcceptedInOrder(init);
      assert b[..|b| - 1] == Offered(init);
      if o.accepted {
        assert a[..|a| - 1] == Accepted(init);
      } else {
        assert a == Accepted(init);
        if a != [] && a[|a| - 1] == b[|b| - 1] { DropLast(a, Offered(init)); }
      }
    }
  }

  lemma {:induction false} SubsequencePrefix<R>(a: seq<R>, x: seq<R>, b: seq<R>)
    requires Subsequence(a + x, b)
    ensures Subsequence(a, b)
    decreases |x|
  {
    if x == [] {
      assert a + x == a;
    } else {
      DropLast(a + x, b);
      assert (a + x)[..|a + x| - 1] == a + x[..|x| - 1];
      SubsequencePrefix(a, x[..|x| - 1], b);
    }
  }

  lemma {:induction false} OfferedCount<R>(offers: seq<Offer<R>>)
    ensures |Offered(offers)| == |Accepted(offers)| + Rejected(offers) == |offers|
    decreases |offers|
  {
    if offers != [] { OfferedCount(offers[..|offers| - 1]); }
  }

  /** From a new bus, in any interleaving: what a sink has been given, without drop reports and latency
      samples, is an in-order part of what was offered, and every offer is accounted for. */
  lemma {:induction false} BusConservation<R>(capacity: nat, senders: nat, sinks: nat, acts: seq<Action<R>>)
    requires CanRun(NewBus<R>(capacity, senders, sinks), acts)
    ensures var b := Run(NewBus<R>(capacity, senders, sinks), acts);
            && |b.queue| <= capacity
            && Subsequence(Records(b.stream), Offered(b.offers))
            && |b.offers| == |Records(b.stream)| + |Records(b.queue)| + b.dropped + RefusedSenders(b.senders)
            && forall j: nat | j < |b.sinks| :: SinkHas(b, j)
  {
    var b0 := NewBus<R>(capacity, senders, sinks);
    NewBusConserved<R>(capacity, senders, sinks);
    RunConserves(b0, acts);
    CapacityFixed(b0, acts);
    var b := Run(b0, acts);
    hide Run, CanRun, NewBus, Subsequence, SinkHas, Records, RefusedSenders;
    AcceptedInOrder(b.offers);
    SubsequencePrefix(Records(b.stream), Records(b.queue), Offered(b.offers));
    OfferedCount(b.offers);
  }

  lemma {:induction false} CapacityFixed<R>(b: Bus<R>, acts: seq<Action<R>>)
    requires CanRun(b, acts)
    ensures Run(b, acts).capacity == b.capacity
    decreases |acts|
  {
    if acts != [] { CapacityFixed(Apply(b, acts[0]), acts[1..]); }
  }

  // ---- drop reports ----

  function LastReported<R>(items: seq<Item<R>>): nat {
    if items == [] then 0
    else match items[|items| - 1] { case CaptureDrop(d) => d case _ => LastReported(items[..|items| - 1]) }
  }

  /** Drops counted since the writer last looked at the counter, `n` of them before the run. */
  function Late<R>(n: nat, acts: seq<Action<R>>): nat
    decreases |acts|
  {
    if acts == [] then n
    else Late(LateAfter(n, acts[0]), acts[1..])
  }

  ghost predicate ReportsExact<R>(b: Bus<R>, late: nat) {
    && b.lastReport == LastReported(b.stream)
    && b.dropped == b.lastReport + late
  }

  function LateAfter<R>(late: nat, a: Action<R>): nat {
    if a.CountDrop? then late + 1 else if a.LoadDrops? then 0 else late
  }

  lemma {:induction false} ReportedOneMore<R>(items: seq<Item<R>>, x: Item<R>)
    ensures LastReported(items + [x]) == if x.CaptureDrop? then x.dropped else LastReported(items)
  {
    assert (items + [x])[..|items|] == items;
  }

  lemma {:induction false} StepReports<R>(b: Bus<R>, late: nat, a: Action<R>)
    requires ReportsExact(b, late) && NoReportsQueued(b) && Enabled(b, a)
    ensures ReportsExact(Apply(b, a), LateAfter(late, a)) && NoReportsQueued(Apply(b, a))
  {
    hide LastReported;
    if a.Receive? {
      ReportedOneMore(b.stream, b.queue[0]);
    } else if a.LoadDrops? {
      ReportedOneMore(b.stream, CaptureDrop(b.dropped));
    }
  }

  lemma {:induction false} RunReports<R>(b: Bus<R>, late: nat, acts: seq<Action<R>>)
    requires ReportsExact(b, late) && CanRun(b, acts) && NoReportsQueued(b)
    ensures ReportsExact(Run(b, acts), Late(late, acts))
    decreases |acts|
  {
    hide Apply, Enabled, ReportsExact, NoReportsQueued;
    if acts != [] {
      StepReports(b, late, acts[0]);
      RunReports(Apply(b, acts[0]), LateAfter(late, acts[0]), acts[1..]);
    }
  }

  /** Only the writer makes drop reports; none passes through the queue. */
  predicate NoReportsQueued<R>(b: Bus<R>) { forall i | 0 <= i < |b.queue| :: !b.queue[i].CaptureDrop? }

  /** Senders whose send had been refused, but not yet counted, when the writer last looked at the drop counter;
      `n` of them if it does not look in `acts`. */
  function RefusedAtLastLook<R>(b: Bus<R>, acts: seq<Action<R>>, n: nat): nat
    requires CanRun(b, acts)
    decreases |acts|
  {
    if acts == [] then n
    else RefusedAtLastLook(Apply(b, acts[0]), acts[1..], if acts[0].LoadDrops? then RefusedSenders(b.senders) else n)
  }

  /** Drops the writer has not seen are those it could not see at its last look, and others only while it must look
      again. */
  ghost predicate Unseen<R>(b: Bus<R>, late: nat, n: nat) {
    && b.capacity >= 1 && n <= late + RefusedSenders(b.senders)
    && (n == late + RefusedSenders(b.senders) || b.queue != [] || b.writer.Writing? || b.writer == Checking)
    && (b.writer == Exited ==> b.queue == [] && forall i | 0 <= i < |b.senders| :: b.senders[i] == Closed)
  }

  lemma {:induction false} StepUnseen<R>(b: Bus<R>, late: nat, n: nat, a: Action<R>)
    requires Unseen(b, late, n) && Enabled(b, a)
    ensures Unseen(Apply(b, a), LateAfter(late, a), if a.LoadDrops? then RefusedSenders(b.senders) else n)
  {
    hide RefusedSenders;
    if a.TrySend? || a.CountDrop? || a.CountEmit? || a.TrySample? || a.Close? {
      var c := Apply(b, a);
      RefusedUpdate(b.senders, a.i, c.senders[a.i]);
      assert c.senders == b.senders[a.i := c.senders[a.i]];
    }
  }

  lemma {:induction false} RunUnseen<R>(b: Bus<R>, late: nat, n: nat, acts: seq<Action<R>>)
    requires Unseen(b, late, n) && CanRun(b, acts)
    ensures Unseen(Run(b, acts), Late(late, acts), RefusedAtLastLook(b, acts, n))
    decreases |acts|
  {
    hide Unseen, Apply, Enabled;
    if acts != [] {
      StepUnseen(b, late, n, acts[0]);
      var m := if acts[0].LoadDrops? then RefusedSenders(b.senders) else n;
      RunUnseen(Apply(b, acts[0]), LateAfter(late, acts[0]), m, acts[1..]);
    }
  }

  lemma {:induction false} NothingUnseen<R>(capacity: nat, senders: nat, sinks: nat)
    requires capacity >= 1
    ensures Unseen(NewBus<R>(capacity, senders, sinks), 0, 0)
  {
    NoneRefused(senders);
  }

  /** Once the writer has exited, its last report is the number of records refused exactly when, at its last look at the
      drop counter, no sender stood between a refused send and its count. */
  lemma {:induction false} FinalReportIff<R>(capacity: nat, senders: nat, sinks: nat, acts: seq<Action<R>>)
    requires capacity >= 1 && CanRun(NewBus<R>(capacity, senders, sinks), acts)
    requires Run(NewBus<R>(capacity, senders, sinks), acts).writer == Exited
    ensures var b0 := NewBus<R>(capacity, senders, sinks);
            LastReported(Run(b0, acts).stream) == Rejected(Run(b0, acts).offers) <==>
            RefusedAtLastLook(b0, acts, 0) == 0
  {
    var b0 := NewBus<R>(capacity, senders, sinks);
    NothingUnseen<R>(capacity, senders, sinks);
    RunUnseen(b0, 0, 0, acts);
    RunReports(b0, 0, acts);
    NewBusConserved<R>(capacity, senders, sinks);
    RunConserves(b0, acts);
    NoRefusals(Run(b0, acts).senders);
  }

  predicate Undivided<R>(b: Bus<R>, acts: seq<Action<R>>)
    requires CanRun(b, acts)
    decreases |acts|
  {
    acts == [] ||
    (&& (forall i | 0 <= i < |b.senders| && b.senders[i] == Refused :: acts[0] == CountDrop(i))
     && Undivided(Apply(b, acts[0]), acts[1..]))
  }

  /** A counted drop is on its way to a report: something is still queued, or the writer has yet to look. */
  ghost predicate WillReport<R>(b: Bus<R>) {
    && b.capacity >= 1
    && ((exists i | 0 <= i < |b.senders| :: b.senders[i] == Refused) ==> b.queue != [])
    && (b.dropped == b.lastReport || b.queue != [] || b.writer.Writing? || b.writer == Checking)
    && (b.writer == Exited ==> b.queue == [] && forall i | 0 <= i < |b.senders| :: b.senders[i] == Closed)
  }

  lemma StepWillReport<R>(b: Bus<R>, a: Action<R>)
    requires WillReport(b) && Enabled(b, a)
    requires forall i | 0 <= i < |b.senders| && b.senders[i] == Refused :: a == CountDrop(i)
    ensures WillReport(Apply(b, a))
  {
  }

  lemma {:induction false} UndividedLooks<R>(b: Bus<R>, acts: seq<Action<R>>)
    requires CanRun(b, acts) && Undivided(b, acts)
    ensures RefusedAtLastLook(b, acts, 0) == 0
    decreases |acts|
  {
    hide Apply, Enabled;
    if acts != [] {
      UndividedLooks(Apply(b, acts[0]), acts[1..]);
      if acts[0].LoadDrops? { NoRefusals(b.senders); }
    }
  }

  lemma {:induction false} NoRefusals(ss: seq<Sender>)
    requires forall i | 0 <= i < |ss| :: ss[i] != Refused
    ensures RefusedSenders(ss) == 0
    decreases |ss|
  {
    if ss != [] { NoRefusals(ss[..|ss| - 1]); }
  }

  /** Emitters and the writer on one thread cannot come between a refused send and its count. Then, once
      the writer has exited, the last report that every sink was given is the number of records refused. */
  lemma {:induction false} NoDropUnreported<R>(capacity: nat, senders: nat, sinks: nat, acts: seq<Action<R>>)
    requires capacity >= 1
    requires CanRun(NewBus<R>(capacity, senders, sinks), acts)
    requires Undivided(NewBus<R>(capacity, senders, sinks), acts)
    requires Run(NewBus<R>(capacity, senders, sinks), acts).writer == Exited
    ensures var b := Run(NewBus<R>(capacity, senders, sinks), acts);
            && LastReported(b.stream) == Rejected(b.offers)
            && forall j: nat | j < |b.sinks| :: b.sinks[j] == b.stream
  {
    var b0 := NewBus<R>(capacity, senders, sinks);
    UndividedLooks(b0, acts);
    FinalReportIff<R>(capacity, senders, sinks, acts);
    NewBusConserved<R>(capacity, senders, sinks);
    RunConserves(b0, acts);
    var b := Run(b0, acts);
    forall j: nat | j < |b.sinks| ensures b.sinks[j] == b.stream { assert SinkHas(b, j); }
  }

  lemma Stay<R>(b: Bus<R>)
    ensures CanRun(b, []) && Run(b, []) == b
  {
  }

  lemma Chain<R>(b: Bus<R>, acts: seq<Action<R>>, c: Bus<R>)
    requires acts != [] && Enabled(b, acts[0]) && Apply(b, acts[0]) == c && CanRun(c, acts[1..])
    ensures CanRun(b, acts) && Run(b, acts) == Run(c, acts[1..])
  {
  }
}
