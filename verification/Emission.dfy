/** The bus object as the program uses it: `emit` runs to its end on the one thread, and the writer drains
    after the last sender is gone (chat2/src/emission.rs:133-203). */
module Emission {
  import opened Vocabulary
  import opened BusSystem

  type Acts = seq<Action<EmissionRecord>>

  function OfferActs(b: Bus<EmissionRecord>, rec: EmissionRecord): Acts {
    if |b.queue| < b.capacity then [TrySend(0, rec)] else [TrySend(0, rec), CountDrop(0)]
  }

  function CountActs(b: Bus<EmissionRecord>): Acts {
    if (b.emitCount + 1) % SAMPLE_EVERY == 0 then [CountEmit(0), TrySample(0)] else [CountEmit(0)]
  }

  /** One whole call of `emit`, as actions of the bus. */
  function EmitActs(b: Bus<EmissionRecord>, rec: EmissionRecord): Acts { OfferActs(b, rec) + CountActs(b) }

  lemma {:induction false} OneAction(b: Bus<EmissionRecord>, a: Action<EmissionRecord>)
    requires Enabled(b, a)
    ensures CanRun(b, [a]) && Run(b, [a]) == Apply(b, a)
  {
    Stay(Apply(b, a));
    Chain(b, [a], Apply(b, a));
  }

  lemma {:induction false} TwoRuns(b: Bus<EmissionRecord>, xs: Acts, c: Bus<EmissionRecord>, ys: Acts,
      d: Bus<EmissionRecord>)
    requires CanRun(b, xs) && Run(b, xs) == c && CanRun(c, ys) && Run(c, ys) == d
    ensures CanRun(b, xs + ys) && Run(b, xs + ys) == d
  {
    RunJoin(b, xs, ys);
  }

  /** The state after a whole `emit` of an idle sender. */
  function Emitted(b: Bus<EmissionRecord>, rec: EmissionRecord): Bus<EmissionRecord> {
    var room := |b.queue| < b.capacity;
    var q := if room then b.queue + [Ordinary(rec)] else b.queue;
    var sample := (b.emitCount + 1) % SAMPLE_EVERY == 0 && |q| < b.capacity;
    b.(queue := if sample then q + [LatencySample] else q, dropped := if room then b.dropped else b.dropped + 1,
       emitCount := b.emitCount + 1, offers := b.offers + [Offer(rec, room)])
  }

  /** The state after the send, and the count if it was refused. */
  function Offering(b: Bus<EmissionRecord>, rec: EmissionRecord): Bus<EmissionRecord>
    requires |b.senders| > 0
  {
    var room := |b.queue| < b.capacity;
    b.(queue := if room then b.queue + [Ordinary(rec)] else b.queue,
       dropped := if room then b.dropped else b.dropped + 1,
       offers := b.offers + [Offer(rec, room)], senders := b.senders[0 := Sent])
  }

  lemma {:induction false} AcceptRuns(b: Bus<EmissionRecord>, rec: EmissionRecord)
    requires At(b, 0, Ready) && |b.queue| < b.capacity
    ensures CanRun(b, OfferActs(b, rec)) && Run(b, OfferActs(b, rec)) == Offering(b, rec)
  {
    hide Run, CanRun;
    assert Apply(b, TrySend(0, rec)) == Offering(b, rec);
    OneAction(b, TrySend(0, rec));
  }

  lemma {:induction false} RefuseRuns(b: Bus<EmissionRecord>, rec: EmissionRecord)
    requires At(b, 0, Ready) && |b.queue| >= b.capacity
    ensures CanRun(b, OfferActs(b, rec)) && Run(b, OfferActs(b, rec)) == Offering(b, rec)
  {
    hide Run, CanRun;
    var d := b.(offers := b.offers + [Offer(rec, false)], senders := b.senders[0 := Refused]);
    assert Apply(b, TrySend(0, rec)) == d;
    assert Apply(d, CountDrop(0)) == Offering(b, rec);
    OneAction(d, CountDrop(0));
    Chain(b, OfferActs(b, rec), d);
  }

  lemma {:induction false} CountRuns(b: Bus<EmissionRecord>, c: Bus<EmissionRecord>)
    requires At(b, 0, Sent)
    requires var sample := (b.emitCount + 1) % SAMPLE_EVERY == 0;
             c == b.(emitCount := b.emitCount + 1, senders := b.senders[0 := Ready],
                     queue := if sample && |b.queue| < b.capacity then b.queue + [LatencySample] else b.queue)
    ensures CanRun(b, CountActs(b)) && Run(b, CountActs(b)) == c
  {
    hide Run, CanRun;
    var d := Apply(b, CountEmit(0));
    if (b.emitCount + 1) % SAMPLE_EVERY == 0 {
      assert At(d, 0, Sampling);
      assert Apply(d, TrySample(0)) == c;
      OneAction(d, TrySample(0));
      Chain(b, CountActs(b), d);
    } else {
      assert At(d, 0, Ready);
      OneAction(b, CountEmit(0));
    }
  }

  lemma SameCount(b: Bus<EmissionRecord>, c: Bus<EmissionRecord>)
    requires b.emitCount == c.emitCount
    ensures CountActs(b) == CountActs(c)
  {
  }

  lemma {:induction false} EmitRuns(b: Bus<EmissionRecord>, rec: EmissionRecord)
    requires At(b, 0, Ready)
    ensures CanRun(b, EmitActs(b, rec)) && Run(b, EmitActs(b, rec)) == Emitted(b, rec)
  {
    hide Run, CanRun, Apply, Enabled, OfferActs, CountActs;
    if |b.queue| < b.capacity { AcceptRuns(b, rec); } else { RefuseRuns(b, rec); }
    var c := Offering(b, rec);
    assert CountActs(c) == CountActs(b) by { SameCount(b, c); }
    CountRuns(c, Emitted(b, rec));
    TwoRuns(b, OfferActs(b, rec), c, CountActs(b), Emitted(b, rec));
  }

  /** Actions that give the current item to `n` sinks and move on. */
  function WriteActs(n: nat): Acts { seq(n + 1, _ => WriteSink) }

  function Given(sinks: seq<seq<Item<EmissionRecord>>>, k: nat,
      item: Item<EmissionRecord>): seq<seq<Item<EmissionRecord>>> {
    seq(|sinks|, j requires 0 <= j < |sinks| => if j >= k then sinks[j] + [item] else sinks[j])
  }

  lemma {:induction false} FanOut(b: Bus<EmissionRecord>, k: nat)
    requires (b.writer == Writing(k) || b.writer == Reporting(k)) && k <= |b.sinks| && b.stream != []
    ensures var c := b.(sinks := Given(b.sinks, k, b.stream[|b.stream| - 1]),
                        writer := if b.writer.Writing? then Checking else Waiting);
            CanRun(b, WriteActs(|b.sinks| - k)) && Run(b, WriteActs(|b.sinks| - k)) == c
    decreases |b.sinks| - k
  {
    hide Run, CanRun;
    var item := b.stream[|b.stream| - 1];
    if k == |b.sinks| {
      assert Given(b.sinks, k, item) == b.sinks;
      OneAction(b, WriteSink);
      assert WriteActs(0) == [WriteSink];
    } else {
      var d := Apply(b, WriteSink);
      FanOut(d, k + 1);
      assert Given(d.sinks, k + 1, item) == Given(b.sinks, k, item);
      assert WriteActs(|b.sinks| - k)[1..] == WriteActs(|b.sinks| - k - 1);
      Chain(b, WriteActs(|b.sinks| - k), d);
    }
  }

  /** The writer takes the next item, gives it to every sink and looks at the drop counter. */
  function Taken(b: Bus<EmissionRecord>): Bus<EmissionRecord>
    requires b.queue != []
  {
    b.(queue := b.queue[1..], stream := b.stream + [b.queue[0]], sinks := Given(b.sinks, 0, b.queue[0]))
  }

  function Reported(b: Bus<EmissionRecord>): Bus<EmissionRecord> {
    if b.dropped == b.lastReport then b
    else b.(lastReport := b.dropped, stream := b.stream + [CaptureDrop(b.dropped)],
            sinks := Given(b.sinks, 0, CaptureDrop(b.dropped)))
  }

  function TurnActs(b: Bus<EmissionRecord>): Acts {
    [Receive] + WriteActs(|b.sinks|) + [LoadDrops] + if b.dropped == b.lastReport then [] else WriteActs(|b.sinks|)
  }

  lemma {:induction false} TakeRuns(b: Bus<EmissionRecord>)
    requires b.writer == Waiting && b.queue != []
    ensures CanRun(b, [Receive] + WriteActs(|b.sinks|))
    ensures Run(b, [Receive] + WriteActs(|b.sinks|)) == Taken(b).(writer := Checking)
  {
    hide Run, CanRun;
    var c := Apply(b, Receive);
    FanOut(c, 0);
    var acts: Acts := [Receive] + WriteActs(|b.sinks|);
    assert acts[1..] == WriteActs(|b.sinks|);
    Chain(b, acts, c);
  }

  lemma {:induction false} ReportRuns(b: Bus<EmissionRecord>)
    requires b.writer == Checking
    ensures var acts: Acts := [LoadDrops] + if b.dropped == b.lastReport then [] else WriteActs(|b.sinks|);
            CanRun(b, acts) && Run(b, acts) == Reported(b).(writer := Waiting)
  {
    hide Run, CanRun;
    var c := Apply(b, LoadDrops);
    if b.dropped == b.lastReport {
      OneAction(b, LoadDrops);
      var one: Acts := [LoadDrops];
      assert one + [] == one;
    } else {
      FanOut(c, 0);
      var acts: Acts := [LoadDrops] + WriteActs(|b.sinks|);
      assert acts[1..] == WriteActs(|b.sinks|);
      Chain(b, acts, c);
    }
  }

  lemma {:induction false} TurnRuns(b: Bus<EmissionRecord>)
    requires b.writer == Waiting && b.queue != []
    ensures CanRun(b, TurnActs(b)) && Run(b, TurnActs(b)) == Reported(Taken(b))
  {
    hide Run, CanRun;
    var c := Taken(b).(writer := Checking);
    var ys: Acts := [LoadDrops] + if b.dropped == b.lastReport then [] else WriteActs(|b.sinks|);
    TakeRuns(b);
    ReportRuns(c);
    TwoRuns(b, [Receive] + WriteActs(|b.sinks|), c, ys, Reported(c).(writer := Waiting));
    assert TurnActs(b) == ([Receive] + WriteActs(|b.sinks|)) + ys;
  }

  ghost predicate EmitRan(b: Bus<EmissionRecord>, rec: EmissionRecord, c: Bus<EmissionRecord>) {
    CanRun(b, EmitActs(b, rec)) && Run(b, EmitActs(b, rec)) == c
  }

  /** What every method of the bus keeps: the invariants of `BusSystem`, between whole calls. */
  ghost predicate Sound(b: Bus<EmissionRecord>) {
    && Conserved(b) && SinksAgree(b) && WillReport(b) && NoReportsQueued(b)
    && b.lastReport == LastReported(b.stream) <= b.dropped
  }

  lemma {:induction false} OfferedOneMore(offers: seq<Offer<EmissionRecord>>, o: Offer<EmissionRecord>)
    ensures Offered(offers + [o]) == Offered(offers) + [o.r]
  {
    assert (offers + [o])[..|offers|] == offers;
  }

  lemma {:induction false} EmitKeepsSound(b: Bus<EmissionRecord>, rec: EmissionRecord)
    requires Sound(b) && b.senders == [Ready]
    ensures Sound(Emitted(b, rec))
  {
    hide CanRun, Run, Conserved, SinksAgree, LastReported, EmitActs;
    EmitRuns(b, rec);
    RunConserves(b, EmitActs(b, rec));
    assert b.senders[0] == Ready;
  }

  lemma {:induction false} TurnKeepsSound(b: Bus<EmissionRecord>)
    requires Sound(b) && (b.senders == [Ready] || b.senders == [Closed]) && b.writer == Waiting && b.queue != []
    ensures Sound(Reported(Taken(b)))
  {
    hide CanRun, Run, Conserved, SinksAgree, LastReported, TurnActs;
    TurnRuns(b);
    RunConserves(b, TurnActs(b));
    ReportedOneMore(b.stream, b.queue[0]);
    ReportedOneMore(b.stream + [b.queue[0]], CaptureDrop(b.dropped));
  }

  lemma {:induction false} ExitKeepsSound(b: Bus<EmissionRecord>)
    requires Sound(b) && b.senders == [Closed] && b.writer == Waiting && b.queue == []
    ensures Enabled(b, Exit) && Sound(Apply(b, Exit))
    ensures LastReported(b.stream) == b.dropped == Rejected(b.offers)
    ensures Records(b.stream) == Accepted(b.offers)
    ensures forall j | 0 <= j < |b.sinks| :: b.sinks[j] == b.stream
  {
    WriterStepConserves(b, Exit);
    StepKeepsSinks(b, Exit);
    NoRefusals([Closed]);
    assert Records(b.queue) == [];
    forall j: nat | j < |b.sinks| ensures b.sinks[j] == b.stream { assert SinkHas(b, j); }
  }

  lemma {:induction false} CloseKeepsSound(b: Bus<EmissionRecord>)
    requires Sound(b) && b.senders == [Ready]
    ensures Sound(Apply(b, Close(0))) && Apply(b, Close(0)) == b.(senders := [Closed])
  {
    assert b.senders[0 := Closed] == [Closed];
    SenderStepConserves(b, Close(0));
    StepKeepsSinks(b, Close(0));
    StepWillReport(b, Close(0));
  }

  class EmissionBus {
    const capacity: nat
    var queue: seq<Item<EmissionRecord>>
    var dropped: nat
    var emitCount: nat
    var sinks: seq<seq<Item<EmissionRecord>>>
    var lastDropReport: nat
    var open: bool
    var running: bool
    ghost var offers: seq<Offer<EmissionRecord>>
    ghost var offered: seq<EmissionRecord>
    ghost var stream: seq<Item<EmissionRecord>>

    ghost function View(): Bus<EmissionRecord>
      reads this
    {
      Bus(capacity, queue, dropped, emitCount, [if open then Ready else Closed],
          if running then Waiting else Exited, lastDropReport, sinks, offers, stream)
    }

    ghost predicate Valid()
      reads this
    {
      && offered == Offered(offers)
      && Sound(View())
    }

    /** The channel refuses a capacity of zero. */
    constructor Spawn(sinkCount: nat, capacity: nat)
      requires capacity >= 1
      ensures Valid() && View() == NewBus(capacity, 1, sinkCount) && offered == [] && open && running
    {
      this.capacity := capacity;
      queue, dropped, emitCount, lastDropReport := [], 0, 0, 0;
      sinks := seq(sinkCount, _ => []);
      open, running := true, true;
      offers, offered, stream := [], [], [];
      new;
      assert seq(1, _ => Ready) == [Ready];
      NewBusConserved<EmissionRecord>(capacity, 1, sinkCount);
    }

    /** Never blocks: the record is queued, or dropped and counted; a latency sample that finds no room just goes. */
    method Emit(rec: EmissionRecord)
      requires Valid() && open
      modifies this
      ensures Valid() && open && running == old(running)
      ensures offered == old(offered) + [rec]
      ensures EmitRan(old(View()), rec, View())
    {
      hide Run, CanRun, EmitActs, Sound, Offered;
      ghost var b := View();
      if |queue| < capacity {
        queue := queue + [Ordinary(rec)];
        offers := offers + [Offer(rec, true)];
      } else {
        dropped := dropped + 1;
        offers := offers + [Offer(rec, false)];
      }
      offered := offered + [rec];
      emitCount := emitCount + 1;
      if emitCount % SAMPLE_EVERY == 0 {
        if |queue| < capacity {
          queue := queue + [LatencySample];
        }
      }
      EmitRuns(b, rec);
      EmitKeepsSound(b, rec);
      OfferedOneMore(b.offers, offers[|offers| - 1]);
      assert View() == Emitted(b, rec);
    }

    method EmitAll(log: seq<EmissionRecord>)
      requires Valid() && open
      modifies this
      ensures Valid() && open && running == old(running)
      ensures offered == old(offered) + log
    {
      hide EmitRan, Valid;
      for i := 0 to |log|
        invariant Valid() && open && running == old(running)
        invariant offered == old(offered) + log[..i]
      {
        Emit(log[i]);
        assert log[..i + 1] == log[..i] + [log[i]];
      }
      assert log[..|log|] == log;
    }

    method CloseSender()
      requires Valid() && open
      modifies this
      ensures Valid() && !open && running == old(running)
      ensures View() == Apply(old(View()), Close(0)) && offered == old(offered)
    {
      ghost var b := View();
      open := false;
      CloseKeepsSound(b);
    }

    /** The writer after the last sender is gone: everything queued reaches every sink, drops are reported, and it
        ends. */
    method DrainAndExit() returns (ghost acts: Acts)
      requires Valid() && !open && running
      modifies this
      ensures Valid() && CanRun(old(View()), acts) && View() == Run(old(View()), acts)
      ensures !running && queue == [] && dropped == old(dropped) && offers == old(offers)
      ensures LastReported(stream) == dropped == Rejected(offers)
      ensures Records(stream) == Accepted(offers)
      ensures forall j | 0 <= j < |sinks| :: sinks[j] == stream
    {
      hide Run, CanRun, Conserved, SinksAgree, SinkHas;
      acts := [];
      ghost var b0 := View();
      Stay(b0);
      while |queue| > 0
        invariant Valid() && !open && running && dropped == old(dropped) && offers == old(offers)
        invariant CanRun(b0, acts) && View() == Run(b0, acts)
        decreases |queue|
      {
        var more := WriteNext();
        RunJoin(b0, acts, more);
        acts := acts + more;
      }
      ghost var b := View();
      ExitKeepsSound(b);
      OneAction(b, Exit);
      RunJoin(b0, acts, [Exit]);
      running := false;
      acts := acts + [Exit];
    }

    /** One turn of the writer's loop; it may take one whenever the emitters wait for something. */
    method WriteNext() returns (ghost acts: Acts)
      requires Valid() && running && queue != []
      modifies this
      ensures Valid() && open == old(open) && running && dropped == old(dropped)
      ensures offers == old(offers) && offered == old(offered)
      ensures queue == old(queue)[1..]
      ensures CanRun(old(View()), acts) && View() == Run(old(View()), acts)
    {
      hide Run, CanRun, TurnActs, Sound;
      ghost var b := View();
      acts := TurnActs(b);
      TurnRuns(b);
      TurnKeepsSound(b);
      var rec := queue[0];
      queue := queue[1..];
      stream := stream + [rec];
      WriteAll(rec);
      assert sinks == Given(b.sinks, 0, rec);
      var d := dropped;
      if d != lastDropReport {
        lastDropReport := d;
        stream := stream + [CaptureDrop(d)];
        WriteAll(CaptureDrop(d));
        assert sinks == Given(Taken(b).sinks, 0, CaptureDrop(d));
      }
    }

    /** At an await the writer takes any number of turns, none included. */
    method LetWriterRun()
      requires Valid() && running
      modifies this
      ensures Valid() && open == old(open) && running && offered == old(offered)
    {
      hide Valid;
      var turns: nat := *;
      while turns > 0 && |queue| > 0
        invariant Valid() && open == old(open) && running && offered == old(offered)
        decreases turns
      {
        var _ := WriteNext();
        turns := turns - 1;
      }
    }

    method WriteAll(item: Item<EmissionRecord>)
      modifies this`sinks
      ensures |sinks| == |old(sinks)|
      ensures forall j | 0 <= j < |sinks| :: sinks[j] == old(sinks)[j] + [item]
    {
      var i := 0;
      while i < |sinks|
        invariant 0 <= i <= |sinks| == |old(sinks)|
        invariant forall j | 0 <= j < i :: sinks[j] == old(sinks)[j] + [item]
        invariant forall j | i <= j < |sinks| :: sinks[j] == old(sinks)[j]
      {
        sinks := sinks[i := sinks[i] + [item]];
        i := i + 1;
      }
    }
  }
}
