/** Emitters and the writer on different threads: a drop can go unreported, whatever the capacity and the number of
    sinks (chat2/src/emission.rs:155-187). The writer empties the queue between a refused send and its count. */
module BusLoss {
  import opened Vocabulary
  import opened BusSystem
  import opened Emission

  type State = Bus<EmissionRecord>

  /** A run from `b` to `c`. */
  ghost predicate Reaches(b: State, acts: Acts, c: State) { CanRun(b, acts) && Run(b, acts) == c }

  lemma {:induction false} Onward(b: State, xs: Acts, c: State, ys: Acts, d: State)
    requires Reaches(b, xs, c) && Reaches(c, ys, d)
    ensures Reaches(b, xs + ys, d)
  {
    hide Run, CanRun;
    RunJoin(b, xs, ys);
  }

  /** Only sender 0 is still there, no drop has been counted, and the writer is idle. */
  ghost predicate Calm(b: State, pc: Sender) {
    && b.capacity >= 1 && |b.queue| <= b.capacity && b.dropped == b.lastReport == 0 && LastReported(b.stream) == 0
    && b.writer == Waiting && NoReportsQueued(b)
    && |b.senders| > 0 && b.senders[0] == pc && forall i | 0 < i < |b.senders| :: b.senders[i] == Closed
  }

  lemma {:induction false} CloseOthers(b: State, n: nat) returns (acts: Acts, c: State)
    requires n < |b.senders| && (forall i | 0 <= i <= n :: b.senders[i] == Ready)
    requires forall i | n < i < |b.senders| :: b.senders[i] == Closed
    ensures Reaches(b, acts, c) && c == b.(senders := c.senders)
    ensures |c.senders| == |b.senders| && c.senders[0] == Ready
        && forall i | 0 < i < |c.senders| :: c.senders[i] == Closed
    decreases n
  {
    hide Run, CanRun;
    if n == 0 {
      acts, c := [], b;
      Stay(b);
    } else {
      var d := Apply(b, Close(n));
      OneAction(b, Close(n));
      var more;
      more, c := CloseOthers(d, n - 1);
      Onward(b, [Close(n)], d, more, c);
      acts := [Close(n)] + more;
    }
  }

  /** Emitting fills the queue. */
  lemma {:induction false} Fill(b: State, rec: EmissionRecord) returns (acts: Acts, c: State)
    requires Calm(b, Ready)
    ensures Reaches(b, acts, c) && Calm(c, Ready) && |c.queue| == c.capacity
    ensures |b.queue| == b.capacity ==> c == b
    ensures |b.queue| == b.capacity - 1 ==> c.emitCount == b.emitCount + 1
    decreases b.capacity - |b.queue|
  {
    hide Run, CanRun, LastReported, EmitActs;
    if |b.queue| == b.capacity {
      acts, c := [], b;
      Stay(b);
    } else {
      var d := Emitted(b, rec);
      EmitRuns(b, rec);
      var more;
      more, c := Fill(d, rec);
      Onward(b, EmitActs(b, rec), d, more, c);
      acts := EmitActs(b, rec) + more;
    }
  }

  /** The writer takes one item and sees no drop. */
  lemma {:induction false} TakeOne(b: State, pc: Sender) returns (c: State)
    requires Calm(b, pc) && b.queue != []
    ensures Reaches(b, TurnActs(b), c) && Calm(c, pc)
    ensures c.queue == b.queue[1..] && c.emitCount == b.emitCount && c.capacity == b.capacity
  {
    hide Run, CanRun, TurnActs, LastReported, Given;
    c := Taken(b);
    TurnRuns(b);
    ReportedOneMore(b.stream, b.queue[0]);
    assert !b.queue[0].CaptureDrop?;
    forall i | 0 <= i < |c.queue| ensures !c.queue[i].CaptureDrop? { assert c.queue[i] == b.queue[i + 1]; }
  }

  lemma {:induction false} DrainAll(b: State, pc: Sender) returns (acts: Acts, c: State)
    requires Calm(b, pc)
    ensures Reaches(b, acts, c) && Calm(c, pc) && c.queue == [] && c.emitCount == b.emitCount
    decreases |b.queue|
  {
    hide Run, CanRun, TurnActs, Calm;
    if b.queue == [] {
      acts, c := [], b;
      Stay(b);
    } else {
      var d := TakeOne(b, pc);
      var more;
      more, c := DrainAll(d, pc);
      Onward(b, TurnActs(b), d, more, c);
      acts := TurnActs(b) + more;
    }
  }

  /** A full queue, and the next emit is not one that also queues a latency sample. */
  lemma {:induction false} FillOffBeat(b: State, rec: EmissionRecord) returns (acts: Acts, c: State)
    requires Calm(b, Ready)
    ensures Reaches(b, acts, c) && Calm(c, Ready) && |c.queue| == c.capacity && (c.emitCount + 1) % SAMPLE_EVERY != 0
  {
    hide Run, CanRun, TurnActs;
    acts, c := Fill(b, rec);
    if (c.emitCount + 1) % SAMPLE_EVERY == 0 {
      var full := c;
      var d := TakeOne(full, Ready);
      Onward(b, acts, full, TurnActs(full), d);
      acts := acts + TurnActs(full);
      var more;
      more, c := Fill(d, rec);
      Onward(b, acts, d, more, c);
      acts := acts + more;
    }
  }

  lemma {:induction false} RefuseOne(b: State, rec: EmissionRecord) returns (c: State)
    requires Calm(b, Ready) && |b.queue| == b.capacity
    ensures Reaches(b, [TrySend(0, rec)], c) && Calm(c, Refused) && c.emitCount == b.emitCount
  {
    hide Run, CanRun, LastReported;
    c := Apply(b, TrySend(0, rec));
    OneAction(b, TrySend(0, rec));
  }

  /** The count comes when the writer has nothing left to take. */
  lemma {:induction false} TooLate(b: State) returns (acts: Acts, c: State)
    requires Calm(b, Refused) && b.queue == [] && (b.emitCount + 1) % SAMPLE_EVERY != 0
    ensures Reaches(b, acts, c) && c.writer == Exited && c.dropped == 1 && LastReported(c.stream) == 0
  {
    hide Run, CanRun, LastReported;
    var b1 := Apply(b, CountDrop(0));
    OneAction(b, CountDrop(0));
    var b2 := Apply(b1, CountEmit(0));
    OneAction(b1, CountEmit(0));
    var b3 := Apply(b2, Close(0));
    OneAction(b2, Close(0));
    c := Apply(b3, Exit);
    OneAction(b3, Exit);
    Onward(b, [CountDrop(0)], b1, [CountEmit(0)], b2);
    Onward(b, [CountDrop(0)] + [CountEmit(0)], b2, [Close(0)], b3);
    acts := [CountDrop(0)] + [CountEmit(0)] + [Close(0)] + [Exit];
    Onward(b, [CountDrop(0)] + [CountEmit(0)] + [Close(0)], b3, [Exit], c);
  }

  lemma {:induction false} Opening(capacity: nat, senders: nat, sinks: nat) returns (acts: Acts, c: State)
    requires capacity >= 1 && senders >= 1
    ensures Reaches(NewBus(capacity, senders, sinks), acts, c) && Calm(c, Ready)
  {
    hide Run, CanRun;
    acts, c := CloseOthers(NewBus(capacity, senders, sinks), senders - 1);
  }

  /** The run ends with a drop that no report shows. */
  ghost predicate Loses(capacity: nat, senders: nat, sinks: nat, acts: Acts) {
    && CanRun(NewBus(capacity, senders, sinks), acts)
    && var b := Run(NewBus(capacity, senders, sinks), acts);
       b.writer == Exited && LastReported(b.stream) != Rejected(b.offers)
  }

  lemma {:induction false} LosingRun(capacity: nat, senders: nat, sinks: nat) returns (acts: Acts)
    requires capacity >= 1 && senders >= 1
    ensures Loses(capacity, senders, sinks, acts)
  {
    hide Run, CanRun, Calm;
    var b0: State := NewBus(capacity, senders, sinks);
    var rec := StreamEnd(1, 1, PeerClosed, 0);
    var b1, b2, b4, b5, more;
    acts, b1 := Opening(capacity, senders, sinks);
    more, b2 := FillOffBeat(b1, rec);
    Onward(b0, acts, b1, more, b2);
    acts := acts + more;
    var b3 := RefuseOne(b2, rec);
    Onward(b0, acts, b2, [TrySend(0, rec)], b3);
    acts := acts + [TrySend(0, rec)];
    more, b4 := DrainAll(b3, Refused);
    Onward(b0, acts, b3, more, b4);
    acts := acts + more;
    more, b5 := TooLate(b4);
    Onward(b0, acts, b4, more, b5);
    acts := acts + more;
    NewBusConserved<EmissionRecord>(capacity, senders, sinks);
    RunConserves(b0, acts);
  }

  lemma {:induction false} NobodyRefused(b: State, acts: Acts)
    requires b.senders == [] && CanRun(b, acts)
    ensures RefusedAtLastLook(b, acts, 0) == 0
    decreases |acts|
  {
    if acts != [] { NobodyRefused(Apply(b, acts[0]), acts[1..]); }
  }

  /** Whatever the capacity and however many sinks: with emitters on other threads than the writer's, even a single one,
      some run ends with an unreported drop. */
  lemma {:induction false} DividedEmitLosesTheReport(capacity: nat, senders: nat, sinks: nat)
    requires capacity >= 1
    ensures (exists acts :: Loses(capacity, senders, sinks, acts)) <==> senders >= 1
  {
    hide Run, CanRun, RefusedAtLastLook;
    if senders >= 1 {
      var acts := LosingRun(capacity, senders, sinks);
    } else if acts :| Loses(capacity, senders, sinks, acts) {
      FinalReportIff<EmissionRecord>(capacity, senders, sinks, acts);
      NobodyRefused(NewBus(capacity, senders, sinks), acts);
    }
  }
}
