/** What happens to each offer of a run of the bus, and how often a latency sample is taken. */
module BusOffers {
  import opened BusSystem

  lemma {:induction false} PrefixRuns<R>(b: Bus<R>, acts: seq<Action<R>>, k: nat)
    requires CanRun(b, acts) && k <= |acts|
    ensures CanRun(b, acts[..k])
    ensures CanRun(Run(b, acts[..k]), acts[k..]) && Run(b, acts) == Run(Run(b, acts[..k]), acts[k..])
    decreases |acts|
  {
    hide Apply, Enabled;
    if k == 0 {
      assert acts[..0] == [] && acts[0..] == acts;
    } else {
      PrefixRuns(Apply(b, acts[0]), acts[1..], k - 1);
      assert acts[..k][1..] == acts[1..][..k - 1] && acts[1..][k - 1..] == acts[k..];
    }
  }

  lemma {:induction false} LastAction<R>(b: Bus<R>, acts: seq<Action<R>>)
    requires CanRun(b, acts) && acts != []
    ensures var before := acts[..|acts| - 1];
            && CanRun(b, before) && Enabled(Run(b, before), acts[|acts| - 1])
            && Run(b, acts) == Apply(Run(b, before), acts[|acts| - 1])
  {
    hide Apply, Enabled;
    var k := |acts| - 1;
    PrefixRuns(b, acts, k);
    assert acts[k..] == [acts[k]] && acts[k..][1..] == [];
  }

  /** Action `k` made offer number `n`: it was accepted exactly if the queue it met was below capacity. */
  ghost predicate Offers<R>(b: Bus<R>, acts: seq<Action<R>>, k: nat, n: nat)
    requires CanRun(b, acts) && k < |acts| && n < |Run(b, acts).offers|
  {
    PrefixRuns(b, acts, k);
    var met := Run(b, acts[..k]);
    && acts[k].TrySend? && |met.offers| == n
    && Run(b, acts).offers[n] == Offer(acts[k].r, |met.queue| < b.capacity)
  }

  lemma {:induction false} KeepsCapacity<R>(b: Bus<R>, acts: seq<Action<R>>)
    requires CanRun(b, acts)
    ensures Run(b, acts).capacity == b.capacity
    decreases |acts|
  {
    if acts != [] { KeepsCapacity(Apply(b, acts[0]), acts[1..]); }
  }

  lemma OneOffer<R>(b: Bus<R>, a: Action<R>)
    requires Enabled(b, a)
    ensures Apply(b, a).offers ==
            b.offers + if a.TrySend? then [Offer(a.r, |b.queue| < b.capacity)] else []
  {
  }

  /** In every run each offer was made by one send, and was refused exactly if that send met a queue at capacity. */
  lemma {:induction false} RefusedIffFull<R>(b: Bus<R>, acts: seq<Action<R>>, n: nat) returns (k: nat)
    requires b.offers == [] && CanRun(b, acts) && n < |Run(b, acts).offers|
    ensures k < |acts| && Offers(b, acts, k, n)
    decreases |acts|
  {
    hide Apply, Enabled, Run, CanRun;
    if acts == [] {
      NothingOffered(b);
    } else {
      var last := |acts| - 1;
      var before := acts[..last];
      LastAction(b, acts);
      OneOffer(Run(b, before), acts[last]);
      if n < |Run(b, before).offers| {
        k := RefusedIffFull(b, before, n);
        assert before[..k] == acts[..k];
      } else {
        KeepsCapacity(b, before);
        k := last;
      }
    }
  }

  lemma NothingOffered<R>(b: Bus<R>)
    requires b.offers == []
    ensures Run(b, []).offers == []
  {
  }

  // ---- sampling ----

  function SamplingSenders(ss: seq<Sender>): nat {
    if ss == [] then 0 else SamplingSenders(ss[..|ss| - 1]) + if ss[|ss| - 1] == Sampling then 1 else 0
  }

  function Emits<R>(acts: seq<Action<R>>): nat {
    if acts == [] then 0 else Emits(acts[..|acts| - 1]) + if acts[|acts| - 1].CountEmit? then 1 else 0
  }

  function Samples<R>(acts: seq<Action<R>>): nat {
    if acts == [] then 0 else Samples(acts[..|acts| - 1]) + if acts[|acts| - 1].TrySample? then 1 else 0
  }

  lemma {:induction false} SamplingUpdate(ss: seq<Sender>, i: nat, pc: Sender)
    requires i < |ss|
    ensures SamplingSenders(ss[i := pc]) + (if ss[i] == Sampling then 1 else 0)
         == SamplingSenders(ss) + (if pc == Sampling then 1 else 0)
    decreases |ss|
  {
    var n := |ss| - 1;
    if i == n {
      assert ss[i := pc][..n] == ss[..n];
    } else {
      assert ss[i := pc][..n] == ss[..n][i := pc];
      SamplingUpdate(ss[..n], i, pc);
    }
  }

  lemma {:induction false} NoneSampling(n: nat)
    ensures SamplingSenders(seq(n, _ => Ready)) == 0
    decreases n
  {
    if n > 0 {
      assert seq(n, _ => Ready)[..n - 1] == seq(n - 1, _ => Ready);
      NoneSampling(n - 1);
    }
  }

  lemma {:induction false} StepSamples<R>(b: Bus<R>, a: Action<R>)
    requires Enabled(b, a)
    ensures var c := Apply(b, a);
            && c.emitCount == b.emitCount + (if a.CountEmit? then 1 else 0)
            && SamplingSenders(c.senders) + (if a.TrySample? then 1 else 0)
               == SamplingSenders(b.senders) + if a.CountEmit? && c.emitCount % 256 == 0 then 1 else 0
  {
    hide SamplingSenders;
    var c := Apply(b, a);
    if a.TrySend? || a.CountDrop? || a.CountEmit? || a.TrySample? || a.Close? {
      SamplingUpdate(b.senders, a.i, c.senders[a.i]);
      assert c.senders == b.senders[a.i := c.senders[a.i]];
    }
  }

  lemma EveryMore(n: nat)
    ensures (n + 1) / 256 == n / 256 + if (n + 1) % 256 == 0 then 1 else 0
  {
  }

  /** In every run the samples tried, and those about to be, are one for every 256 emits. */
  lemma {:induction false} SampledEvery256<R>(capacity: nat, senders: nat, sinks: nat, acts: seq<Action<R>>)
    requires CanRun(NewBus<R>(capacity, senders, sinks), acts)
    ensures var b := Run(NewBus<R>(capacity, senders, sinks), acts);
            && b.emitCount == Emits(acts)
            && Samples(acts) + SamplingSenders(b.senders) == Emits(acts) / 256
    decreases |acts|
  {
    hide Apply, Enabled, Run, CanRun, SamplingSenders;
    var start := NewBus<R>(capacity, senders, sinks);
    if acts == [] {
      NoneSampling(senders);
      NothingRun(start);
    } else {
      var last := |acts| - 1;
      LastAction(start, acts);
      SampledEvery256(capacity, senders, sinks, acts[..last]);
      StepSamples(Run(start, acts[..last]), acts[last]);
      EveryMore(Emits(acts[..last]));
    }
  }

  lemma NothingRun<R>(b: Bus<R>)
    ensures Run(b, []) == b
  {
  }
}
