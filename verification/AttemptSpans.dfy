/** Read spans: every byte of an installment arrived in a read that its record names. */
module AttemptSpans {
  import opened Text
  import opened Framing
  import opened Sse
  import opened Vocabulary
  import opened Machine
  import opened Refinement
  import opened Handler
  import opened Throughput
  import opened AttemptSpec
  import opened AttemptTrace
  import opened AttemptOutcome

  /** Bytes that had arrived after the first `r` reads. */
  function Arrived(received: seq<Bytes>, r: nat): nat
    requires r <= |received|
  {
    |Flatten(received[..r])|
  }

  /** The record's frame is at `lo` in the bytes received, and lies between the start of its first read and the end
      of its last. */
  ghost predicate SpannedAt(rec: EmissionRecord, received: seq<Bytes>, lo: nat)
    requires rec.Installment?
  {
    var all := Flatten(received);
    && 1 <= rec.firstRead <= rec.lastRead <= |received|
    && Arrived(received, rec.firstRead - 1) <= lo
    && lo + rec.bytes <= Arrived(received, rec.lastRead)
    && lo + rec.bytes <= |all|
    && BlockEvent(all[lo..lo + rec.bytes]) == Some(SseEvent(PayloadOf(rec), rec.bytes))
  }

  function PayloadOf(rec: EmissionRecord): SsePayload
    requires rec.Installment?
  {
    match rec.kind { case CommentKind => Comment(rec.payload) case DataKind => Data(rec.payload) }
  }

  ghost predicate Spanned(rec: EmissionRecord, received: seq<Bytes>) {
    rec.Installment? ==> exists lo: nat :: SpannedAt(rec, received, lo)
  }

  ghost predicate AllSpanned(log: Log, received: seq<Bytes>) { forall i | 0 <= i < |log| :: Spanned(log[i], received) }

  predicate NoInstallments(log: Log) { forall i | 0 <= i < |log| :: !log[i].Installment? }

  lemma {:induction false} PrefixOfReads(a: seq<Bytes>, b: seq<Bytes>, r: nat)
    requires r <= |a|
    ensures Arrived(a + b, r) == Arrived(a, r)
    ensures Flatten(a) <= Flatten(a + b)
  {
    assert (a + b)[..r] == a[..r];
    FlattenJoin(a, b);
  }

  /** Later reads do not spoil a span. */
  lemma {:induction false} SpannedLater(rec: EmissionRecord, a: seq<Bytes>, b: seq<Bytes>)
    requires Spanned(rec, a)
    ensures Spanned(rec, a + b)
  {
    hide BlockEvent, Flatten;
    if rec.Installment? {
      var lo: nat :| SpannedAt(rec, a, lo);
      PrefixOfReads(a, b, rec.firstRead - 1);
      PrefixOfReads(a, b, rec.lastRead);
      assert Flatten(a + b)[lo..lo + rec.bytes] == Flatten(a)[lo..lo + rec.bytes];
      assert SpannedAt(rec, a + b, lo);
    }
  }

  lemma {:induction false} AllSpannedLater(log: Log, a: seq<Bytes>, b: seq<Bytes>)
    requires AllSpanned(log, a)
    ensures AllSpanned(log, a + b)
  {
    hide Spanned;
    forall i | 0 <= i < |log| ensures Spanned(log[i], a + b) { SpannedLater(log[i], a, b); }
  }

  /** Between wake-ups: the reads so far are counted, and the buffer starts no earlier than the read the next span
      names. */
  ghost predicate Placed(a: Attempt, received: seq<Bytes>) {
    && a.loc.readSeq == |received|
    && |a.buf| <= |Flatten(received)|
    && Flatten(received)[|Flatten(received)| - |a.buf|..] == a.buf
    && a.loc.spanStart >= 1
    && (if |received| == 0 then a.loc.spanStart == 1 && a.buf == []
        else a.loc.spanStart <= |received| && Arrived(received, a.loc.spanStart - 1) <= |Flatten(received)| - |a.buf|)
  }

  /** While frames of the current read are handed out: the next frame starts at `pos`. */
  ghost predicate Handing(a: Attempt, received: seq<Bytes>, pos: nat) {
    && a.loc.readSeq == |received| >= 1
    && 1 <= a.loc.spanStart <= |received|
    && Arrived(received, a.loc.spanStart - 1) <= pos
    && AllSpanned(a.log, received)
  }

  lemma JoinSpanned(a: Log, b: Log, received: seq<Bytes>)
    requires AllSpanned(a, received) && NoInstallments(b)
    ensures AllSpanned(a + b, received)
  {
  }

  lemma TakenNoInstallments(decode: Decoder, st: StreamView, n: nat, data: Bytes)
    ensures NoInstallments(TakeInstallment(decode, st, n, DataKind, data).log)
  {
    hide Judge;
  }

  lemma {:induction false} HandOverLog(ctx: Ctx, a: Attempt, data: Bytes)
    ensures var b := HandOver(ctx, a, data);
            a.log <= b.log && NoInstallments(b.log[|a.log|..])
            && b.loc == a.loc.(window := b.loc.window)
  {
    hide Judge, AnomaliesOf, Verdict;
    TakenNoInstallments(ctx.decode, a.st, a.loc.instSeq, data);
  }

  /** What one frame adds to the log, and where the next span starts. */
  lemma {:induction false} FrameLog(ctx: Ctx, a: Attempt, at: nat, gap: nat, ev: SseEvent)
    ensures var b := OnFrame(ctx, a, at, gap, ev);
            && b.loc.readSeq == a.loc.readSeq && b.loc.spanStart == a.loc.readSeq
            && |b.log| > |a.log| && b.log[..|a.log|] == a.log
            && NoInstallments(b.log[|a.log| + 1..])
            && var rec := b.log[|a.log|];
               if ev.payload.Undecodable? then !rec.Installment?
               else rec.Installment? && rec.firstRead == a.loc.spanStart && rec.lastRead == a.loc.readSeq
                    && rec.bytes == ev.rawByteLen && PayloadOf(rec) == ev.payload
  {
    hide HandOver;
    var b := OnFrame(ctx, a, at, gap, ev);
    if ev.payload.Data? {
      var c := DataReady(a, at, gap, ev);
      HandOverLog(ctx, c, ev.payload.data);
      assert b.log == c.log + b.log[|c.log|..];
      assert b.log[|a.log| + 1..] == c.log[|a.log| + 1..] + b.log[|c.log|..];
    }
  }

  /** A frame whose bytes are at `lo`, inside the reads its record names, keeps the log spanned. */
  lemma {:induction false} FrameHanding(ctx: Ctx, a: Attempt, at: nat, gap: nat, ev: SseEvent, received: seq<Bytes>,
                                        lo: nat, pos: nat)
    requires Handing(a, received, lo)
    requires lo + ev.rawByteLen <= pos <= |Flatten(received)|
    requires BlockEvent(Flatten(received)[lo..lo + ev.rawByteLen]) == Some(ev)
    requires Arrived(received, |received| - 1) <= pos
    ensures Handing(OnFrame(ctx, a, at, gap, ev), received, pos)
  {
    hide BlockEvent, Flatten, OnFrame;
    var b := OnFrame(ctx, a, at, gap, ev);
    FrameLog(ctx, a, at, gap, ev);
    var rec := b.log[|a.log|];
    assert received[..|received|] == received;
    if rec.Installment? { assert SpannedAt(rec, received, lo); }
    assert b.log == a.log + [rec] + b.log[|a.log| + 1..];
    JoinSpanned(a.log + [rec], b.log[|a.log| + 1..], received);
  }

  lemma {:induction false} FramesOneMore(ctx: Ctx, a: Attempt, at: nat, gap: nat, blocks: seq<Block>, b: Block)
    ensures var c := OnFrames(ctx, a, at, gap, EventsOf(blocks));
            OnFrames(ctx, a, at, gap, EventsOf(blocks + [b])) ==
              match BlockEvent(b.body)
              case None => c
              case Some(ev) => if c.end.Some? then c else OnFrame(ctx, c, at, gap, ev)
  {
    hide OnFrame, BlockEvent;
    assert (blocks + [b])[..|blocks|] == blocks;
    var evs := EventsOf(blocks + [b]);
    match BlockEvent(b.body)
    case None => assert evs == EventsOf(blocks);
    case Some(ev) => assert evs[..|evs| - 1] == EventsOf(blocks);
  }

  lemma {:induction false} BytewiseSnoc(blocks: seq<Block>, b: Block)
    ensures Bytewise(blocks + [b]) == Bytewise(blocks) + (b.body + b.sep)
    decreases |blocks|
  {
    if blocks == [] {
      assert Bytewise([b]) == b.body + b.sep + Bytewise([b][1..]);
      assert blocks + [b] == [b];
    } else {
      assert (blocks + [b])[1..] == blocks[1..] + [b];
      BytewiseSnoc(blocks[1..], b);
      var h := blocks[0].body + blocks[0].sep;
      assert h + (Bytewise(blocks[1..]) + (b.body + b.sep)) == (h + Bytewise(blocks[1..])) + (b.body + b.sep);
    }
  }

  lemma BlockEventLen(body: Bytes)
    ensures BlockEvent(body).Some? ==> BlockEvent(body).value.rawByteLen == |body|
  {
    hide WellFormed, Lines, DataValues, Join;
  }

  /** All frames of one read: block `k` of the buffer starts after the blocks before it. */
  lemma {:induction false} BlocksHanding(ctx: Ctx, a: Attempt, at: nat, gap: nat, blocks: seq<Block>,
      received: seq<Bytes>,
                                         base: nat, rest: Bytes)
    requires Handing(a, received, base) && base <= |Flatten(received)|
    requires Flatten(received)[base..] == Bytewise(blocks) + rest
    requires forall k | 0 < k <= |blocks| :: Arrived(received, |received| - 1) <= base + |Bytewise(blocks[..k])|
    ensures Handing(OnFrames(ctx, a, at, gap, EventsOf(blocks)), received, base + |Bytewise(blocks)|)
    decreases |blocks|
  {
    hide BlockEvent, OnFrame, OnFrames, EventsOf, Flatten, Handing, Arrived;
    if blocks == [] {
      NoFrames(ctx, a, at, gap);
    } else {
      var init, b := blocks[..|blocks| - 1], blocks[|blocks| - 1];
      var c := OnFrames(ctx, a, at, gap, EventsOf(init));
      assert blocks == init + [b];
      BytewiseSnoc(init, b);
      var lo := base + |Bytewise(init)|;
      assert Bytewise(blocks) + rest == Bytewise(init) + ((b.body + b.sep) + rest);
      assert forall k | 0 < k <= |init| :: init[..k] == blocks[..k];
      BlocksHanding(ctx, a, at, gap, init, received, base, (b.body + b.sep) + rest);
      FramesOneMore(ctx, a, at, gap, init, b);
      assert blocks[..|blocks|] == blocks;
      var pos := base + |Bytewise(blocks)|;
      BodySlice(Flatten(received), base, Bytewise(init), b, rest);
      BlockEventLen(b.body);
      if BlockEvent(b.body).Some? && c.end.None? {
        FrameHanding(ctx, c, at, gap, BlockEvent(b.body).value, received, lo, pos);
      } else {
        HandingOn(c, received, lo, pos);
      }
    }
  }

  lemma {:induction false} BodySlice(all: Bytes, base: nat, init: Bytes, b: Block, rest: Bytes)
    requires base <= |all| && all[base..] == init + ((b.body + b.sep) + rest)
    ensures base + |init| + |b.body| <= |all| && all[base + |init|..base + |init| + |b.body|] == b.body
  {
    assert all[base..][|init|..|init| + |b.body|] == b.body;
  }

  lemma NoFrames(ctx: Ctx, a: Attempt, at: nat, gap: nat)
    ensures OnFrames(ctx, a, at, gap, EventsOf([])) == a
  {
  }

  lemma HandingOn(a: Attempt, received: seq<Bytes>, lo: nat, pos: nat)
    requires Handing(a, received, lo) && lo <= pos
    ensures Handing(a, received, pos)
  {
  }

  /** The attempt's log is spanned, and while it runs its buffer is placed. */
  ghost predicate Traced(a: Attempt, received: seq<Bytes>) {
    AllSpanned(a.log, received) && (a.end.None? ==> Placed(a, received) && FrameFree(a.buf))
  }

  lemma {:induction false} ReadTraced(ctx: Ctx, a: Attempt, at: nat, bytes: Bytes, received: seq<Bytes>)
    requires Traced(a, received) && a.end.None?
    ensures Traced(OnRead(ctx, a, at, bytes), received + [bytes])
  {
    hide Split, BlockEvent, EventsOf, OnFrames, Bytewise, AllSpanned, Arrived, FrameFree;
    var all := received + [bytes];
    var c := Split(a.buf + bytes);
    var b := CountRead(a, at, |bytes|).(buf := c.rest);
    var base := |Flatten(received)| - |a.buf|;
    FlattenSnoc(received, bytes);
    hide Flatten;
    assert Flatten(all)[base..] == a.buf + bytes;
    SplitConserves(a.buf + bytes);
    RestFree(a.buf + bytes);
    AllSpannedLater(a.log, received, [bytes]);
    ReadLogSpanned(a, at, |bytes|, all);
    assert AllSpanned(b.log, all);
    StartSpan(a, received, bytes);
    if |c.rest| > DEFAULT_BUF_LIMIT {
      OneMoreSpanned(b.log, EndRecord(b, BufferOverflowed(DEFAULT_BUF_LIMIT)), all);
    } else {
      forall k | 0 < k <= |c.blocks| ensures Arrived(all, |all| - 1) <= base + |Bytewise(c.blocks[..k])| {
        FirstBlockReaches(a.buf, bytes, k);
        LastReadStart(received, bytes);
      }
      var gap := Since(at, a.loc.lastReadAt);
      BlocksHanding(ctx, b, at, gap, c.blocks, all, base, c.rest);
      FramesKeepBuffer(ctx, b, at, gap, EventsOf(c.blocks));
      var d := OnFrames(ctx, b, at, gap, EventsOf(c.blocks));
      assert |Flatten(all)| == base + |Bytewise(c.blocks)| + |c.rest|;
      assert Flatten(all)[|Flatten(all)| - |c.rest|..] == c.rest;
    }
  }

  lemma {:induction false} LastReadStart(received: seq<Bytes>, bytes: Bytes)
    ensures Arrived(received + [bytes], |received|) == |Flatten(received)|
  {
    assert (received + [bytes])[..|received|] == received;
  }

  lemma {:induction false} StartSpan(a: Attempt, received: seq<Bytes>, bytes: Bytes)
    requires Placed(a, received)
    ensures 1 <= a.loc.spanStart <= |received| + 1
    ensures Arrived(received + [bytes], a.loc.spanStart - 1) <= |Flatten(received)| - |a.buf|
  {
    if |received| > 0 {
      PrefixOfReads(received, [bytes], a.loc.spanStart - 1);
    } else {
      assert (received + [bytes])[..0] == [];
    }
  }

  lemma OneMoreSpanned(log: Log, rec: EmissionRecord, received: seq<Bytes>)
    requires AllSpanned(log, received) && !rec.Installment?
    ensures AllSpanned(log + [rec], received)
  {
  }

  lemma ReadLogSpanned(a: Attempt, at: nat, bytes: nat, received: seq<Bytes>)
    requires AllSpanned(a.log, received)
    ensures AllSpanned(CountRead(a, at, bytes).log, received)
  {
  }

  lemma {:induction false} TailLog(ctx: Ctx, a: Attempt, ev: SseEvent)
    ensures var b := OnTail(ctx, a, ev);
            && |b.log| > |a.log| && b.log[..|a.log|] == a.log
            && NoInstallments(b.log[|a.log| + 1..])
            && var rec := b.log[|a.log|];
               if ev.payload.Undecodable? then !rec.Installment?
               else rec.Installment? && rec.firstRead == a.loc.spanStart && rec.lastRead == a.loc.readSeq
                    && rec.bytes == ev.rawByteLen && PayloadOf(rec) == ev.payload
  {
    hide Judge;
    if ev.payload.Data? { TakenNoInstallments(ctx.decode, a.st, a.loc.instSeq + 1, ev.payload.data); }
  }

  lemma {:induction false} EofTraced(ctx: Ctx, a: Attempt, received: seq<Bytes>)
    requires Traced(a, received) && a.end.None?
    ensures Traced(OnEof(ctx, a), received)
  {
    hide BlockEvent, OnTail, Flatten, Verdict, AnomaliesOf;
    var b := a.(buf := []);
    var l := Leftover(ctx, a);
    var tail := TailEvents(a.buf);
    if tail != [] {
      TailLog(ctx, b, tail[0]);
      BlockEventLen(a.buf);
      var rec := l.log[|a.log|];
      var lo := |Flatten(received)| - |a.buf|;
      assert received[..|received|] == received;
      assert Flatten(received)[lo..lo + |a.buf|] == a.buf;
      if rec.Installment? { assert SpannedAt(rec, received, lo); }
      assert l.log == a.log + [rec] + l.log[|a.log| + 1..];
      JoinSpanned(a.log + [rec], l.log[|a.log| + 1..], received);
    }
    SettledSpanned(l, if l.st.sawAnyContent then PeerClosed else ClosedWithNoContent, EndCause.StreamEnded, received);
  }

  lemma {:induction false} SettledSpanned(a: Attempt, cause: StreamEndCause, why: EndCause, received: seq<Bytes>)
    requires AllSpanned(a.log, received)
    ensures AllSpanned(Settle(a, cause, why).log, received)
  {
    hide AnomaliesOf, Verdict, Spanned;
    JoinSpanned(a.log + [EndRecord(a, cause)], AnomalyRecords(a.st), received)
        by { OneMoreSpanned(a.log, EndRecord(a, cause), received); }
  }

  lemma {:induction false} StepTraced(ctx: Ctx, a0: Attempt, w: Wake, received: seq<Bytes>)
    requires Traced(a0, received) && a0.end.None?
    ensures Traced(Step(ctx, a0, w), received + if w.arm.ReadArm? then [w.arm.bytes] else [])
  {
    hide OnRead, OnEof, Evaluate, Spanned, Arrived, Flatten, FrameFree;
    var a := a0.(loc := a0.loc.(polls := a0.loc.polls + 1));
    assert received + [] == received;
    match w.arm
    case ReadArm(bytes) => ReadTraced(ctx, a, w.at, bytes, received);
    case EofArm => EofTraced(ctx, a, received);
    case _ => QuietStepTraced(ctx, a0, w, received);
  }

  lemma QuietStepTraced(ctx: Ctx, a: Attempt, w: Wake, received: seq<Bytes>)
    requires Traced(a, received) && a.end.None? && !w.arm.ReadArm? && !w.arm.EofArm?
    ensures Traced(Step(ctx, a, w), received)
  {
    hide Evaluate, SpannedAt, Arrived, Flatten, FrameFree, OnRead, OnEof;
  }

  lemma {:induction false} RunTraced(ctx: Ctx, st: StreamView, wakes: seq<Wake>)
    ensures Traced(AfterWakes(ctx, st, wakes), ReadsOf(wakes))
    decreases |wakes|
  {
    hide Step, Traced;
    if wakes == [] {
      NothingTraced(st);
    } else {
      var init, w := wakes[..|wakes| - 1], wakes[|wakes| - 1];
      var a := AfterWakes(ctx, st, init);
      RunTraced(ctx, st, init);
      if a.end.None? {
        StepTraced(ctx, a, w, ReadsOf(init));
      } else {
        EndedTraced(a, ReadsOf(init), if w.arm.ReadArm? then [w.arm.bytes] else []);
      }
    }
  }

  lemma {:induction false} EndedTraced(a: Attempt, received: seq<Bytes>, more: seq<Bytes>)
    requires Traced(a, received) && a.end.Some?
    ensures Traced(a, received + more)
  {
    AllSpannedLater(a.log, received, more);
  }

  lemma NothingTraced(st: StreamView)
    ensures Traced(Begin(st), [])
  {
  }

  /** Read-span soundness, recovered tail included. */
  lemma {:induction false} EveryInstallmentIsSpanned(ctx: Ctx, st: StreamView, wakes: seq<Wake>, i: nat)
    requires i < |AfterWakes(ctx, st, wakes).log| && AfterWakes(ctx, st, wakes).log[i].Installment?
    ensures exists lo: nat :: SpannedAt(AfterWakes(ctx, st, wakes).log[i], ReadsOf(wakes), lo)
  {
    hide AfterWakes, SpannedAt;
    RunTraced(ctx, st, wakes);
    assert Spanned(AfterWakes(ctx, st, wakes).log[i], ReadsOf(wakes));
  }
}
