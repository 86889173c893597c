/** What `Sse` promises over whole runs: however the network cuts the bytes. */
module SseRuns {
  import opened Text
  import opened Utf8
  import opened Framing
  import opened Sse

  /** The outcome of pushing `chunks` one after the other; the caller stops at the first overflow. */
  datatype Run = Run(events: seq<SseEvent>, buf: Bytes, overflowed: bool)

  function PushAll(limit: nat, buf: Bytes, chunks: seq<Bytes>): Run
    decreases |chunks|
  {
    if chunks == [] then Run([], buf, false)
    else
      var c := Split(buf + chunks[0]);
      if |c.rest| > limit then Run([], c.rest, true)
      else
        var more := PushAll(limit, c.rest, chunks[1..]);
        more.(events := EventsOf(c.blocks) + more.events)
  }

  /** A caller that owns the parser and pushes until it overflows. */
  method Reassemble(limit: nat, chunks: seq<Bytes>) returns (r: Run)
    ensures r == PushAll(limit, [], chunks)
  {
    hide Split, EventsOf;
    var parser := new SseParser.WithLimit(limit);
    var events: seq<SseEvent> := [];
    var i := 0;
    while i < |chunks|
      invariant 0 <= i <= |chunks|
      invariant fresh(parser) && parser.Valid() && parser.limitBytes == limit
      invariant var m := PushAll(limit, parser.buf, chunks[i..]);
                PushAll(limit, [], chunks) == m.(events := events + m.events)
    {
      assert chunks[i..][0] == chunks[i] && chunks[i..][1..] == chunks[i + 1..];
      var p := parser.Push(chunks[i]);
      match p {
        case Overflow(_) =>
          assert events + [] == events;
          return Run(events, parser.buf, true);
        case Frames(evs) =>
          ghost var m := PushAll(limit, parser.buf, chunks[i + 1..]);
          assert events + (evs + m.events) == (events + evs) + m.events;
          events := events + evs;
      }
      i := i + 1;
    }
    assert chunks[|chunks|..] == [];
    assert events + [] == events;
    return Run(events, parser.buf, false);
  }

  lemma {:induction false} EventsJoin(a: seq<Block>, b: seq<Block>)
    ensures EventsOf(a + b) == EventsOf(a) + EventsOf(b)
    decreases |b|
  {
    hide BlockEvent;
    if b == [] {
      assert a + b == a;
    } else {
      var c := b[..|b| - 1];
      EventsJoin(a, c);
      assert (a + b)[..|a + b| - 1] == a + c && (a + b)[|a + b| - 1] == b[|b| - 1];
      var last := EventList(BlockEvent(b[|b| - 1].body));
      assert EventsOf(a + b) == EventsOf(a + c) + last;
      assert (EventsOf(a) + EventsOf(c)) + last == EventsOf(a) + (EventsOf(c) + last);
    }
  }

  // ---- chunking invariance ----

  lemma {:induction false} RunFrom(limit: nat, seen: Bytes, chunks: seq<Bytes>)
    requires !PushAll(limit, Split(seen).rest, chunks).overflowed
    ensures var r := PushAll(limit, Split(seen).rest, chunks);
            var whole := Split(seen + Flatten(chunks));
            r.buf == whole.rest && EventsOf(whole.blocks) == EventsOf(Split(seen).blocks) + r.events
    decreases |chunks|
  {
    hide Split, EventsOf;
    if chunks == [] {
      assert seen + Flatten(chunks) == seen;
    } else {
      var step := Split(Split(seen).rest + chunks[0]);
      SplitInSteps(seen, chunks[0]);
      RunFrom(limit, seen + chunks[0], chunks[1..]);
      assert seen + Flatten(chunks) == (seen + chunks[0]) + Flatten(chunks[1..]);
      EventsJoin(Split(seen).blocks, step.blocks);
    }
  }

  /** A run that does not overflow gives what the one-shot splitter gives on all the bytes at once. */
  lemma {:induction false} ChunkingInvariance(limit: nat, chunks: seq<Bytes>)
    requires !PushAll(limit, [], chunks).overflowed
    ensures PushAll(limit, [], chunks)
         == Run(EventsOf(Split(Flatten(chunks)).blocks), Split(Flatten(chunks)).rest, false)
  {
    SplitFree([]);
    RunFrom(limit, [], chunks);
    assert [] + Flatten(chunks) == Flatten(chunks);
  }

  /** So two cuttings of the same bytes cannot be told apart. */
  lemma {:induction false} CuttingsAgree(limit: nat, a: seq<Bytes>, b: seq<Bytes>)
    requires Flatten(a) == Flatten(b)
    requires !PushAll(limit, [], a).overflowed && !PushAll(limit, [], b).overflowed
    ensures PushAll(limit, [], a) == PushAll(limit, [], b)
  {
    ChunkingInvariance(limit, a);
    ChunkingInvariance(limit, b);
  }

  /** Frames read and bytes still buffered spell the bytes fed, and the cutting is the only proper one. */
  lemma {:induction false} RunConservesBytes(limit: nat, chunks: seq<Bytes>)
    requires !PushAll(limit, [], chunks).overflowed
    ensures var r, blocks := PushAll(limit, [], chunks), Split(Flatten(chunks)).blocks;
            && Bytewise(blocks) + r.buf == Flatten(chunks)
            && ProperCutting(Cutting(blocks, r.buf))
            && r.events == EventsOf(blocks)
  {
    hide Split, BlockEvent;
    ChunkingInvariance(limit, chunks);
    SplitConserves(Flatten(chunks));
    SplitIsProper(Flatten(chunks));
  }

  // ---- overflow ----

  /** Every push leaves at most `limit` bytes without a frame end. */
  predicate Bounded(limit: nat, seen: Bytes, chunks: seq<Bytes>) {
    forall i | 0 < i <= |chunks| :: |Split(seen + Flatten(chunks[..i])).rest| <= limit
  }

  lemma {:induction false} FlattenCons(seen: Bytes, c: Bytes, rest: seq<Bytes>, i: nat)
    requires i <= |rest|
    ensures seen + Flatten(([c] + rest)[..i + 1]) == (seen + c) + Flatten(rest[..i])
  {
    assert ([c] + rest)[..i + 1] == [c] + rest[..i];
    assert ([c] + rest[..i])[1..] == rest[..i];
  }

  lemma {:induction false} BoundedCons(limit: nat, seen: Bytes, c: Bytes, rest: seq<Bytes>)
    ensures Bounded(limit, seen, [c] + rest) <==>
            |Split(seen + c).rest| <= limit && Bounded(limit, seen + c, rest)
  {
    FlattenCons(seen, c, rest, 0);
    assert (seen + c) + Flatten(rest[..0]) == seen + c;
    if Bounded(limit, seen, [c] + rest) {
      assert |Split(seen + Flatten(([c] + rest)[..1])).rest| <= limit;
      forall i | 0 < i <= |rest| ensures |Split((seen + c) + Flatten(rest[..i])).rest| <= limit {
        FlattenCons(seen, c, rest, i);
        assert |Split(seen + Flatten(([c] + rest)[..i + 1])).rest| <= limit;
      }
    }
    if |Split(seen + c).rest| <= limit && Bounded(limit, seen + c, rest) {
      forall i | 0 < i <= |rest| + 1 ensures |Split(seen + Flatten(([c] + rest)[..i])).rest| <= limit {
        FlattenCons(seen, c, rest, i - 1);
      }
    }
  }

  lemma {:induction false} OverflowFrom(limit: nat, seen: Bytes, chunks: seq<Bytes>)
    ensures PushAll(limit, Split(seen).rest, chunks).overflowed <==> !Bounded(limit, seen, chunks)
    decreases |chunks|
  {
    if chunks != [] {
      SplitInSteps(seen, chunks[0]);
      OverflowFrom(limit, seen + chunks[0], chunks[1..]);
      BoundedCons(limit, seen, chunks[0], chunks[1..]);
      assert [chunks[0]] + chunks[1..] == chunks;
    }
  }

  /** A run overflows exactly when, after some push, the bytes since the last frame end exceed the limit. */
  lemma {:induction false} OverflowIff(limit: nat, chunks: seq<Bytes>)
    ensures PushAll(limit, [], chunks).overflowed <==>
            exists i | 0 < i <= |chunks| :: |Split(Flatten(chunks[..i])).rest| > limit
  {
    SplitFree([]);
    OverflowFrom(limit, [], chunks);
    forall i | 0 < i <= |chunks| ensures [] + Flatten(chunks[..i]) == Flatten(chunks[..i]) { }
  }

  /** Delivering two adjacent pushes as one never introduces an overflow. */
  lemma {:induction false} MergingIsSafe(limit: nat, pre: seq<Bytes>, a: Bytes, b: Bytes, post: seq<Bytes>)
    requires !PushAll(limit, [], pre + [a, b] + post).overflowed
    ensures !PushAll(limit, [], pre + [a + b] + post).overflowed
  {
    var fine, merged := pre + [a, b] + post, pre + [a + b] + post;
    OverflowIff(limit, fine);
    OverflowIff(limit, merged);
    forall i | 0 < i <= |merged| ensures |Split(Flatten(merged[..i])).rest| <= limit {
      if i <= |pre| {
        assert merged[..i] == fine[..i];
      } else {
        var more := post[..i - |pre| - 1];
        assert merged[..i] == pre + [a + b] + more;
        assert fine[..i + 1] == pre + [a, b] + more;
        FlattenJoin(pre + [a + b], more);
        FlattenSnoc(pre, a + b);
        FlattenJoin(pre + [a, b], more);
        FlattenJoin(pre, [a, b]);
        assert [a, b][1..] == [b] && Flatten([b]) == b + Flatten([b][1..]) == b;
        assert Flatten([a, b]) == a + b;
      }
    }
  }

  /** Cutting a push in two can introduce one: two bytes and their terminator, limit 1. */
  lemma {:induction false} CuttingCanOverflow()
    ensures !PushAll(1, [], [[0x61, 0x62, LF, LF]]).overflowed
    ensures PushAll(1, [], [[0x61, 0x62], [LF, LF]]).overflowed
  {
    var s: Bytes := [0x61, 0x62, LF, LF];
    assert FirstEnd(s, 4);
    SplitAt(s, 4);
    assert s[4..] == [] && [] + s == s;
    SplitFree([]);
    var t: Bytes := [0x61, 0x62];
    assert [] + t == t;
    SplitFree(t);
  }

  /** The `n`-th push is the first to leave more than the limit. */
  ghost predicate FirstOver(limit: nat, chunks: seq<Bytes>, n: nat) {
    && n < |chunks| && |Split(Flatten(chunks[..n + 1])).rest| > limit
    && forall i | 0 < i <= n :: |Split(Flatten(chunks[..i])).rest| <= limit
  }

  lemma {:induction false} PushAllJoin(limit: nat, buf: Bytes, a: seq<Bytes>, b: seq<Bytes>)
    requires !PushAll(limit, buf, a).overflowed
    ensures var r := PushAll(limit, buf, a); var more := PushAll(limit, r.buf, b);
            PushAll(limit, buf, a + b) == more.(events := r.events + more.events)
    decreases |a|
  {
    hide Split, EventsOf;
    if a == [] {
      assert a + b == b;
      assert [] + PushAll(limit, buf, b).events == PushAll(limit, buf, b).events;
    } else {
      var c := Split(buf + a[0]);
      assert (a + b)[0] == a[0] && (a + b)[1..] == a[1..] + b;
      PushAllJoin(limit, c.rest, a[1..], b);
      var r := PushAll(limit, c.rest, a[1..]);
      var more := PushAll(limit, r.buf, b);
      assert EventsOf(c.blocks) + (r.events + more.events) == (EventsOf(c.blocks) + r.events) + more.events;
    }
  }

  /** An overflowing push loses every frame it had already completed, and with it everything after: the run's events are
      exactly those of the bytes before that push. */
  lemma {:induction false} OverflowDropsFrames(limit: nat, chunks: seq<Bytes>, n: nat)
    requires FirstOver(limit, chunks, n)
    ensures PushAll(limit, [], chunks)
         == Run(EventsOf(Split(Flatten(chunks[..n])).blocks), Split(Flatten(chunks[..n + 1])).rest, true)
  {
    hide Split, EventsOf;
    var before := chunks[..n];
    assert forall i | 0 < i <= n :: before[..i] == chunks[..i];
    OverflowIff(limit, before);
    ChunkingInvariance(limit, before);
    PushAllJoin(limit, [], before, chunks[n..]);
    assert chunks == before + chunks[n..];
    assert chunks[..n + 1] == before + [chunks[n]];
    FlattenSnoc(before, chunks[n]);
    SplitInSteps(Flatten(before), chunks[n]);
    var events := EventsOf(Split(Flatten(before)).blocks);
    assert events + [] == events;
  }

  /** The same bytes give their events when they come alone, and none when an oversized rest comes with them. */
  lemma {:induction false} FramesLostWithTheRest(limit: nat, frames: Bytes, rest: Bytes)
    requires Split(frames).rest == [] && FrameFree(rest) && |rest| > limit
    ensures PushAll(limit, [], [frames]).events == EventsOf(Split(frames).blocks)
    ensures PushAll(limit, [], [frames, rest]).events == EventsOf(Split(frames).blocks)
    ensures PushAll(limit, [], [frames + rest]).events == []
  {
    assert [] + frames == frames && [] + (frames + rest) == frames + rest && [] + rest == rest;
    SplitInSteps(frames, rest);
    SplitFree(rest);
    assert [frames][1..] == [] && [frames, rest][1..] == [rest];
  }

  /** An overflowing push completes a frame only if it is itself longer than the limit: the oversized rest lies
      wholly in it. */
  lemma {:induction false} LossNeedsLongRead(limit: nat, chunks: seq<Bytes>, n: nat)
    requires FirstOver(limit, chunks, n)
    ensures Split(Flatten(chunks[..n + 1])).blocks != Split(Flatten(chunks[..n])).blocks ==> |chunks[n]| > limit
  {
    hide Split, LfAt, CrLfAt;
    var before, rest := Flatten(chunks[..n]), Split(Flatten(chunks[..n])).rest;
    OnePushMore(chunks, n);
    SplitInSteps(before, chunks[n]);
    var step := Split(rest + chunks[n]);
    if step.blocks == [] {
      assert Split(before).blocks + step.blocks == Split(before).blocks;
    } else {
      RestFree(before);
      FirstBlockReaches(rest, chunks[n], |step.blocks|);
      assert step.blocks[..|step.blocks|] == step.blocks;
      SplitConserves(rest + chunks[n]);
    }
  }

  lemma {:induction false} OnePushMore(chunks: seq<Bytes>, n: nat)
    requires n < |chunks|
    ensures Flatten(chunks[..n + 1]) == Flatten(chunks[..n]) + chunks[n]
  {
    assert chunks[..n + 1] == chunks[..n] + [chunks[n]];
    FlattenSnoc(chunks[..n], chunks[n]);
  }

  /** An overflow loses no event of the bytes received exactly when the overflowing push completed no frame that gives
      one; so none is ever lost by pushes within the limit. */
  lemma {:induction false} NothingEatenIff(limit: nat, chunks: seq<Bytes>, n: nat)
    requires FirstOver(limit, chunks, n)
    ensures var received := EventsOf(Split(Flatten(chunks[..n + 1])).blocks);
            && (PushAll(limit, [], chunks).events == received
                <==> EventsOf(Split(Split(Flatten(chunks[..n])).rest + chunks[n]).blocks) == [])
            && (|chunks[n]| <= limit ==> PushAll(limit, [], chunks).events == received)
  {
    hide Split, EventsOf, PushAll;
    var before := Flatten(chunks[..n]);
    OverflowDropsFrames(limit, chunks, n);
    LossNeedsLongRead(limit, chunks, n);
    OnePushMore(chunks, n);
    SplitInSteps(before, chunks[n]);
    EventsJoin(Split(before).blocks, Split(Split(before).rest + chunks[n]).blocks);
  }

  /** Every overflowing run has such a push. */
  lemma {:induction false} FirstOverExists(limit: nat, chunks: seq<Bytes>) returns (n: nat)
    requires PushAll(limit, [], chunks).overflowed
    ensures FirstOver(limit, chunks, n)
    decreases |chunks|
  {
    hide PushAll, Split;
    OverflowIff(limit, chunks);
    var init := chunks[..|chunks| - 1];
    if PushAll(limit, [], init).overflowed {
      n := FirstOverExists(limit, init);
      assert init[..n + 1] == chunks[..n + 1];
      assert forall i | 0 < i <= n :: init[..i] == chunks[..i];
    } else {
      OverflowIff(limit, init);
      n := |init|;
      assert forall i | 0 < i <= n :: init[..i] == chunks[..i];
    }
  }

  lemma {:induction false} EventsGrow(a: Bytes, b: Bytes)
    ensures EventsOf(Split(a).blocks) <= EventsOf(Split(a + b).blocks)
  {
    hide Split, EventsOf;
    SplitInSteps(a, b);
    EventsJoin(Split(a).blocks, Split(Split(a).rest + b).blocks);
  }

  /** Overflow or not, a run never gives an event that the one-shot splitter would not give at that place. */
  lemma {:induction false} EventsArePrefix(limit: nat, chunks: seq<Bytes>)
    ensures PushAll(limit, [], chunks).events <= EventsOf(Split(Flatten(chunks)).blocks)
  {
    hide Split, EventsOf;
    if PushAll(limit, [], chunks).overflowed {
      var n := FirstOverExists(limit, chunks);
      OverflowDropsFrames(limit, chunks, n);
      assert chunks == chunks[..n] + chunks[n..];
      FlattenJoin(chunks[..n], chunks[n..]);
      EventsGrow(Flatten(chunks[..n]), Flatten(chunks[n..]));
    } else {
      ChunkingInvariance(limit, chunks);
    }
  }

  // ---- strict decoding ----

  predicate Decoded(evs: seq<SseEvent>) {
    forall i | 0 <= i < |evs| :: !evs[i].payload.Undecodable?
  }

  lemma {:induction false} WellFormedAroundEnd(s: Bytes, k: nat)
    requires WellFormed(s) && EndsFrame(s, k)
    ensures WellFormed(BlockAt(s, k).body) && WellFormed(s[k..])
  {
    CutAtAscii(s, k - SepLen(s, k));
    CutAtAscii(s, k - 1);
  }

  lemma {:induction false} OneBlock(b: Block)
    ensures EventsOf([b]) == EventList(BlockEvent(b.body))
  {
    assert [b][..0] == [];
  }

  /** Frame ends are ASCII, so cutting there never splits a character. */
  lemma {:induction false} WellFormedStreamSplits(s: Bytes)
    requires WellFormed(s)
    ensures Decoded(EventsOf(Split(s).blocks)) && WellFormed(Split(s).rest)
    decreases |s|
  {
    match FindEnd(s, 0)
    case None =>
    case Some(k) =>
      WellFormedAroundEnd(s, k);
      WellFormedStreamSplits(s[k..]);
      EventsJoin([BlockAt(s, k)], Split(s[k..]).blocks);
      OneBlock(BlockAt(s, k));
  }

  /** A block is undecodable exactly if no text has its bytes, and is then reported with those bytes. */
  lemma {:induction false} UndecodableIff(body: Bytes)
    ensures !IsText(body) ==> BlockEvent(body) == Some(SseEvent(Undecodable(body), |body|))
    ensures BlockEvent(body).Some? && BlockEvent(body).value.payload.Undecodable? <==> !IsText(body)
  {
    hide WellFormed;
    WellFormedIff(body);
  }

  /** Whatever the chunking of the bytes of a text, no frame is undecodable, even if the run overflows in the end, and
      neither is the tail of a run that does not. */
  lemma {:induction false} Utf8Safety(limit: nat, text: seq<scalar>, chunks: seq<Bytes>)
    requires Flatten(chunks) == EncodeAll(text)
    ensures Decoded(PushAll(limit, [], chunks).events)
    ensures !PushAll(limit, [], chunks).overflowed ==> Decoded(TailEvents(PushAll(limit, [], chunks).buf))
  {
    hide PushAll, Split, EventsOf, EncodeAll;
    EncodedWellFormed(text);
    EventsArePrefix(limit, chunks);
    WellFormedStreamSplits(Flatten(chunks));
    if !PushAll(limit, [], chunks).overflowed { ChunkingInvariance(limit, chunks); }
  }

  /** A frame whose bytes are no text is reported with exactly those bytes, and every other frame reads as if it were
      alone; a run that overflows gives the first of these events. */
  lemma {:induction false} BadFrameIsIsolated(limit: nat, pre: seq<Block>, bad: Block, post: seq<Block>, rest: Bytes,
                                              chunks: seq<Bytes>)
    requires ProperCutting(Cutting(pre + [bad] + post, rest)) && !IsText(bad.body)
    requires Flatten(chunks) == Bytewise(pre + [bad] + post) + rest
    ensures var r := PushAll(limit, [], chunks);
            var all := EventsOf(pre) + [SseEvent(Undecodable(bad.body), |bad.body|)] + EventsOf(post);
            r.events <= all && (!r.overflowed ==> r.events == all)
  {
    hide PushAll, Split, BlockEvent, IsText;
    EventsArePrefix(limit, chunks);
    if !PushAll(limit, [], chunks).overflowed { ChunkingInvariance(limit, chunks); }
    SplitIsTheOnlyCutting(Cutting(pre + [bad] + post, rest));
    EventsJoin(pre + [bad], post);
    EventsJoin(pre, [bad]);
    OneBlock(bad);
    UndecodableIff(bad.body);
  }
}
