/** Where frames end: the specification that the parser of `Sse` is proved against,
    in two forms. `Split` cuts a whole byte string at its earliest frame ends;
    `ScanAll` reads one byte at a time. They agree on every input. */
module Framing {
  import opened Text

  /** A frame without its terminator, and the terminator. */
  datatype Block = Block(body: Bytes, sep: Bytes)

  datatype Cutting = Cutting(blocks: seq<Block>, rest: Bytes)

  const LFLF: Bytes := [LF, LF]
  const CRLFCRLF: Bytes := [CR, LF, CR, LF]

  predicate LfAt(s: Bytes, k: nat) { 2 <= k <= |s| && s[k - 2] == LF && s[k - 1] == LF }

  predicate CrLfAt(s: Bytes, k: nat) {
    4 <= k <= |s| && s[k - 4] == CR && s[k - 3] == LF && s[k - 2] == CR && s[k - 1] == LF
  }

  /** The first `k` bytes of `s` end with a frame terminator. */
  predicate EndsFrame(s: Bytes, k: nat) { LfAt(s, k) || CrLfAt(s, k) }

  ghost predicate FrameFree(s: Bytes) { forall k: nat :: !EndsFrame(s, k) }

  /** `k` is the shortest prefix of `s` that ends with a frame terminator. */
  ghost predicate FirstEnd(s: Bytes, k: nat) {
    EndsFrame(s, k) && forall j: nat | j < k :: !EndsFrame(s, j)
  }

  function SepLen(s: Bytes, k: nat): (n: nat)
    requires EndsFrame(s, k)
    ensures n == 2 || n == 4
    ensures n <= k
  {
    if LfAt(s, k) then 2 else 4
  }

  function FindEnd(s: Bytes, k: nat): (r: Option<nat>)
    requires forall j: nat | j < k :: !EndsFrame(s, j)
    ensures r.Some? ==> FirstEnd(s, r.value)
    ensures r.None? ==> FrameFree(s)
    decreases |s| + 1 - k
  {
    if k > |s| then None
    else if EndsFrame(s, k) then Some(k)
    else FindEnd(s, k + 1)
  }

  function BlockAt(s: Bytes, k: nat): Block
    requires EndsFrame(s, k)
  {
    Block(s[..k - SepLen(s, k)], s[k - SepLen(s, k)..k])
  }

  /** Cut `s` at its earliest frame end, over and over. */
  function Split(s: Bytes): Cutting
    decreases |s|
  {
    match FindEnd(s, 0)
    case None => Cutting([], s)
    case Some(k) =>
      var more := Split(s[k..]);
      Cutting([BlockAt(s, k)] + more.blocks, more.rest)
  }

  function ScanByte(c: Cutting, b: byte): Cutting {
    var p := c.rest + [b];
    if EndsFrame(p, |p|) then Cutting(c.blocks + [BlockAt(p, |p|)], []) else Cutting(c.blocks, p)
  }

  /** Read `s` one byte at a time; a frame is complete as soon as its last byte is there. */
  function ScanAll(c: Cutting, s: Bytes): Cutting
    decreases |s|
  {
    if s == [] then c else ScanAll(ScanByte(c, s[0]), s[1..])
  }

  const NOTHING_READ := Cutting([], [])

  lemma {:induction false} EndsFrameLocal(s: Bytes, t: Bytes, k: nat)
    requires k <= |s|
    ensures EndsFrame(s + t, k) == EndsFrame(s, k)
    ensures EndsFrame(s, k) ==> BlockAt(s + t, k) == BlockAt(s, k)
  {
    if EndsFrame(s, k) {
      assert (s + t)[..k - SepLen(s, k)] == s[..k - SepLen(s, k)];
      assert (s + t)[k - SepLen(s, k)..k] == s[k - SepLen(s, k)..k];
    }
  }

  lemma {:induction false} FrameFreePrefix(s: Bytes, t: Bytes)
    requires FrameFree(s + t)
    ensures FrameFree(s)
  {
    forall k: nat ensures !EndsFrame(s, k) {
      if k <= |s| { EndsFrameLocal(s, t, k); }
    }
  }

  lemma FirstEndUnique(s: Bytes, j: nat, k: nat)
    requires FirstEnd(s, j) && FirstEnd(s, k)
    ensures j == k
  {
  }

  /** More bytes never move the first frame end. */
  lemma {:induction false} FirstEndStable(s: Bytes, t: Bytes, k: nat)
    requires FirstEnd(s, k)
    ensures FirstEnd(s + t, k) && BlockAt(s + t, k) == BlockAt(s, k)
  {
    EndsFrameLocal(s, t, k);
    forall j: nat | j < k ensures !EndsFrame(s + t, j) {
      EndsFrameLocal(s, t, j);
    }
  }

  lemma {:induction false} SplitAt(s: Bytes, k: nat)
    requires FirstEnd(s, k)
    ensures Split(s) == Cutting([BlockAt(s, k)] + Split(s[k..]).blocks, Split(s[k..]).rest)
  {
    var r := FindEnd(s, 0);
    assert r.Some?;
    FirstEndUnique(s, k, r.value);
  }

  lemma {:induction false} SplitFree(s: Bytes)
    requires FrameFree(s)
    ensures Split(s) == Cutting([], s)
  {
    assert FindEnd(s, 0).None?;
  }

  lemma {:induction false} ScanJoin(c: Cutting, a: Bytes, b: Bytes)
    ensures ScanAll(c, a + b) == ScanAll(ScanAll(c, a), b)
    decreases |a|
  {
    if a == [] {
      assert a + b == b;
    } else {
      assert (a + b)[1..] == a[1..] + b;
      ScanJoin(ScanByte(c, a[0]), a[1..], b);
    }
  }

  lemma {:induction false} ScanShift(pre: seq<Block>, c: Cutting, s: Bytes)
    ensures ScanAll(Cutting(pre + c.blocks, c.rest), s)
         == Cutting(pre + ScanAll(c, s).blocks, ScanAll(c, s).rest)
    decreases |s|
  {
    if s != [] {
      var d := ScanByte(c, s[0]);
      ScanShift(pre, d, s[1..]);
      assert pre + d.blocks == if |d.blocks| == |c.blocks| then pre + c.blocks
                               else (pre + c.blocks) + [d.blocks[|c.blocks|]];
    }
  }

  lemma {:induction false} ScanFree(bs: seq<Block>, s: Bytes)
    requires FrameFree(s)
    ensures ScanAll(Cutting(bs, []), s) == Cutting(bs, s)
    decreases |s|
  {
    if s != [] {
      var a, z := s[..|s| - 1], s[|s| - 1];
      assert s == a + [z];
      FrameFreePrefix(a, [z]);
      ScanFree(bs, a);
      ScanJoin(Cutting(bs, []), a, [z]);
      assert ScanAll(Cutting(bs, a), [z]) == ScanByte(Cutting(bs, a), z);
    }
  }

  lemma {:induction false} ScanToEnd(s: Bytes, k: nat)
    requires FirstEnd(s, k)
    ensures ScanAll(NOTHING_READ, s[..k]) == Cutting([BlockAt(s, k)], [])
  {
    var a := s[..k - 1];
    var p := s[..k];
    assert p == a + [s[k - 1]];
    assert s == p + s[k..] && s == a + s[k - 1..];
    forall j: nat ensures !EndsFrame(a, j) {
      if j <= |a| { EndsFrameLocal(a, s[k - 1..], j); }
    }
    ScanFree([], a);
    ScanJoin(NOTHING_READ, a, [s[k - 1]]);
    EndsFrameLocal(p, s[k..], k);
    assert ScanAll(Cutting([], a), [s[k - 1]]) == ScanByte(Cutting([], a), s[k - 1]);
    assert [] + [BlockAt(p, k)] == [BlockAt(s, k)];
  }

  /** The one-shot splitter and the byte-at-a-time scanner agree. */
  lemma {:induction false} SplitIsScan(s: Bytes)
    ensures Split(s) == ScanAll(NOTHING_READ, s)
    decreases |s|
  {
    match FindEnd(s, 0)
    case None =>
      ScanFree([], s);
    case Some(k) =>
      assert s == s[..k] + s[k..];
      ScanToEnd(s, k);
      ScanJoin(NOTHING_READ, s[..k], s[k..]);
      var b := [BlockAt(s, k)];
      assert b + NOTHING_READ.blocks == b;
      ScanShift(b, NOTHING_READ, s[k..]);
      SplitIsScan(s[k..]);
  }

  lemma {:induction false} RestFree(s: Bytes)
    ensures FrameFree(Split(s).rest)
    decreases |s|
  {
    match FindEnd(s, 0)
    case None =>
    case Some(k) => RestFree(s[k..]);
  }

  /** Splitting in two steps: what is left over after `a` is all that matters for `b`. */
  lemma {:induction false} SplitInSteps(a: Bytes, b: Bytes)
    ensures Split(a + b) == Cutting(Split(a).blocks + Split(Split(a).rest + b).blocks,
                                    Split(Split(a).rest + b).rest)
  {
    var c := Split(a);
    SplitIsScan(a);
    SplitIsScan(a + b);
    SplitIsScan(c.rest + b);
    ScanJoin(NOTHING_READ, a, b);
    ScanJoin(NOTHING_READ, c.rest, b);
    RestFree(a);
    ScanFree([], c.rest);
    assert c.blocks + Cutting([], c.rest).blocks == c.blocks;
    ScanShift(c.blocks, Cutting([], c.rest), b);
  }

  function Bytewise(blocks: seq<Block>): Bytes {
    if blocks == [] then [] else blocks[0].body + blocks[0].sep + Bytewise(blocks[1..])
  }

  /** A block is exactly one frame: it ends with a terminator and holds no earlier one. */
  ghost predicate WholeFrame(b: Block) {
    && (b.sep == LFLF || b.sep == CRLFCRLF)
    && FirstEnd(b.body + b.sep, |b.body + b.sep|)
  }

  ghost predicate ProperCutting(c: Cutting) {
    (forall i | 0 <= i < |c.blocks| :: WholeFrame(c.blocks[i])) && FrameFree(c.rest)
  }

  lemma {:induction false} BlockAtWhole(s: Bytes, k: nat)
    requires FirstEnd(s, k)
    ensures WholeFrame(BlockAt(s, k))
    ensures BlockAt(s, k).body + BlockAt(s, k).sep == s[..k]
  {
    var b := BlockAt(s, k);
    assert b.body + b.sep == s[..k];
    assert s == s[..k] + s[k..];
    forall j: nat | j <= k ensures EndsFrame(s[..k], j) == EndsFrame(s, j) {
      EndsFrameLocal(s[..k], s[k..], j);
    }
  }

  lemma {:induction false} BytewiseCons(b: Block, bs: seq<Block>)
    ensures Bytewise([b] + bs) == b.body + b.sep + Bytewise(bs)
  {
    assert ([b] + bs)[1..] == bs;
  }

  lemma {:induction false} ConsParts(s: Bytes, k: nat, x: Bytes, y: Bytes)
    requires k <= |s| && x + y == s[k..]
    ensures s[..k] + x + y == s
  {
    assert s[..k] + x + y == s[..k] + (x + y);
  }

  /** Nothing is lost, added or reordered. */
  lemma {:induction false} SplitConserves(s: Bytes)
    ensures Bytewise(Split(s).blocks) + Split(s).rest == s
    decreases |s|
  {
    match FindEnd(s, 0)
    case None =>
    case Some(k) =>
      BlockAtWhole(s, k);
      SplitConserves(s[k..]);
      BytewiseCons(BlockAt(s, k), Split(s[k..]).blocks);
      ConsParts(s, k, Bytewise(Split(s[k..]).blocks), Split(s[k..]).rest);
  }

  /** Every block is one whole frame, and no frame is left in the rest. */
  lemma {:induction false} SplitIsProper(s: Bytes)
    ensures ProperCutting(Split(s))
    decreases |s|
  {
    match FindEnd(s, 0)
    case None =>
    case Some(k) =>
      BlockAtWhole(s, k);
      SplitIsProper(s[k..]);
      assert Split(s).blocks == [BlockAt(s, k)] + Split(s[k..]).blocks;
  }

  lemma {:induction false} WholeFrameAt(b: Block)
    requires WholeFrame(b)
    ensures BlockAt(b.body + b.sep, |b.body + b.sep|) == b
  {
    var head := b.body + b.sep;
    assert head[..|b.body|] == b.body && head[|b.body|..|head|] == b.sep;
    if b.sep == LFLF {
      assert LfAt(head, |head|);
    } else {
      assert head[|head| - 2] == b.sep[2] == CR;
    }
  }

  /** `Split` is the only proper cutting: any other list of whole frames that spells the same bytes is it. */
  lemma {:induction false} SplitIsTheOnlyCutting(c: Cutting)
    requires ProperCutting(c)
    ensures Split(Bytewise(c.blocks) + c.rest) == c
    decreases |c.blocks|
  {
    hide Split, LfAt, CrLfAt, BlockAt;
    var s := Bytewise(c.blocks) + c.rest;
    if c.blocks == [] {
      assert s == c.rest;
      SplitFree(s);
    } else {
      var b, more := c.blocks[0], Cutting(c.blocks[1..], c.rest);
      var head := b.body + b.sep;
      var tail := Bytewise(more.blocks) + more.rest;
      assert s == head + tail;
      FirstEndStable(head, tail, |head|);
      SplitAt(s, |head|);
      assert s[|head|..] == tail;
      WholeFrameAt(b);
      assert forall i | 0 <= i < |more.blocks| :: more.blocks[i] == c.blocks[i + 1];
      SplitIsTheOnlyCutting(more);
      assert [b] + more.blocks == c.blocks;
    }
  }

  /** The first frame of a push reaches into the pushed bytes: nothing before them was a whole frame. */
  lemma {:induction false} FirstBlockReaches(buf: Bytes, bytes: Bytes, k: nat)
    requires FrameFree(buf) && 0 < k <= |Split(buf + bytes).blocks|
    ensures |Bytewise(Split(buf + bytes).blocks[..k])| > |buf|
  {
    var s := buf + bytes;
    var blocks, rest := Split(s).blocks, Split(s).rest;
    SplitIsProper(s);
    SplitConserves(s);
    hide Split, LfAt, CrLfAt;
    var head := blocks[0].body + blocks[0].sep;
    FirstBlockLength(blocks, k);
    assert WholeFrame(blocks[0]);
    assert Bytewise(blocks) == head + Bytewise(blocks[1..]);
    assert s == head + (Bytewise(blocks[1..]) + rest);
    EndsFrameLocal(head, Bytewise(blocks[1..]) + rest, |head|);
    if |head| <= |buf| { EndsFrameLocal(buf, bytes, |head|); }
  }

  lemma {:induction false} FirstBlockLength(blocks: seq<Block>, k: nat)
    requires 0 < k <= |blocks|
    ensures |Bytewise(blocks[..k])| >= |blocks[0].body + blocks[0].sep|
  {
    assert blocks[..k][1..] == blocks[1..k] && blocks[..k][0] == blocks[0];
  }
}
