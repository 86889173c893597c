/** Incremental reassembly of Server-Sent Events (chat2/src/sse.rs). */
module Sse {
  import opened Text
  import opened Framing

  datatype SsePayload =
    | Comment(comment: Bytes)
    | Data(data: Bytes)
    | Undecodable(raw: Bytes)

  datatype SseEvent = SseEvent(payload: SsePayload, rawByteLen: nat)

  datatype PushResult = Frames(events: seq<SseEvent>) | Overflow(limitBytes: nat)

  const DEFAULT_BUF_LIMIT: nat := 0x10_0000

  // ---- what one block means ----

  function StripCr(line: Bytes): Bytes {
    if line != [] && line[|line| - 1] == CR then line[..|line| - 1] else line
  }

  /** `str::lines`: cut after each LF, drop the LF and a CR just before it. */
  function Lines(text: Bytes): seq<Bytes>
    decreases |text|
  {
    if text == [] then []
    else
      match IndexOf(text, LF)
      case None => [text]
      case Some(i) => [StripCr(text[..i])] + Lines(text[i + 1..])
  }

  const DATA: Bytes := [0x64, 0x61, 0x74, 0x61]

  function StripSpace(v: Bytes): Bytes { if v != [] && v[0] == SPACE then v[1..] else v }

  /** The value of a `data` line; None for every other line. */
  function DataValue(line: Bytes): Option<Bytes> {
    match IndexOf(line, COLON)
    case None => if line == DATA then Some([]) else None
    case Some(i) => if line[..i] == DATA then Some(StripSpace(line[i + 1..])) else None
  }

  function DataValues(lines: seq<Bytes>): seq<Bytes> {
    if lines == [] then []
    else
      DataValues(lines[..|lines| - 1]) +
      match DataValue(lines[|lines| - 1]) { case None => [] case Some(v) => [v] }
  }

  /** `values.join("\n")`. */
  function Join(values: seq<Bytes>): Bytes {
    if values == [] then []
    else if |values| == 1 then values[0]
    else values[0] + [LF] + Join(values[1..])
  }

  function BlockEvent(body: Bytes): Option<SseEvent> {
    if !WellFormed(body) then Some(SseEvent(Undecodable(body), |body|))
    else if body != [] && body[0] == COLON then Some(SseEvent(Comment(body), |body|))
    else
      var values := DataValues(Lines(body));
      if values == [] then None else Some(SseEvent(Data(Join(values)), |body|))
  }

  function EventList(ev: Option<SseEvent>): seq<SseEvent> {
    match ev { case None => [] case Some(e) => [e] }
  }

  function EventsOf(blocks: seq<Block>): seq<SseEvent> {
    if blocks == [] then []
    else EventsOf(blocks[..|blocks| - 1]) + EventList(BlockEvent(blocks[|blocks| - 1].body))
  }

  // ---- the code ----

  predicate MatchAt(hay: Bytes, needle: Bytes, i: nat) {
    i + |needle| <= |hay| && hay[i..i + |needle|] == needle
  }

  /** Position of the first window of `hay` equal to `needle`. */
  function Find(hay: Bytes, needle: Bytes): (r: Option<nat>)
    ensures r.Some? ==> MatchAt(hay, needle, r.value) && forall j: nat | j < r.value :: !MatchAt(hay, needle, j)
    ensures r.None? && needle != [] ==> forall j: nat :: !MatchAt(hay, needle, j)
  {
    if |needle| == 0 || |hay| < |needle| then None else FindFrom(hay, needle, 0)
  }

  function FindFrom(hay: Bytes, needle: Bytes, i: nat): (r: Option<nat>)
    requires forall j: nat | j < i :: !MatchAt(hay, needle, j)
    ensures r.Some? ==> MatchAt(hay, needle, r.value) && forall j: nat | j < r.value :: !MatchAt(hay, needle, j)
    ensures r.None? ==> forall j: nat :: !MatchAt(hay, needle, j)
    decreases |hay| + 1 - i
  {
    if i > |hay| then None
    else if MatchAt(hay, needle, i) then Some(i)
    else FindFrom(hay, needle, i + 1)
  }

  /** The terminator that starts first is the one that is complete first, so the parser's choice
      between the two kinds is the shortest terminated prefix; with neither, there is none. */
  lemma {:induction false} EarliestStartIsEarliestEnd(s: Bytes, lf: Option<nat>, crlf: Option<nat>)
    requires lf == Find(s, LFLF) && crlf == Find(s, CRLFCRLF)
    ensures lf.None? && crlf.None? ==> FrameFree(s)
    ensures crlf.Some? && (lf.None? || crlf.value < lf.value) ==>
              FirstEnd(s, crlf.value + 4) && SepLen(s, crlf.value + 4) == 4
    ensures lf.Some? && (crlf.None? || crlf.value >= lf.value) ==>
              FirstEnd(s, lf.value + 2) && SepLen(s, lf.value + 2) == 2
  {
    forall k: nat ensures LfAt(s, k) <==> k >= 2 && MatchAt(s, LFLF, k - 2) { LfMatch(s, k); }
    forall k: nat ensures CrLfAt(s, k) <==> k >= 4 && MatchAt(s, CRLFCRLF, k - 4) { CrLfMatch(s, k); }
  }

  lemma {:induction false} LfMatch(s: Bytes, k: nat)
    ensures LfAt(s, k) <==> k >= 2 && MatchAt(s, LFLF, k - 2)
  {
    if 2 <= k <= |s| {
      assert s[k - 2..k] == [s[k - 2], s[k - 1]];
    }
  }

  lemma {:induction false} CrLfMatch(s: Bytes, k: nat)
    ensures CrLfAt(s, k) <==> k >= 4 && MatchAt(s, CRLFCRLF, k - 4)
  {
    if 4 <= k <= |s| {
      assert s[k - 4..k] == [s[k - 4], s[k - 3], s[k - 2], s[k - 1]];
    }
  }

  /** One turn of the drain loop moves the first block of the buffer to the blocks done. */
  lemma {:induction false} Peel(all: Cutting, done: seq<Block>, buf: Bytes, k: nat)
    requires FirstEnd(buf, k)
    requires all == Cutting(done + Split(buf).blocks, Split(buf).rest)
    ensures var b := BlockAt(buf, k);
            && all == Cutting((done + [b]) + Split(buf[k..]).blocks, Split(buf[k..]).rest)
            && EventsOf(done + [b]) == EventsOf(done) + EventList(BlockEvent(b.body))
  {
    hide Split, BlockEvent;
    var b := BlockAt(buf, k);
    SplitAt(buf, k);
    assert done + ([b] + Split(buf[k..]).blocks) == (done + [b]) + Split(buf[k..]).blocks;
    assert (done + [b])[..|done|] == done;
  }

  method ParseBlock(bytes: Bytes) returns (ev: Option<SseEvent>)
    ensures ev == BlockEvent(bytes)
  {
    if !WellFormed(bytes) {
      return Some(SseEvent(Undecodable(bytes), |bytes|));
    }
    if |bytes| > 0 && bytes[0] == COLON {
      return Some(SseEvent(Comment(bytes), |bytes|));
    }
    var data: seq<Bytes> := [];
    var lines := Lines(bytes);
    for i := 0 to |lines|
      invariant data == DataValues(lines[..i])
    {
      var line := lines[i];
      assert lines[..i + 1][..i] == lines[..i];
      if |line| > 0 && line[0] == COLON {
        assert DataValue(line).None? by { assert IndexOf(line, COLON).value == 0; }
        continue;
      }
      var field, value := line, [];
      match IndexOf(line, COLON) {
        case None =>
        case Some(k) => field, value := line[..k], StripSpace(line[k + 1..]);
      }
      if field == DATA {
        data := data + [value];
      }
    }
    assert lines[..|lines|] == lines;
    if |data| == 0 {
      return None;
    }
    return Some(SseEvent(Data(Join(data)), |bytes|));
  }

  class SseParser {
    var buf: Bytes
    const limitBytes: nat
    ghost var fed: Bytes // every byte ever pushed

    /** The buffer is what the splitter leaves of everything fed so far. */
    ghost predicate Valid()
      reads this
    {
      buf == Split(fed).rest
    }

    constructor WithLimit(limitBytes: nat)
      ensures Valid() && fed == [] && buf == [] && this.limitBytes == limitBytes
    {
      buf, this.limitBytes, fed := [], limitBytes, [];
      new;
      SplitFree([]);
    }

    /** Frames completed by `chunk` come out in order. An overflow keeps the leftover but loses those frames. */
    method Push(chunk: Bytes) returns (r: PushResult)
      requires Valid()
      modifies this
      ensures Valid() && fed == old(fed) + chunk
      ensures buf == Split(old(buf) + chunk).rest
      ensures r == if |buf| > limitBytes then Overflow(limitBytes)
                   else Frames(EventsOf(Split(old(buf) + chunk).blocks))
      ensures Split(fed).blocks == Split(old(fed)).blocks + Split(old(buf) + chunk).blocks
    {
      hide Split, BlockEvent, Find, LfAt, CrLfAt;
      SplitInSteps(fed, chunk);
      fed := fed + chunk;
      buf := buf + chunk;
      var out: seq<SseEvent> := [];
      ghost var done: seq<Block> := [];
      ghost var all := Split(buf);
      while true
        invariant fed == old(fed) + chunk
        invariant all == Cutting(done + Split(buf).blocks, Split(buf).rest)
        invariant out == EventsOf(done)
        decreases |buf|
      {
        var lf := Find(buf, LFLF);
        var crlf := Find(buf, CRLFCRLF);
        EarliestStartIsEarliestEnd(buf, lf, crlf);
        var end, sepLen := 0, 0;
        match (lf, crlf) {
          case (Some(a), Some(b)) => if b < a { end, sepLen := b, 4; } else { end, sepLen := a, 2; }
          case (Some(a), None) => end, sepLen := a, 2;
          case (None, Some(b)) => end, sepLen := b, 4;
          case (None, None) => break;
        }
        Peel(all, done, buf, end + sepLen);
        done := done + [BlockAt(buf, end + sepLen)];
        var block := buf[..end + sepLen];
        buf := buf[end + sepLen..];
        assert block[..end] == done[|done| - 1].body;
        var ev := ParseBlock(block[..end]);
        match ev {
          case Some(e) => out := out + [e];
          case None =>
        }
      }
      SplitFree(buf);
      assert done + [] == done;
      if |buf| > limitBytes {
        return Overflow(limitBytes);
      }
      return Frames(out);
    }

    /** Bytes since the last frame end. */
    method Buffered() returns (n: nat)
      requires Valid()
      ensures n == |Split(fed).rest|
    {
      n := |buf|;
    }

    /** The whole leftover becomes either one recovered event or residue. */
    method FinishWithResidue() returns (tail: seq<SseEvent>, residue: Bytes)
      modifies this
      ensures buf == []
      ensures tail == TailEvents(old(buf))
      ensures residue == if old(buf) == [] || BlockEvent(old(buf)).Some? then [] else old(buf)
    {
      var rest := buf;
      buf := [];
      if |rest| == 0 {
        return [], [];
      }
      var ev := ParseBlock(rest);
      match ev {
        case Some(e) => return [e], [];
        case None => return [], rest;
      }
    }
  }

  /** What is recovered from the bytes left at end of stream. */
  function TailEvents(rest: Bytes): seq<SseEvent> {
    if rest == [] then [] else EventList(BlockEvent(rest))
  }
}
