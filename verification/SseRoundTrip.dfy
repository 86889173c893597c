/** Reading back what a sender wrote, line by line: the field grammar of an event stream (section 9.2.6 of the WHATWG
    HTML Living Standard) as the reader should see it, in Unicode characters. */
module SseRoundTrip {
  import opened Text
  import opened Utf8
  import opened Framing
  import opened Sse
  import opened SseRuns

  type Chars = seq<scalar>

  datatype LineEnd = Lf | CrLf

  function Eol(e: LineEnd): Bytes { match e { case Lf => [LF] case CrLf => [CR, LF] } }

  /** What a sender can put on a line. */
  datatype Line =
    | Value(value: Chars, spaced: bool)           // a data line, with or without the space after the colon
    | Bare                                        // a data line without colon
    | Field(name: Chars, content: Option<Chars>)  // any other field, with or without colon
    | Remark(text: Chars)                         // a comment line

  /** A line and the end that follows it. */
  datatype Sent = Sent(line: Line, eol: LineEnd)

  /** A frame is its lines; the end of the last one is doubled. */
  type Frame = ls: seq<Sent> | ls != [] witness [Sent(Bare, Lf)]

  const COLON_CHAR: scalar := 0x3A
  const SPACE_CHAR: scalar := 0x20

  function Spelled(l: Line): Chars {
    match l
    case Value(v, spaced) => Codes("data") + [COLON_CHAR] + (if spaced then [SPACE_CHAR] else []) + v
    case Bare => Codes("data")
    case Field(name, None) => name
    case Field(name, Some(v)) => name + [COLON_CHAR] + v
    case Remark(text) => [COLON_CHAR] + text
  }

  /** The line can only be read as it is meant. */
  predicate Unambiguous(l: Line) {
    && LF !in Spelled(l)
    && (l.Value? && !l.spaced && l.value != [] ==> l.value[0] != SPACE_CHAR)
    && (l.Field? ==> l.name != [] && COLON_CHAR !in l.name && CR !in l.name && l.name != Codes("data"))
  }

  predicate EndsInCr(cs: Chars) { cs != [] && cs[|cs| - 1] == CR }

  /** Every line is unambiguous, and so is every line end: a CR is not followed by a lone LF. */
  predicate Readable(f: Frame) {
    && (forall i | 0 <= i < |f| :: Unambiguous(f[i].line))
    && (forall i | 0 <= i < |f| - 1 && f[i].eol == Lf :: !EndsInCr(Spelled(f[i].line)))
  }

  function Body(f: Frame): Bytes {
    var head := EncodeAll(Spelled(f[0].line));
    if |f| == 1 then head else head + Eol(f[0].eol) + Body(f[1..])
  }

  function Rendered(f: Frame): Block {
    var e := Eol(f[|f| - 1].eol);
    Block(Body(f), e + e)
  }

  function RenderAll(fs: seq<Frame>): seq<Block> {
    if fs == [] then [] else RenderAll(fs[..|fs| - 1]) + [Rendered(fs[|fs| - 1])]
  }

  // ---- what a frame means ----

  function Values(f: seq<Sent>): seq<Chars> {
    if f == [] then []
    else
      (match f[0].line
       case Value(v, _) => [v]
       case Bare => [[]]
       case _ => []) + Values(f[1..])
  }

  /** Values put together with a line feed between each and the next. */
  function Lined(vs: seq<Chars>): Chars {
    if vs == [] then [] else if |vs| == 1 then vs[0] else vs[0] + [LF] + Lined(vs[1..])
  }

  /** A frame that begins with a comment is that comment, whole; any other is its data values, and nothing at all
      if it has none. */
  function Meaning(f: Frame): seq<SseEvent> {
    if f[0].line.Remark? then [SseEvent(Comment(Body(f)), |Body(f)|)]
    else if Values(f) == [] then []
    else [SseEvent(Data(EncodeAll(Lined(Values(f)))), |Body(f)|)]
  }

  function Meanings(fs: seq<Frame>): seq<SseEvent> {
    if fs == [] then [] else Meanings(fs[..|fs| - 1]) + Meaning(fs[|fs| - 1])
  }

  // ---- a rendered frame is one whole frame ----

  /** Every LF is followed by a byte that is no line end. */
  predicate LfThenText(s: Bytes) {
    forall i | 0 <= i < |s| && s[i] == LF :: i + 1 < |s| && s[i + 1] != LF && s[i + 1] != CR
  }

  /** A line as it is on the wire. */
  function OnWire(l: Line): Bytes { EncodeAll(Spelled(l)) }

  lemma {:induction false} OnWireStarts(l: Line)
    requires Unambiguous(l)
    ensures LF !in OnWire(l) && OnWire(l) != [] && OnWire(l)[0] != LF && OnWire(l)[0] != CR
    ensures EndsInCr(Spelled(l)) <==> OnWire(l)[|OnWire(l)| - 1] == CR
  {
    hide EncodeAll;
    var cs := Spelled(l);
    assert cs != [] && cs[0] != CR by {
      match l
      case Value(_, _) => assert cs[0] == Codes("data")[0] == 0x64;
      case Bare => assert cs[0] == Codes("data")[0] == 0x64;
      case Field(_, _) => assert cs[0] == l.name[0];
      case Remark(_) =>
    }
    AsciiOccurs(cs, LF);
    AsciiFirst(cs, CR);
    AsciiLast(cs, CR);
    assert OnWire(l)[0] in OnWire(l);
  }

  lemma {:induction false} LfThenTextJoin(a: Bytes, e: LineEnd, b: Bytes)
    requires LF !in a && LfThenText(b) && b != [] && b[0] != LF && b[0] != CR
    ensures LfThenText(a + Eol(e) + b)
  {
    var s := a + Eol(e) + b;
    var n := |a| + |Eol(e)|;
    assert s[n..] == b;
    assert forall i | 0 <= i < |a| :: s[i] == a[i] && a[i] in a;
    forall i | 0 <= i < |s| && s[i] == LF ensures i + 1 < |s| && s[i + 1] != LF && s[i + 1] != CR {
      if i >= n {
        assert s[i] == b[i - n];
        assert s[i + 1] == b[i - n + 1];
      } else {
        assert i >= |a|;
        assert s[i] == Eol(e)[i - |a|];
        assert i == n - 1;
        assert s[n] == b[0];
      }
    }
  }

  lemma {:induction false} Later(f: Frame)
    requires Readable(f) && |f| > 1
    ensures Readable(f[1..]) && f[1..][|f| - 2] == f[|f| - 1]
  {
    hide Unambiguous, EndsInCr;
    assert forall i | 0 <= i < |f[1..]| :: f[1..][i] == f[i + 1];
  }

  lemma {:induction false} BodyLfThenText(f: Frame)
    requires Readable(f)
    ensures LfThenText(Body(f)) && Body(f) != [] && Body(f)[0] != LF && Body(f)[0] != CR
    decreases |f|
  {
    hide EncodeAll, Spelled, Unambiguous, Eol;
    var head := OnWire(f[0].line);
    OnWireStarts(f[0].line);
    if |f| > 1 {
      Later(f);
      BodyLfThenText(f[1..]);
      hide LfThenText;
      LfThenTextJoin(head, f[0].eol, Body(f[1..]));
    }
  }

  lemma {:induction false} NoEarlyEnd(body: Bytes, e: LineEnd)
    requires LfThenText(body)
    ensures WholeFrame(Block(body, Eol(e) + Eol(e)))
  {
    var sep := Eol(e) + Eol(e);
    var s := body + sep;
    assert s[..|body|] == body && s[|body|..] == sep;
    assert forall i | 0 <= i < |body| :: s[i] == body[i];
    assert forall i | |body| <= i < |s| :: s[i] == sep[i - |body|];
    assert EndsFrame(s, |s|);
    forall i: nat | i + 1 < |s| && s[i] == LF
      ensures s[i + 1] == LF ==> i + 2 == |s|
      ensures i + 2 < |s| && s[i + 1] == CR && s[i + 2] == LF ==> i + 3 == |s|
    {
      LfNotFollowed(s, body, e, i);
    }
    assert forall k: nat | k < |s| :: !EndsFrame(s, k);
    assert e == Lf ==> sep == LFLF;
    assert e == CrLf ==> sep == CRLFCRLF;
  }

  lemma {:induction false} LfNotFollowed(s: Bytes, body: Bytes, e: LineEnd, i: nat)
    requires LfThenText(body) && s == body + (Eol(e) + Eol(e))
    requires i + 1 < |s| && s[i] == LF
    ensures s[i + 1] == LF ==> i + 2 == |s|
    ensures i + 2 < |s| && s[i + 1] == CR && s[i + 2] == LF ==> i + 3 == |s|
  {
    if i < |body| {
      assert body[i] == LF;
      assert s[i + 1] == body[i + 1];
    }
  }

  // ---- a rendered frame is well formed ----

  lemma {:induction false} EolWellFormed(e: LineEnd)
    ensures WellFormed(Eol(e))
  {
    assert Eol(e)[1..] == [] || Eol(e)[1..] == [LF];
    assert [LF as byte][1..] == [];
  }

  lemma {:induction false} BodyWellFormed(f: Frame)
    ensures WellFormed(Body(f))
    decreases |f|
  {
    hide WellFormed, EncodeAll, Spelled;
    var head := OnWire(f[0].line);
    EncodedWellFormed(Spelled(f[0].line));
    if |f| > 1 {
      BodyWellFormed(f[1..]);
      EolWellFormed(f[0].eol);
      JoinWellFormed(head, Eol(f[0].eol));
      JoinWellFormed(head + Eol(f[0].eol), Body(f[1..]));
    }
  }

  // ---- a rendered line reads as what it is ----

  /** The value the reader should take from a line; None if it is no data line. */
  function Meant(l: Line): Option<Chars> {
    match l { case Value(v, _) => Some(v) case Bare => Some([]) case _ => None }
  }

  lemma {:induction false} DataOnWire()
    ensures EncodeAll(Codes("data")) == DATA && COLON !in DATA
    ensures Encode(COLON_CHAR) == [COLON] && Encode(SPACE_CHAR) == [SPACE]
  {
    AsciiEncoding(Codes("data"));
    assert Codes("data") == DATA;
  }

  /** A field name, a colon and a value, as the reader takes them apart. */
  lemma {:induction false} NamedValue(name: Chars, v: Chars)
    requires COLON_CHAR !in name
    ensures var s := EncodeAll(name + [COLON_CHAR] + v);
            DataValue(s) == if EncodeAll(name) == DATA then Some(StripSpace(EncodeAll(v))) else None
  {
    var n, x := EncodeAll(name), EncodeAll(v);
    EncodeJoin(name + [COLON_CHAR], v);
    EncodeJoin(name, [COLON_CHAR]);
    EncodeOne(COLON_CHAR);
    DataOnWire();
    AsciiOccurs(name, COLON);
    hide EncodeAll, StripSpace;
    var s := n + [COLON] + x;
    assert forall j | 0 <= j < |n| :: s[j] == n[j] && n[j] in n;
    IndexOfIs(s, COLON, |n|);
    assert s[..|n|] == n && s[|n| + 1..] == x;
  }

  lemma {:induction false} NameOnly(name: Chars)
    requires COLON_CHAR !in name
    ensures DataValue(EncodeAll(name)) == if EncodeAll(name) == DATA then Some([]) else None
  {
    AsciiOccurs(name, COLON);
  }

  lemma {:induction false} OtherName(name: Chars)
    requires name != Codes("data")
    ensures EncodeAll(name) != DATA
  {
    DataOnWire();
    if EncodeAll(name) == DATA { EncodingIsUnique(name, Codes("data")); }
  }

  lemma {:induction false} ColonFirst(rest: Chars)
    ensures DataValue(EncodeAll([COLON_CHAR] + rest)).None?
  {
    NamedValue([], rest);
    assert [] + [COLON_CHAR] + rest == [COLON_CHAR] + rest;
  }

  lemma {:induction false} SpacedValue(v: Chars)
    ensures StripSpace(EncodeAll([SPACE_CHAR] + v)) == EncodeAll(v)
  {
    EncodeJoin([SPACE_CHAR], v);
    EncodeOne(SPACE_CHAR);
    DataOnWire();
  }

  lemma {:induction false} UnspacedValue(v: Chars)
    requires v != [] ==> v[0] != SPACE_CHAR
    ensures StripSpace(EncodeAll(v)) == EncodeAll(v)
  {
    if v != [] { AsciiFirst(v, SPACE); }
  }

  lemma {:induction false} LineReads(l: Line)
    requires Unambiguous(l)
    ensures DataValue(OnWire(l)) == match Meant(l) { case None => None case Some(v) => Some(EncodeAll(v)) }
  {
    hide DataValue, StripSpace, EncodeAll;
    DataOnWire();
    var d := Codes("data");
    assert COLON_CHAR !in d by { assert d == DATA; }
    match l
    case Value(v, spaced) =>
      if spaced {
        SpacedValue(v);
        NamedValue(d, [SPACE_CHAR] + v);
        assert d + [COLON_CHAR] + ([SPACE_CHAR] + v) == Spelled(l);
      } else {
        UnspacedValue(v);
        NamedValue(d, v);
        assert d + [COLON_CHAR] + [] + v == d + [COLON_CHAR] + v;
      }
    case Bare =>
      NameOnly(d);
      EmptyEncoding();
    case Field(name, v) =>
      OtherName(name);
      if v.Some? { NamedValue(name, v.value); } else { NameOnly(name); }
    case Remark(text) =>
      ColonFirst(text);
  }

  lemma EmptyEncoding()
    ensures EncodeAll([]) == []
  {
  }

  // ---- the lines of a rendered frame ----

  /** A line ends at the first line end. */
  lemma {:induction false} FirstLf(head: Bytes, e: LineEnd, tail: Bytes)
    requires LF !in head && head != [] && (e == Lf ==> head[|head| - 1] != CR)
    ensures var s := head + Eol(e) + tail;
            var i := |head| + |Eol(e)| - 1;
            && IndexOf(s, LF) == Some(i) && StripCr(s[..i]) == head && s[i + 1..] == tail
  {
    var s := head + Eol(e) + tail;
    var i := |head| + |Eol(e)| - 1;
    assert s[i + 1..] == tail;
    assert s[..i] == if e == Lf then head else head + [CR];
    assert forall j | 0 <= j < i :: s[j] == s[..i][j];
    assert forall j | 0 <= j < |head| :: s[j] in head;
    IndexOfIs(s, LF, i);
  }

  function EncodeEach(vs: seq<Chars>): seq<Bytes> {
    if vs == [] then [] else [EncodeAll(vs[0])] + EncodeEach(vs[1..])
  }

  lemma {:induction false} DataValuesCons(l: Bytes, rest: seq<Bytes>)
    ensures DataValues([l] + rest) ==
            (match DataValue(l) { case None => [] case Some(v) => [v] }) + DataValues(rest)
    decreases |rest|
  {
    hide DataValue;
    var all := [l] + rest;
    if rest == [] {
      assert all[..0] == [];
    } else {
      var init, last := rest[..|rest| - 1], rest[|rest| - 1];
      assert all[..|all| - 1] == [l] + init;
      DataValuesCons(l, init);
    }
  }

  lemma {:induction false} EncodeEachCons(l: Line, rest: seq<Sent>, e: LineEnd)
    ensures EncodeEach(Values([Sent(l, e)] + rest))
         == (match Meant(l) { case None => [] case Some(v) => [EncodeAll(v)] }) + EncodeEach(Values(rest))
  {
    var all := [Sent(l, e)] + rest;
    assert all[1..] == rest;
    match Meant(l)
    case None =>
      assert [] + Values(rest) == Values(rest);
      assert [] + EncodeEach(Values(rest)) == EncodeEach(Values(rest));
    case Some(v) =>
      assert Values(all) == [v] + Values(rest);
      assert ([v] + Values(rest))[1..] == Values(rest);
  }

  lemma {:induction false} BodyReads(f: Frame)
    requires Readable(f)
    ensures DataValues(Lines(Body(f))) == EncodeEach(Values(f))
    decreases |f|
  {
    hide DataValue, DataValues, Values, StripCr, IndexOf, EncodeEach, EncodeAll, Spelled, Unambiguous, Meant;
    var l, head := f[0].line, OnWire(f[0].line);
    OnWireStarts(l);
    LineReads(l);
    EncodeEachCons(l, f[1..], f[0].eol);
    assert [Sent(l, f[0].eol)] + f[1..] == f;
    if |f| == 1 {
      assert Lines(head) == [head] + [];
      DataValuesCons(head, []);
      NoLines();
      assert f[1..] == [];
    } else {
      Later(f);
      BodyReads(f[1..]);
      FirstLf(head, f[0].eol, Body(f[1..]));
      assert Lines(Body(f)) == [head] + Lines(Body(f[1..]));
      DataValuesCons(head, Lines(Body(f[1..])));
    }
  }

  lemma NoLines()
    ensures DataValues([]) == [] && EncodeEach(Values([])) == []
  {
  }

  lemma {:induction false} JoinReads(vs: seq<Chars>)
    ensures Join(EncodeEach(vs)) == EncodeAll(Lined(vs))
    ensures |EncodeEach(vs)| == |vs|
    decreases |vs|
  {
    if vs != [] {
      JoinReads(vs[1..]);
      if |vs| > 1 {
        EncodeJoin(vs[0] + [LF], Lined(vs[1..]));
        EncodeJoin(vs[0], [LF]);
        EncodeOne(LF);
        assert EncodeEach(vs)[1..] == EncodeEach(vs[1..]);
      }
    }
  }

  /** A frame reads as its meaning. */
  lemma {:induction false} FrameReads(f: Frame)
    requires Readable(f)
    ensures WholeFrame(Rendered(f))
    ensures EventList(BlockEvent(Body(f))) == Meaning(f)
  {
    BodyLfThenText(f);
    NoEarlyEnd(Body(f), f[|f| - 1].eol);
    BodyWellFormed(f);
    BodyReads(f);
    JoinReads(Values(f));
    BodyStarts(f);
    hide WellFormed, Body, Lines, DataValues, Values, EncodeEach, Lined, EncodeAll, Join, WholeFrame, LfThenText;
  }

  lemma {:induction false} BodyStarts(f: Frame)
    requires Readable(f)
    ensures Body(f) != [] && (Body(f)[0] == COLON <==> f[0].line.Remark?)
  {
    hide EncodeAll;
    var l := f[0].line;
    OnWireStarts(l);
    AsciiFirst(Spelled(l), COLON);
    assert Body(f)[0] == OnWire(l)[0];
    match l
    case Value(_, _) => assert Spelled(l)[0] == Codes("data")[0] == 0x64;
    case Bare => assert Spelled(l)[0] == Codes("data")[0] == 0x64;
    case Field(name, _) => assert Spelled(l)[0] == name[0] && name[0] in name;
    case Remark(_) =>
  }

  lemma {:induction false} FramesRead(fs: seq<Frame>)
    requires forall i | 0 <= i < |fs| :: Readable(fs[i])
    ensures ProperCutting(Cutting(RenderAll(fs), []))
    ensures EventsOf(RenderAll(fs)) == Meanings(fs)
    decreases |fs|
  {
    hide BlockEvent, WholeFrame, Readable, Body, Meaning;
    assert forall k: nat :: !EndsFrame([], k);
    if fs != [] {
      var init, f := fs[..|fs| - 1], fs[|fs| - 1];
      FramesRead(init);
      FrameReads(f);
      var bs := RenderAll(fs);
      assert bs[..|bs| - 1] == RenderAll(init) && bs[|bs| - 1] == Rendered(f);
    }
  }

  /** Any list of frames, cut into pieces anyhow: exactly their meanings come out, in order, and nothing is left
      over. */
  lemma {:induction false} RoundTrip(limit: nat, fs: seq<Frame>, pieces: seq<Bytes>)
    requires forall i | 0 <= i < |fs| :: Readable(fs[i])
    requires Flatten(pieces) == Bytewise(RenderAll(fs))
    requires !PushAll(limit, [], pieces).overflowed
    ensures PushAll(limit, [], pieces) == Run(Meanings(fs), [], false)
  {
    hide Split, Bytewise, RenderAll, EventsOf, Meanings, Readable;
    ChunkingInvariance(limit, pieces);
    FramesRead(fs);
    SplitIsTheOnlyCutting(Cutting(RenderAll(fs), []));
    assert Bytewise(RenderAll(fs)) + [] == Bytewise(RenderAll(fs));
  }

  lemma {:induction false} BodyIsFree(f: Frame)
    requires Readable(f)
    ensures FrameFree(Body(f))
  {
    hide Readable, Body, BlockEvent, Meaning;
    FrameReads(f);
    var b := Rendered(f);
    forall k: nat ensures !EndsFrame(b.body, k) {
      if k <= |b.body| { EndsFrameLocal(b.body, b.sep, k); }
    }
  }

  /** Frames, and a last one whose terminator never comes: what is left in the buffer is that frame, and reads as it. */
  lemma {:induction false} TailReads(limit: nat, fs: seq<Frame>, last: Frame, pieces: seq<Bytes>)
    requires Readable(last) && forall i | 0 <= i < |fs| :: Readable(fs[i])
    requires Flatten(pieces) == Bytewise(RenderAll(fs)) + Body(last)
    requires !PushAll(limit, [], pieces).overflowed
    ensures PushAll(limit, [], pieces) == Run(Meanings(fs), Body(last), false)
    ensures TailEvents(Body(last)) == Meaning(last)
  {
    hide Split, Bytewise, RenderAll, EventsOf, Meanings, Readable, WholeFrame, BlockEvent;
    ChunkingInvariance(limit, pieces);
    FramesRead(fs);
    BodyIsFree(last);
    SplitIsTheOnlyCutting(Cutting(RenderAll(fs), Body(last)));
    FrameReads(last);
    BodyStarts(last);
  }

  // ---- whole texts ----

  datatype Message = Message(text: Chars, eol: LineEnd)

  /** With CRLF line ends any text can be sent; with LF, a CR before an LF would be read as part of the line end. */
  predicate Sendable(m: Message) { m.eol == CrLf || NoCrLf(m.text) }

  predicate NoCrLf(text: Chars) { forall i | 0 <= i < |text| - 1 && text[i] == CR :: text[i + 1] != LF }

  function SplitLf(text: Chars): (lines: seq<Chars>)
    ensures lines != []
  {
    if text == [] then [[]]
    else
      var more := SplitLf(text[1..]);
      if text[0] == LF then [[]] + more else [[text[0]] + more[0]] + more[1..]
  }

  function DataLines(lines: seq<Chars>, e: LineEnd): (ls: seq<Sent>)
    ensures |ls| == |lines| && forall i | 0 <= i < |ls| :: ls[i] == Sent(Value(lines[i], true), e)
  {
    if lines == [] then [] else [Sent(Value(lines[0], true), e)] + DataLines(lines[1..], e)
  }

  /** One data line for each line of the text. */
  function FrameOf(m: Message): Frame { DataLines(SplitLf(m.text), m.eol) }

  function FramesOf(ms: seq<Message>): (fs: seq<Frame>)
    ensures |fs| == |ms| && forall i | 0 <= i < |fs| :: fs[i] == FrameOf(ms[i])
  {
    if ms == [] then [] else FramesOf(ms[..|ms| - 1]) + [FrameOf(ms[|ms| - 1])]
  }

  function DataEvents(ms: seq<Message>): seq<SseEvent> {
    if ms == [] then []
    else
      var m := ms[|ms| - 1];
      DataEvents(ms[..|ms| - 1]) + [SseEvent(Data(EncodeAll(m.text)), |Body(FrameOf(m))|)]
  }

  lemma {:induction false} LinesPlain(text: Chars)
    ensures forall i | 0 <= i < |SplitLf(text)| :: LF !in SplitLf(text)[i]
    ensures NoCrLf(text) ==> forall i | 0 <= i < |SplitLf(text)| - 1 :: !EndsInCr(SplitLf(text)[i])
    decreases |text|
  {
    if text != [] {
      var more := SplitLf(text[1..]);
      LinesPlain(text[1..]);
      if NoCrLf(text) {
        assert NoCrLf(text[1..]) by {
          assert forall i | 0 <= i < |text| - 1 :: text[1..][i] == text[i + 1];
        }
      }
      assert more[0] == [] && |more| > 1 ==> text[1..] != [] && text[1..][0] == LF;
    }
  }

  lemma {:induction false} LinedSplit(text: Chars)
    ensures Lined(SplitLf(text)) == text
    decreases |text|
  {
    if text != [] {
      var more := SplitLf(text[1..]);
      LinedSplit(text[1..]);
      if text[0] == LF {
        assert SplitLf(text)[1..] == more;
      } else if |more| > 1 {
        assert SplitLf(text)[1..] == more[1..];
      }
    }
  }

  lemma {:induction false} ValuesOfData(lines: seq<Chars>, e: LineEnd)
    ensures Values(DataLines(lines, e)) == lines
    decreases |lines|
  {
    if lines != [] {
      ValuesOfData(lines[1..], e);
      assert DataLines(lines, e)[1..] == DataLines(lines[1..], e);
    }
  }

  lemma {:induction false} ValueOnALine(v: Chars)
    requires LF !in v
    ensures Unambiguous(Value(v, true)) && (EndsInCr(Spelled(Value(v, true))) <==> EndsInCr(v))
  {
    assert LF !in Codes("data") by { assert Codes("data") == DATA; }
    var cs := Spelled(Value(v, true));
    assert |cs| == 6 + |v| && (v != [] ==> cs[|cs| - 1] == v[|v| - 1]) && cs[5] == SPACE_CHAR;
  }

  /** The frame of a text reads as that text. */
  lemma {:induction false} MessageReads(m: Message)
    requires Sendable(m)
    ensures Readable(FrameOf(m))
    ensures Meaning(FrameOf(m)) == [SseEvent(Data(EncodeAll(m.text)), |Body(FrameOf(m))|)]
  {
    hide Unambiguous, EndsInCr, Spelled, Values, Lined, Body, EncodeAll;
    var lines, f := SplitLf(m.text), FrameOf(m);
    LinesPlain(m.text);
    LinedSplit(m.text);
    ValuesOfData(lines, m.eol);
    forall i | 0 <= i < |f|
      ensures Unambiguous(f[i].line) && (EndsInCr(Spelled(f[i].line)) <==> EndsInCr(lines[i]))
    {
      ValueOnALine(lines[i]);
    }
  }

  lemma {:induction false} MessagesRead(ms: seq<Message>)
    requires forall i | 0 <= i < |ms| :: Sendable(ms[i])
    ensures forall i | 0 <= i < |ms| :: Readable(FramesOf(ms)[i])
    ensures Meanings(FramesOf(ms)) == DataEvents(ms)
    decreases |ms|
  {
    hide Sendable, Readable, Meaning, Body, FrameOf;
    if ms != [] {
      var init, m := ms[..|ms| - 1], ms[|ms| - 1];
      MessagesRead(init);
      MessageReads(m);
      var fs := FramesOf(ms);
      assert fs[..|fs| - 1] == FramesOf(init);
    }
  }

  /** Texts sent as data lines and cut anyhow are exactly the data that comes out. */
  lemma {:induction false} TextsComeBack(limit: nat, ms: seq<Message>, pieces: seq<Bytes>)
    requires forall i | 0 <= i < |ms| :: Sendable(ms[i])
    requires Flatten(pieces) == Bytewise(RenderAll(FramesOf(ms)))
    requires !PushAll(limit, [], pieces).overflowed
    ensures PushAll(limit, [], pieces) == Run(DataEvents(ms), [], false)
  {
    hide RenderAll, Bytewise, PushAll, Meanings, Readable, Sendable, FramesOf;
    MessagesRead(ms);
    RoundTrip(limit, FramesOf(ms), pieces);
  }
}
