/** Byte strings, and the parts of Rust's `str` that the conduit relies on.
    A Rust string is its UTF-8 encoding, so text is a sequence of bytes here. */
module Text {

  datatype Option<+T> = None | Some(value: T)

  type byte = b: int | 0 <= b < 0x100
  type Bytes = seq<byte>

  const LF: byte := 0x0A
  const CR: byte := 0x0D
  const SPACE: byte := 0x20
  const COLON: byte := 0x3A

  predicate Ascii(b: byte) { b <= 0x7F }

  predicate Continues(b: byte) { 0x80 <= b <= 0xBF }

  /** Length of the UTF8-char (section 4 of RFC 3629) that `s` starts with; 0 if it starts with none. */
  function CharLen(s: Bytes): (n: nat)
    ensures n <= 4 && n <= |s|
  {
    if |s| >= 1 && Ascii(s[0]) then 1
    else if |s| >= 2 && 0xC2 <= s[0] <= 0xDF && Continues(s[1]) then 2
    else if |s| >= 3 && Continues(s[2]) && ThreeByteHead(s[0], s[1]) then 3
    else if |s| >= 4 && Continues(s[2]) && Continues(s[3]) && FourByteHead(s[0], s[1]) then 4
    else 0
  }

  predicate ThreeByteHead(a: byte, b: byte) {
    || (a == 0xE0 && 0xA0 <= b <= 0xBF)
    || (0xE1 <= a <= 0xEC && Continues(b))
    || (a == 0xED && 0x80 <= b <= 0x9F)
    || (0xEE <= a <= 0xEF && Continues(b))
  }

  predicate FourByteHead(a: byte, b: byte) {
    || (a == 0xF0 && 0x90 <= b <= 0xBF)
    || (0xF1 <= a <= 0xF3 && Continues(b))
    || (a == 0xF4 && 0x80 <= b <= 0x8F)
  }

  /** UTF8-octets of section 4 of RFC 3629; what `std::str::from_utf8` accepts. */
  predicate WellFormed(s: Bytes)
    decreases |s|
  {
    s == [] || (CharLen(s) > 0 && WellFormed(s[CharLen(s)..]))
  }

  /** The first character of `s` ends at or before any later ASCII byte. */
  lemma FirstChar(s: Bytes, i: nat)
    requires CharLen(s) > 0 && i < |s| && Ascii(s[i])
    ensures i == 0 ==> CharLen(s) == 1
    ensures i > 0 ==> CharLen(s) <= i && CharLen(s[..i]) == CharLen(s)
  {
  }

  /** An ASCII byte is a character boundary: both sides of it are well formed. */
  lemma {:induction false} CutAtAscii(s: Bytes, i: nat)
    requires WellFormed(s) && i < |s| && Ascii(s[i])
    ensures WellFormed(s[..i]) && WellFormed(s[i..]) && WellFormed(s[i + 1..])
    decreases |s|
  {
    hide CharLen;
    var n := CharLen(s);
    FirstChar(s, i);
    if i == 0 {
      assert s[0..] == s && s[..0] == [];
    } else {
      var t := s[n..];
      CutAtAscii(t, i - n);
      assert t[i - n..] == s[i..] && t[i - n + 1..] == s[i + 1..];
      assert s[..i][n..] == t[..i - n];
    }
  }

  lemma CharLenStable(a: Bytes, b: Bytes)
    requires CharLen(a) > 0
    ensures CharLen(a + b) == CharLen(a)
  {
  }

  lemma {:induction false} JoinWellFormed(a: Bytes, b: Bytes)
    requires WellFormed(a) && WellFormed(b)
    ensures WellFormed(a + b)
    decreases |a|
  {
    hide CharLen;
    if a == [] {
      assert a + b == b;
    } else {
      var n := CharLen(a);
      JoinWellFormed(a[n..], b);
      CharLenStable(a, b);
      assert (a + b)[n..] == a[n..] + b;
    }
  }

  /** `str::chars().count()`: the bytes that start a character. */
  function CharCount(s: Bytes): nat {
    if s == [] then 0 else (if Continues(s[0]) then 0 else 1) + CharCount(s[1..])
  }

  lemma NoCharsMeansEmpty(s: Bytes)
    requires WellFormed(s)
    ensures CharCount(s) == 0 <==> s == []
  {
  }

  /** Length of the Unicode white-space character that `s` starts with; 0 if none. */
  function SpaceLen(s: Bytes): (n: nat)
    ensures n <= |s|
  {
    if |s| >= 1 && IsSpace1(s[0]) then 1
    else if |s| >= 2 && IsSpace2(s[0], s[1]) then 2
    else if |s| >= 3 && IsSpace3(s[0], s[1], s[2]) then 3
    else 0
  }

  function LastSpaceLen(s: Bytes): (n: nat)
    ensures n <= |s|
  {
    var k := |s|;
    if k >= 1 && IsSpace1(s[k - 1]) then 1
    else if k >= 2 && IsSpace2(s[k - 2], s[k - 1]) then 2
    else if k >= 3 && IsSpace3(s[k - 3], s[k - 2], s[k - 1]) then 3
    else 0
  }

  predicate IsSpace1(a: byte) { 0x09 <= a <= 0x0D || a == 0x20 }

  // U+0085 and U+00A0
  predicate IsSpace2(a: byte, b: byte) { a == 0xC2 && (b == 0x85 || b == 0xA0) }

  // U+1680, U+2000..U+200A, U+2028, U+2029, U+202F, U+205F and U+3000
  predicate IsSpace3(a: byte, b: byte, c: byte) {
    || (a == 0xE1 && b == 0x9A && c == 0x80)
    || (a == 0xE2 && b == 0x80 && (0x80 <= c <= 0x8A || c == 0xA8 || c == 0xA9 || c == 0xAF))
    || (a == 0xE2 && b == 0x81 && c == 0x9F)
    || (a == 0xE3 && b == 0x80 && c == 0x80)
  }

  function TrimStart(s: Bytes): Bytes
    decreases |s|
  {
    if SpaceLen(s) == 0 then s else TrimStart(s[SpaceLen(s)..])
  }

  function TrimEnd(s: Bytes): Bytes
    decreases |s|
  {
    if LastSpaceLen(s) == 0 then s else TrimEnd(s[..|s| - LastSpaceLen(s)])
  }

  /** `str::trim`. */
  function Trim(s: Bytes): Bytes { TrimEnd(TrimStart(s)) }

  /** Position of the first `b` in `s`. */
  function IndexOf(s: Bytes, b: byte): (r: Option<nat>)
    ensures r.Some? ==> r.value < |s| && s[r.value] == b && b !in s[..r.value]
    ensures r.None? <==> b !in s
  {
    if s == [] then None
    else if s[0] == b then Some(0)
    else
      match IndexOf(s[1..], b)
      case None => None
      case Some(i) => assert s[..i + 1] == [s[0]] + s[1..][..i]; Some(i + 1)
  }

  lemma {:induction false} IndexOfIs(s: Bytes, b: byte, i: nat)
    requires i < |s| && s[i] == b && forall j | 0 <= j < i :: s[j] != b
    ensures IndexOf(s, b) == Some(i)
    decreases i
  {
    if i > 0 { IndexOfIs(s[1..], b, i - 1); }
  }

  function Flatten<T>(parts: seq<seq<T>>): seq<T> {
    if parts == [] then [] else parts[0] + Flatten(parts[1..])
  }

  lemma {:induction false} FlattenJoin<T>(a: seq<seq<T>>, b: seq<seq<T>>)
    ensures Flatten(a + b) == Flatten(a) + Flatten(b)
    decreases |a|
  {
    if a == [] {
      assert a + b == b;
    } else {
      assert (a + b)[1..] == a[1..] + b;
      FlattenJoin(a[1..], b);
    }
  }

  lemma {:induction false} FlattenSnoc<T>(a: seq<seq<T>>, x: seq<T>)
    ensures Flatten(a + [x]) == Flatten(a) + x
  {
    FlattenJoin(a, [x]);
    assert Flatten([x]) == x + Flatten([x][1..]) == x;
  }
}
