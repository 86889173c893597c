/** UTF-8 by arithmetic on Unicode scalar values (section 3 of RFC 3629), against the octet grammar that
    `Text` reads. */
module Utf8 {
  import opened Text

  /** Unicode scalar values: all code points but the surrogates. */
  type scalar = c: nat | c < 0x110000 && !(0xD800 <= c < 0xE000)

  function Encode(c: scalar): Bytes {
    if c < 0x80 then [c]
    else if c < 0x800 then [0xC0 + c / 64, 0x80 + c % 64]
    else if c < 0x10000 then [0xE0 + c / 4096, 0x80 + c / 64 % 64, 0x80 + c % 64]
    else [0xF0 + c / 262144, 0x80 + c / 4096 % 64, 0x80 + c / 64 % 64, 0x80 + c % 64]
  }

  function EncodeAll(cs: seq<scalar>): Bytes {
    if cs == [] then [] else Encode(cs[0]) + EncodeAll(cs[1..])
  }

  /** The decoder sees exactly one character at the head of an encoded one. */
  lemma {:induction false} EncodeHead(c: scalar, rest: Bytes)
    ensures CharLen(Encode(c) + rest) == |Encode(c)| > 0
  {
    hide FourByteHead;
    var s := Encode(c) + rest;
    assert s[0] == Encode(c)[0];
    if 0x80 <= c < 0x800 {
      assert s[1] == Encode(c)[1];
    } else if 0x800 <= c < 0x10000 {
      HeadOfThree(c);
      assert s[1] == Encode(c)[1] && s[2] == Encode(c)[2];
    } else if 0x10000 <= c {
      HeadOfFour(c);
      assert s[1] == Encode(c)[1] && s[2] == Encode(c)[2] && s[3] == Encode(c)[3];
    }
  }

  lemma {:induction false} HeadOfThree(c: scalar)
    requires 0x800 <= c < 0x10000
    ensures ThreeByteHead(0xE0 + c / 4096, 0x80 + c / 64 % 64)
  {
    var h, m := c / 4096, c / 64 % 64;
    assert c / 64 == h * 64 + m;
  }

  lemma {:induction false} HeadOfFour(c: scalar)
    requires c >= 0x10000
    ensures FourByteHead(0xF0 + c / 262144, 0x80 + c / 4096 % 64)
  {
    var h, m := c / 262144, c / 4096 % 64;
    assert c / 4096 == h * 64 + m;
  }

  lemma {:induction false} Injective(c: scalar, d: scalar)
    requires Encode(c) == Encode(d)
    ensures c == d
  {
    var s, t := Encode(c), Encode(d);
    assert |s| == |t| && s[0] == t[0];
    assert |s| >= 2 ==> s[1] == t[1];
    assert |s| >= 3 ==> s[2] == t[2];
    assert |s| >= 4 ==> s[3] == t[3];
    Digits(c);
    Digits(d);
  }

  lemma Digit(c: nat)
    ensures c == c / 64 * 64 + c % 64 && c / 64 / 64 == c / 4096 && c / 4096 / 64 == c / 262144
  {
  }

  lemma {:induction false} Digits(c: nat)
    ensures c == c / 64 * 64 + c % 64
    ensures c == c / 4096 * 4096 + c / 64 % 64 * 64 + c % 64
    ensures c == c / 262144 * 262144 + c / 4096 % 64 * 4096 + c / 64 % 64 * 64 + c % 64
  {
    Digit(c);
    var d, e := c / 64, c / 4096;
    assert d == d / 64 * 64 + d % 64;
    assert e == e / 64 * 64 + e % 64;
  }

  lemma {:induction false} TwoDigits(h: nat, l: nat)
    requires l < 64
    ensures var c := h * 64 + l; c / 64 == h && c % 64 == l
  {
  }

  lemma {:induction false} ThreeDigits(h: nat, m: nat, l: nat)
    requires m < 64 && l < 64
    ensures var c := h * 4096 + m * 64 + l; c / 4096 == h && c / 64 % 64 == m && c % 64 == l
  {
    TwoDigits(h * 64 + m, l);
  }

  lemma {:induction false} FourDigits(h: nat, m: nat, k: nat, l: nat)
    requires m < 64 && k < 64 && l < 64
    ensures var c := h * 262144 + m * 4096 + k * 64 + l;
            c / 262144 == h && c / 4096 % 64 == m && c / 64 % 64 == k && c % 64 == l
  {
    ThreeDigits(h * 64 + m, k, l);
  }

  /** Whatever the decoder takes for a character is the encoding of a scalar value. */
  lemma {:induction false} HeadEncodes(s: Bytes) returns (c: scalar)
    requires CharLen(s) > 0
    ensures Encode(c) == s[..CharLen(s)]
  {
    var n := CharLen(s);
    if n == 1 {
      c := s[0];
    } else if n == 2 {
      c := TwoBytes(s[0], s[1]);
    } else if n == 3 {
      c := ThreeBytes(s[0], s[1], s[2]);
    } else {
      c := FourBytes(s[0], s[1], s[2], s[3]);
    }
  }

  lemma {:induction false} TwoBytes(a: byte, b: byte) returns (c: scalar)
    requires 0xC2 <= a <= 0xDF && Continues(b)
    ensures Encode(c) == [a, b]
  {
    c := (a - 0xC0) * 64 + (b - 0x80);
    TwoDigits(a - 0xC0, b - 0x80);
  }

  lemma {:induction false} ThreeBytes(a: byte, b: byte, d: byte) returns (c: scalar)
    requires ThreeByteHead(a, b) && Continues(d)
    ensures Encode(c) == [a, b, d]
  {
    c := (a - 0xE0) * 4096 + (b - 0x80) * 64 + (d - 0x80);
    ThreeDigits(a - 0xE0, b - 0x80, d - 0x80);
  }

  lemma {:induction false} FourBytes(a: byte, b: byte, d: byte, e: byte) returns (c: scalar)
    requires FourByteHead(a, b) && Continues(d) && Continues(e)
    ensures Encode(c) == [a, b, d, e]
  {
    c := (a - 0xF0) * 262144 + (b - 0x80) * 4096 + (d - 0x80) * 64 + (e - 0x80);
    FourDigits(a - 0xF0, b - 0x80, d - 0x80, e - 0x80);
  }

  lemma {:induction false} EncodedWellFormed(cs: seq<scalar>)
    ensures WellFormed(EncodeAll(cs))
    decreases |cs|
  {
    hide CharLen, Encode;
    if cs != [] {
      EncodeHead(cs[0], EncodeAll(cs[1..]));
      EncodedWellFormed(cs[1..]);
      assert EncodeAll(cs)[|Encode(cs[0])|..] == EncodeAll(cs[1..]);
    }
  }

  lemma {:induction false} Decodes(s: Bytes) returns (cs: seq<scalar>)
    requires WellFormed(s)
    ensures EncodeAll(cs) == s
    decreases |s|
  {
    hide CharLen, Encode;
    if s == [] {
      cs := [];
    } else {
      var n := CharLen(s);
      var c := HeadEncodes(s);
      var more := Decodes(s[n..]);
      cs := [c] + more;
      assert cs[1..] == more;
    }
  }

  /** Some text has these bytes. */
  ghost predicate IsText(s: Bytes) { exists cs: seq<scalar> :: EncodeAll(cs) == s }

  /** The decoder accepts exactly the encodings of lists of scalar values. */
  lemma {:induction false} WellFormedIff(s: Bytes)
    ensures WellFormed(s) <==> IsText(s)
  {
    if WellFormed(s) { var cs := Decodes(s); }
    if IsText(s) {
      var cs: seq<scalar> :| EncodeAll(cs) == s;
      EncodedWellFormed(cs);
    }
  }

  /** And the list is the only one. */
  lemma {:induction false} EncodingIsUnique(cs: seq<scalar>, ds: seq<scalar>)
    requires EncodeAll(cs) == EncodeAll(ds)
    ensures cs == ds
    decreases |cs|
  {
    hide CharLen, Encode;
    if cs != [] { EncodeHead(cs[0], EncodeAll(cs[1..])); }
    if ds != [] { EncodeHead(ds[0], EncodeAll(ds[1..])); }
    if cs != [] && ds != [] {
      var n := |Encode(cs[0])|;
      assert EncodeAll(cs)[..n] == Encode(cs[0]) && EncodeAll(ds)[..n] == Encode(ds[0]);
      assert EncodeAll(cs)[n..] == EncodeAll(cs[1..]) && EncodeAll(ds)[n..] == EncodeAll(ds[1..]);
      Injective(cs[0], ds[0]);
      EncodingIsUnique(cs[1..], ds[1..]);
    }
  }

  /** Every byte of an encoded character but the first continues it. */
  lemma {:induction false} CountHead(c: scalar, rest: Bytes)
    ensures CharCount(Encode(c) + rest) == 1 + CharCount(rest)
  {
    var s := Encode(c);
    CountTail(s[1..], rest);
    assert (s + rest)[1..] == s[1..] + rest;
  }

  lemma {:induction false} CountTail(tail: Bytes, rest: Bytes)
    requires forall i | 0 <= i < |tail| :: Continues(tail[i])
    ensures CharCount(tail + rest) == CharCount(rest)
    decreases |tail|
  {
    if tail == [] {
      assert tail + rest == rest;
    } else {
      assert (tail + rest)[1..] == tail[1..] + rest;
      CountTail(tail[1..], rest);
    }
  }

  /** `chars().count()` is the number of scalar values. */
  lemma {:induction false} CharCountIs(cs: seq<scalar>)
    ensures CharCount(EncodeAll(cs)) == |cs|
    decreases |cs|
  {
    hide Encode;
    if cs != [] {
      CountHead(cs[0], EncodeAll(cs[1..]));
      CharCountIs(cs[1..]);
    }
  }

  lemma {:induction false} EncodeJoin(a: seq<scalar>, b: seq<scalar>)
    ensures EncodeAll(a + b) == EncodeAll(a) + EncodeAll(b)
    decreases |a|
  {
    hide Encode;
    if a == [] {
      assert a + b == b;
    } else {
      assert (a + b)[1..] == a[1..] + b;
      EncodeJoin(a[1..], b);
    }
  }

  // ---- ASCII characters and bytes ----

  lemma {:induction false} EncodeOne(c: scalar)
    ensures EncodeAll([c]) == Encode(c)
  {
    assert [c][1..] == [];
  }

  /** A byte below 0x80 occurs only as the encoding of itself. */
  lemma {:induction false} AsciiOccurs(cs: seq<scalar>, b: byte)
    requires Ascii(b)
    ensures b in EncodeAll(cs) <==> b in cs
    decreases |cs|
  {
    if cs != [] {
      AsciiOccurs(cs[1..], b);
      assert b in Encode(cs[0]) <==> b == cs[0];
      assert b in cs <==> b == cs[0] || b in cs[1..];
    }
  }

  lemma {:induction false} AsciiFirst(cs: seq<scalar>, b: byte)
    requires Ascii(b) && cs != []
    ensures EncodeAll(cs) != [] && (EncodeAll(cs)[0] == b <==> cs[0] == b)
  {
    assert Encode(cs[0]) != [];
    assert EncodeAll(cs)[0] == Encode(cs[0])[0];
  }

  lemma {:induction false} EncodeSnoc(cs: seq<scalar>)
    requires cs != []
    ensures EncodeAll(cs) == EncodeAll(cs[..|cs| - 1]) + Encode(cs[|cs| - 1])
  {
    EncodeJoin(cs[..|cs| - 1], [cs[|cs| - 1]]);
    EncodeOne(cs[|cs| - 1]);
    assert cs == cs[..|cs| - 1] + [cs[|cs| - 1]];
  }

  lemma {:induction false} AsciiLast(cs: seq<scalar>, b: byte)
    requires Ascii(b) && cs != []
    ensures var s := EncodeAll(cs); s != [] && (s[|s| - 1] == b <==> cs[|cs| - 1] == b)
  {
    EncodeSnoc(cs);
    var e := Encode(cs[|cs| - 1]);
    assert e != [] && (e[|e| - 1] == b <==> cs[|cs| - 1] == b);
    assert EncodeAll(cs)[|EncodeAll(cs)| - 1] == e[|e| - 1];
  }

  // ---- ASCII literals ----

  /** The characters of an ASCII literal. */
  function Codes(s: string): (cs: seq<scalar>)
    requires forall i | 0 <= i < |s| :: s[i] < 128 as char
    ensures |cs| == |s|
  {
    seq(|s|, i requires 0 <= i < |s| => s[i] as int)
  }

  lemma {:induction false} AsciiEncoding(cs: seq<scalar>)
    requires forall i | 0 <= i < |cs| :: cs[i] < 0x80
    ensures EncodeAll(cs) == cs
    decreases |cs|
  {
    hide Encode;
    if cs != [] {
      AsciiEncoding(cs[1..]);
      OneByte(cs[0]);
      assert cs == [cs[0]] + cs[1..];
    }
  }

  lemma OneByte(c: scalar)
    requires c < 0x80
    ensures Encode(c) == [c]
  {
  }
}
