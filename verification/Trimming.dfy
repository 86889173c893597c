/** `str::trim` in Unicode characters. */
module Trimming {
  import opened Text
  import opened Utf8

  /** The code points with the White_Space property. */
  predicate White(c: scalar) {
    || 0x09 <= c <= 0x0D || c == 0x20 || c == 0x85 || c == 0xA0 || c == 0x1680 || 0x2000 <= c <= 0x200A
    || c == 0x2028 || c == 0x2029 || c == 0x202F || c == 0x205F || c == 0x3000
  }

  predicate AllWhite(cs: seq<scalar>) { forall i | 0 <= i < |cs| :: White(cs[i]) }

  /** No white space at either end. */
  predicate Trimmed(cs: seq<scalar>) { cs == [] || (!White(cs[0]) && !White(cs[|cs| - 1])) }

  lemma {:induction false} WhiteEncoding(c: scalar)
    ensures var e := Encode(c);
            && (|e| == 1 ==> (White(c) <==> IsSpace1(e[0])))
            && (|e| == 2 ==> (White(c) <==> IsSpace2(e[0], e[1])))
            && (|e| == 3 ==> (White(c) <==> IsSpace3(e[0], e[1], e[2])))
            && (|e| == 4 ==> !White(c))
  {
    if 0x800 <= c < 0x10000 { WhiteOfThree(c, c / 4096, c / 64 % 64, c % 64); }
  }

  lemma {:induction false} WhiteOfThree(c: scalar, h: nat, m: nat, l: nat)
    requires 0x800 <= c < 0x10000 && h == c / 4096 && m == c / 64 % 64 && l == c % 64
    ensures White(c) <==> IsSpace3(0xE0 + h, 0x80 + m, 0x80 + l)
  {
    Digits(c);
    assert c == h * 4096 + m * 64 + l && m < 64 && l < 64 && h < 16;
  }

  lemma {:induction false} FirstWhite(cs: seq<scalar>)
    requires cs != []
    ensures SpaceLen(EncodeAll(cs)) == if White(cs[0]) then |Encode(cs[0])| else 0
  {
    var s, e := EncodeAll(cs), Encode(cs[0]);
    WhiteEncoding(cs[0]);
    assert s[0] == e[0];
    assert |e| >= 2 ==> s[1] == e[1];
    assert |e| >= 3 ==> s[2] == e[2];
    HeadByte(cs[0]);
  }

  /** The first byte tells the length of the character. */
  lemma {:induction false} HeadByte(c: scalar)
    ensures var e := Encode(c);
            && 1 <= |e| <= 4 && (|e| == 1 <==> e[0] <= 0x7F) && (|e| == 2 <==> 0xC0 <= e[0] <= 0xDF)
            && (|e| == 3 <==> 0xE0 <= e[0] <= 0xEF) && (|e| == 4 <==> 0xF0 <= e[0])
            && forall i | 1 <= i < |e| :: Continues(e[i])
  {
  }

  lemma {:induction false} LastWhite(cs: seq<scalar>)
    requires cs != []
    ensures LastSpaceLen(EncodeAll(cs)) == if White(cs[|cs| - 1]) then |Encode(cs[|cs| - 1])| else 0
  {
    hide EncodeAll, Encode, White, LastSpaceLen;
    EncodeSnoc(cs);
    WhiteEncoding(cs[|cs| - 1]);
    HeadByte(cs[|cs| - 1]);
    LastCharacter(EncodeAll(cs[..|cs| - 1]), Encode(cs[|cs| - 1]), White(cs[|cs| - 1]));
  }

  /** `e` is one encoded character, and `white` says whether it is white space. */
  lemma {:induction false} LastCharacter(before: Bytes, e: Bytes, white: bool)
    requires 1 <= |e| <= 4 && (forall i | 1 <= i < |e| :: Continues(e[i]))
    requires |e| == 1 ==> e[0] <= 0x7F && (white <==> IsSpace1(e[0]))
    requires |e| == 2 ==> 0xC0 <= e[0] <= 0xDF && (white <==> IsSpace2(e[0], e[1]))
    requires |e| == 3 ==> 0xE0 <= e[0] <= 0xEF && (white <==> IsSpace3(e[0], e[1], e[2]))
    requires |e| == 4 ==> !white
    ensures LastSpaceLen(before + e) == if white then |e| else 0
  {
    var s := before + e;
    var k := |s|;
    assert s[k - 1] == e[|e| - 1];
    assert |e| >= 2 ==> s[k - 2] == e[|e| - 2];
    assert |e| >= 3 ==> s[k - 3] == e[|e| - 3];
  }

  lemma {:induction false} TrimStartReads(cs: seq<scalar>) returns (k: nat)
    ensures k <= |cs| && AllWhite(cs[..k]) && (k < |cs| ==> !White(cs[k]))
    ensures TrimStart(EncodeAll(cs)) == EncodeAll(cs[k..])
    decreases |cs|
  {
    hide Encode, SpaceLen, White;
    if cs == [] {
      k := 0;
      NoSpace();
    } else {
      FirstWhite(cs);
      if White(cs[0]) {
        k := TrimStartReads(cs[1..]);
        assert cs[1..][k..] == cs[k + 1..];
        assert cs[..k + 1] == [cs[0]] + cs[1..][..k];
        EncodeHead(cs[0], EncodeAll(cs[1..]));
        assert EncodeAll(cs)[|Encode(cs[0])|..] == EncodeAll(cs[1..]);
        k := k + 1;
      } else {
        k := 0;
        assert cs[0..] == cs;
      }
    }
  }

  lemma NoSpace()
    ensures SpaceLen([]) == 0 && LastSpaceLen([]) == 0 && EncodeAll([]) == []
  {
  }

  lemma {:induction false} TrimEndReads(cs: seq<scalar>) returns (k: nat)
    ensures k <= |cs| && AllWhite(cs[k..]) && (k > 0 ==> !White(cs[k - 1]))
    ensures TrimEnd(EncodeAll(cs)) == EncodeAll(cs[..k])
    decreases |cs|
  {
    hide Encode, LastSpaceLen, White;
    if cs == [] {
      k := 0;
      NoSpace();
    } else {
      var init := cs[..|cs| - 1];
      LastWhite(cs);
      EncodeSnoc(cs);
      if White(cs[|cs| - 1]) {
        k := TrimEndReads(init);
        assert init[..k] == cs[..k];
        assert cs[k..] == init[k..] + [cs[|cs| - 1]];
        EncodeHead(cs[|cs| - 1], []);
        assert Encode(cs[|cs| - 1]) + [] == Encode(cs[|cs| - 1]);
        assert EncodeAll(cs)[..|EncodeAll(cs)| - |Encode(cs[|cs| - 1])|] == EncodeAll(init);
      } else {
        k := |cs|;
        assert cs[..k] == cs;
      }
    }
  }

  /** What `str::trim` leaves of a text is the text without the white space at its ends. */
  lemma {:induction false} TrimReads(cs: seq<scalar>) returns (i: nat, j: nat)
    ensures i <= j <= |cs| && AllWhite(cs[..i]) && AllWhite(cs[j..]) && Trimmed(cs[i..j])
    ensures Trim(EncodeAll(cs)) == EncodeAll(cs[i..j])
  {
    hide EncodeAll, TrimStart, TrimEnd, White;
    i := TrimStartReads(cs);
    var k := TrimEndReads(cs[i..]);
    j := i + k;
    assert cs[i..][..k] == cs[i..j] && cs[i..][k..] == cs[j..];
  }

  lemma {:induction false} WhiteOutside(cs: seq<scalar>, i: nat, j: nat)
    requires i <= j <= |cs| && AllWhite(cs[..i]) && AllWhite(cs[j..])
    ensures forall p | 0 <= p < i || j <= p < |cs| :: White(cs[p])
  {
    hide White;
    forall p | 0 <= p < i || j <= p < |cs| ensures White(cs[p]) {
      if p < i { assert cs[..i][p] == cs[p]; } else { assert cs[j..][p - j] == cs[p]; }
    }
  }

  /** A padded text trims to exactly one text. */
  lemma {:induction false} TrimOf(a: seq<scalar>, text: seq<scalar>, b: seq<scalar>)
    requires AllWhite(a) && AllWhite(b) && text != [] && Trimmed(text)
    ensures Trim(EncodeAll(a + text + b)) == EncodeAll(text)
  {
    hide EncodeAll, Trim, White;
    var cs := a + text + b;
    var i, j := TrimReads(cs);
    var from, to := |a|, |a| + |text|;
    WhiteOutside(cs, i, j);
    assert cs[..from] == a && cs[to..] == b;
    WhiteOutside(cs, from, to);
    assert cs[from] == text[0] && cs[to - 1] == text[|text| - 1];
    assert i <= from < j && i <= to - 1 < j;
    assert cs[i..j][0] == cs[i] && cs[i..j][j - i - 1] == cs[j - 1];
    assert i == from && j == to;
    assert cs[i..j] == text;
  }

  /** A text trims to another exactly if it is that one with white space around it. */
  lemma {:induction false} TrimsToIff(cs: seq<scalar>, text: seq<scalar>)
    requires text != [] && Trimmed(text)
    ensures Trim(EncodeAll(cs)) == EncodeAll(text)
       <==> exists a, b :: AllWhite(a) && AllWhite(b) && cs == a + text + b
  {
    hide EncodeAll, Trim, White, AllWhite;
    if Trim(EncodeAll(cs)) == EncodeAll(text) {
      var i, j := TrimReads(cs);
      EncodingIsUnique(cs[i..j], text);
      assert cs == cs[..i] + text + cs[j..];
    }
    if a, b :| AllWhite(a) && AllWhite(b) && cs == a + text + b { TrimOf(a, text, b); }
  }
}
