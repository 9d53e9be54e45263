/**
 * The basic Base64 encoding of section 4 of RFC 4648 with `=` padding, as
 * `java.util.Base64.getEncoder()` produces it for IMAGE messages, and the matching decoder.
 */
module Base64 {
  import opened Wrappers
  import opened Bytes

  /** The 6-bit value a character stands for in the alphabet (table 1 of RFC 4648). */
  function Digit(i: int): (c: char)
    requires 0 <= i < 64
  {
    if i < 26 then ('A' as int + i) as char
    else if i < 52 then ('a' as int + (i - 26)) as char
    else if i < 62 then ('0' as int + (i - 52)) as char
    else if i == 62 then '+'
    else '/'
  }

  /** The inverse of `Digit`; `None` for characters outside the alphabet (padding included). */
  function ValueOf(c: char): (r: Option<int>)
    ensures r.Some? ==> 0 <= r.value < 64 && Digit(r.value) == c
  {
    if 'A' <= c <= 'Z' then Some(c as int - 'A' as int)
    else if 'a' <= c <= 'z' then Some(c as int - 'a' as int + 26)
    else if '0' <= c <= '9' then Some(c as int - '0' as int + 52)
    else if c == '+' then Some(62)
    else if c == '/' then Some(63)
    else None
  }

  lemma ValueOfDigit(i: int)
    requires 0 <= i < 64
    ensures ValueOf(Digit(i)) == Some(i)
  {
  }

  lemma PadIsNotADigit(i: int)
    requires 0 <= i < 64
    ensures Digit(i) != '='
  {
  }

  /** Three octets as four characters. */
  function Quad(b0: Byte, b1: Byte, b2: Byte): string {
    [Digit(b0 / 4), Digit((b0 % 4) * 16 + b1 / 16), Digit((b1 % 16) * 4 + b2 / 64), Digit(b2 % 64)]
  }

  /** Encodes three octets per group; a final group of one or two octets is padded with `=`. */
  function Encode(b: seq<Byte>): (r: string)
    ensures |r| == (|b| + 2) / 3 * 4
    decreases |b|
  {
    if |b| == 0 then ""
    else if |b| == 1 then [Digit(b[0] / 4), Digit((b[0] % 4) * 16), '=', '=']
    else if |b| == 2 then [Digit(b[0] / 4), Digit((b[0] % 4) * 16 + b[1] / 16), Digit((b[1] % 16) * 4), '=']
    else Quad(b[0], b[1], b[2]) + Encode(b[3..])
  }

  /** Decodes one group of four characters; padding is only accepted in the last group. */
  function DecodeGroup(g: string, last: bool): (r: Option<seq<Byte>>)
    requires |g| == 4
    ensures r.Some? ==> 1 <= |r.value| <= 3
    ensures r.Some? && !last ==> |r.value| == 3
  {
    var i0 :- ValueOf(g[0]);
    var i1 :- ValueOf(g[1]);
    if last && g[2] == '=' && g[3] == '=' then
      Some([i0 * 4 + i1 / 16])
    else
      var i2 :- ValueOf(g[2]);
      if last && g[3] == '=' then
        Some([i0 * 4 + i1 / 16, (i1 % 16) * 16 + i2 / 4])
      else
        var i3 :- ValueOf(g[3]);
        Some([i0 * 4 + i1 / 16, (i1 % 16) * 16 + i2 / 4, (i2 % 4) * 64 + i3])
  }

  /**
   * A final unit of fewer than four characters: `Base64.getDecoder()` reads two or three
   * characters as if the missing `=` were there, and rejects a lone character and `xx=`.
   */
  function DecodeShort(s: string): (r: Option<seq<Byte>>)
    requires |s| < 4
    ensures |s| <= 1 ==> r == (if s == [] then Some([]) else None)
    ensures r.Some? && s != [] ==> |r.value| == |s| - 1
  {
    if |s| == 0 then Some([])
    else if |s| == 1 then None
    else if |s| == 2 then DecodeGroup(s + "==", true)
    else if s[2] == '=' then None
    else DecodeGroup(s + "=", true)
  }

  /**
   * `Base64.getDecoder().decode`: groups of four characters, padding only at the end,
   * and an unpadded final unit decoded as if padded; `None` where Java throws.
   */
  function Decode(s: string): (r: Option<seq<Byte>>)
    ensures |s| % 4 == 1 ==> r.None?
    ensures r.Some? ==> |r.value| * 4 <= |s| * 3
    decreases |s|
  {
    if |s| < 4 then DecodeShort(s)
    else
      var head :- DecodeGroup(s[..4], |s| == 4);
      var tail :- Decode(s[4..]);
      Some(head + tail)
  }

  // ----- properties -----

  lemma QuadRoundTrip(b0: Byte, b1: Byte, b2: Byte)
    ensures DecodeGroup(Quad(b0, b1, b2), false) == Some([b0, b1, b2])
    ensures DecodeGroup(Quad(b0, b1, b2), true) == Some([b0, b1, b2])
  {
    var i0, i1, i2, i3 := b0 / 4, (b0 % 4) * 16 + b1 / 16, (b1 % 16) * 4 + b2 / 64, b2 % 64;
    ValueOfDigit(i0); ValueOfDigit(i1); ValueOfDigit(i2); ValueOfDigit(i3);
    PadIsNotADigit(i2); PadIsNotADigit(i3);
    assert i0 * 4 + i1 / 16 == b0;
    assert (i1 % 16) * 16 + i2 / 4 == b1;
    assert (i2 % 4) * 64 + i3 == b2;
  }

  lemma OneRoundTrip(b0: Byte)
    ensures DecodeGroup([Digit(b0 / 4), Digit((b0 % 4) * 16), '=', '='], true) == Some([b0])
  {
    ValueOfDigit(b0 / 4); ValueOfDigit((b0 % 4) * 16);
    assert (b0 / 4) * 4 + ((b0 % 4) * 16) / 16 == b0;
  }

  lemma TwoRoundTrip(b0: Byte, b1: Byte)
    ensures DecodeGroup([Digit(b0 / 4), Digit((b0 % 4) * 16 + b1 / 16), Digit((b1 % 16) * 4), '='], true) == Some([b0, b1])
  {
    var i0, i1, i2 := b0 / 4, (b0 % 4) * 16 + b1 / 16, (b1 % 16) * 4;
    ValueOfDigit(i0); ValueOfDigit(i1); ValueOfDigit(i2); PadIsNotADigit(i2);
    assert i0 * 4 + i1 / 16 == b0;
    assert (i1 % 16) * 16 + i2 / 4 == b1;
  }

  lemma DecodeLastGroup(e: string)
    requires |e| == 4
    ensures Decode(e) == DecodeGroup(e, true)
  {
    assert e[..4] == e && e[4..] == [];
    match DecodeGroup(e, true)
    case None =>
    case Some(g) => assert g + [] == g;
  }

  lemma OneOctetRoundTrip(b: seq<Byte>)
    requires |b| == 1
    ensures Decode(Encode(b)) == Some(b)
  {
    var e := Encode(b);
    assert e == [Digit(b[0] / 4), Digit((b[0] % 4) * 16), '=', '='];
    OneRoundTrip(b[0]);
    DecodeLastGroup(e);
    assert b == [b[0]];
  }

  lemma TwoOctetRoundTrip(b: seq<Byte>)
    requires |b| == 2
    ensures Decode(Encode(b)) == Some(b)
  {
    var e := Encode(b);
    var b0, b1 := b[0], b[1];
    assert e == [Digit(b0 / 4), Digit((b0 % 4) * 16 + b1 / 16), Digit((b1 % 16) * 4), '='];
    TwoRoundTrip(b0, b1);
    assert DecodeGroup(e, true) == Some([b0, b1]);
    DecodeLastGroup(e);
    assert b == [b0, b1];
  }

  /** A leading group of four characters is decoded on its own, then the rest. */
  lemma DecodeFront(q: string, rest: string, head: seq<Byte>, tail: seq<Byte>)
    requires |q| == 4
    requires DecodeGroup(q, rest == []) == Some(head) && Decode(rest) == Some(tail)
    ensures Decode(q + rest) == Some(head + tail)
  {
    var s := q + rest;
    assert s[..4] == q;
    assert s[4..] == rest;
  }

  /** A group of three octets followed by more decodes to those octets and the rest. */
  lemma QuadStep(b: seq<Byte>, t: seq<Byte>)
    requires |b| >= 3
    requires Decode(Encode(b[3..])) == Some(t)
    ensures Decode(Encode(b)) == Some(b[..3] + t)
  {
    var rest := Encode(b[3..]);
    EncodeFront(b);
    QuadGroup(b[0], b[1], b[2], rest == []);
    PrefixOfThree(b);
    DecodeFront(Quad(b[0], b[1], b[2]), rest, b[..3], t);
  }

  lemma PrefixOfThree(b: seq<Byte>)
    requires |b| >= 3
    ensures b[..3] == [b[0], b[1], b[2]]
  {
  }

  lemma EncodeFront(b: seq<Byte>)
    requires |b| >= 3
    ensures Encode(b) == Quad(b[0], b[1], b[2]) + Encode(b[3..])
  {
  }

  lemma QuadGroup(b0: Byte, b1: Byte, b2: Byte, last: bool)
    ensures DecodeGroup(Quad(b0, b1, b2), last) == Some([b0, b1, b2])
  {
    QuadRoundTrip(b0, b1, b2);
  }

  /** Decoding undoes encoding for every octet string. */
  lemma {:induction false} DecodeEncode(b: seq<Byte>)
    ensures Decode(Encode(b)) == Some(b)
    decreases |b|
  {
    if |b| == 0 {
    } else if |b| == 1 {
      OneOctetRoundTrip(b);
    } else if |b| == 2 {
      TwoOctetRoundTrip(b);
    } else {
      DecodeEncode(b[3..]);
      QuadStep(b, b[3..]);
      assert b == b[..3] + b[3..];
    }
  }

  /** Every encoded character is an alphabet digit or padding, never a line break. */
  lemma {:induction false} EncodeAlphabet(b: seq<Byte>)
    ensures forall k :: 0 <= k < |Encode(b)| ==> Encode(b)[k] == '=' || ValueOf(Encode(b)[k]).Some?
    decreases |b|
  {
    if |b| == 0 {
    } else if |b| == 1 {
      ValueOfDigit(b[0] / 4); ValueOfDigit((b[0] % 4) * 16);
    } else if |b| == 2 {
      ValueOfDigit(b[0] / 4); ValueOfDigit((b[0] % 4) * 16 + b[1] / 16); ValueOfDigit((b[1] % 16) * 4);
    } else {
      ValueOfDigit(b[0] / 4); ValueOfDigit((b[0] % 4) * 16 + b[1] / 16);
      ValueOfDigit((b[1] % 16) * 4 + b[2] / 64); ValueOfDigit(b[2] % 64);
      EncodeAlphabet(b[3..]);
      var e := Encode(b);
      assert e == Quad(b[0], b[1], b[2]) + Encode(b[3..]);
      forall k | 4 <= k < |e|
        ensures e[k] == '=' || ValueOf(e[k]).Some?
      {
        assert e[k] == Encode(b[3..])[k - 4];
      }
    }
  }

  /** The worked example of section 10 of RFC 4648: "foob" encodes as "Zm9vYg==". */
  lemma FoobExample()
    ensures Encode(['f' as int, 'o' as int, 'o' as int, 'b' as int]) == "Zm9vYg=="
  {
  }

  /** The encoding without its trailing `=`, as `getEncoder().withoutPadding()` writes it. */
  function StripPadding(s: string): (r: string)
    ensures |r| <= |s|
    ensures r != [] ==> r[|r| - 1] != '='
    decreases |s|
  {
    if s != [] && s[|s| - 1] == '=' then StripPadding(s[..|s| - 1]) else s
  }

  lemma {:induction false} StripPaddingAppend(q: string, r: string)
    requires q != [] && q[|q| - 1] != '='
    ensures StripPadding(q + r) == q + StripPadding(r)
    decreases |r|
  {
    if r == [] {
      assert q + r == q;
    } else if r[|r| - 1] == '=' {
      assert (q + r)[..|q + r| - 1] == q + r[..|r| - 1];
      StripPaddingAppend(q, r[..|r| - 1]);
    }
  }

  /** Dropping one or two `=` after characters that do not end in `=` gives those characters. */
  lemma StripPads(d: string)
    requires d != [] && d[|d| - 1] != '='
    ensures StripPadding(d + "=") == d && StripPadding(d + "==") == d
  {
    var e1, e2 := d + "=", d + "==";
    assert StripPadding(d) == d;
    assert e1[|e1| - 1] == '=' && e1[..|e1| - 1] == d;
    assert StripPadding(e1) == StripPadding(d);
    assert e2[|e2| - 1] == '=' && e2[..|e2| - 1] == e1;
    assert StripPadding(e2) == StripPadding(e1);
  }

  lemma OneUnpadded(b: seq<Byte>)
    requires |b| == 1
    ensures Decode(StripPadding(Encode(b))) == Some(b)
  {
    var d := [Digit(b[0] / 4), Digit((b[0] % 4) * 16)];
    PadIsNotADigit((b[0] % 4) * 16);
    assert Encode(b) == d + "==";
    StripPads(d);
    OneRoundTrip(b[0]);
    assert d + "==" == [Digit(b[0] / 4), Digit((b[0] % 4) * 16), '=', '='];
    assert b == [b[0]];
  }

  lemma TwoUnpadded(b: seq<Byte>)
    requires |b| == 2
    ensures Decode(StripPadding(Encode(b))) == Some(b)
  {
    var d := [Digit(b[0] / 4), Digit((b[0] % 4) * 16 + b[1] / 16), Digit((b[1] % 16) * 4)];
    PadIsNotADigit((b[1] % 16) * 4);
    assert Encode(b) == d + "=";
    StripPads(d);
    TwoRoundTrip(b[0], b[1]);
    assert d + "=" == [Digit(b[0] / 4), Digit((b[0] % 4) * 16 + b[1] / 16), Digit((b[1] % 16) * 4), '='];
    assert b == [b[0], b[1]];
  }

  /**
   * The decoder also reads an encoding whose padding was dropped: removing the trailing
   * `=` of any encoding still decodes to the original octets.
   */
  lemma {:induction false} DecodeUnpadded(b: seq<Byte>)
    ensures Decode(StripPadding(Encode(b))) == Some(b)
    decreases |b|
  {
    if |b| == 0 {
    } else if |b| == 1 {
      OneUnpadded(b);
    } else if |b| == 2 {
      TwoUnpadded(b);
    } else {
      var q := Quad(b[0], b[1], b[2]);
      var rest := StripPadding(Encode(b[3..]));
      EncodeFront(b);
      PadIsNotADigit(b[2] % 64);
      StripPaddingAppend(q, Encode(b[3..]));
      DecodeUnpadded(b[3..]);
      QuadGroup(b[0], b[1], b[2], rest == []);
      PrefixOfThree(b);
      DecodeFront(q, rest, b[..3], b[3..]);
      assert b == b[..3] + b[3..];
    }
  }

  /** "Zm9vYg", the unpadded form of the section 10 example of RFC 4648, still decodes to "foob". */
  lemma UnpaddedFoob()
    ensures Decode("Zm9vYg") == Some(['f' as int, 'o' as int, 'o' as int, 'b' as int])
  {
    FoobExample();
    DecodeUnpadded(['f' as int, 'o' as int, 'o' as int, 'b' as int]);
    assert StripPadding("Zm9vYg==") == "Zm9vYg";
  }
}
