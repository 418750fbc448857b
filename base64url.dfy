/**
 * base64url without padding (RFC 4648 section 5, padding omitted as its
 * section 3.2 permits): Go's `base64.RawURLEncoding`, used by `b64`. The
 * decoder is the reference the encoder is proved against.
 */
module Base64Url {
  import opened Wrappers
  import opened Types

  /** A base64url digit: its value, or "none" for a character outside the alphabet. */
  type Sextet = x: int | 0 <= x < 64

  /**
   * The alphabet of RFC 4648 section 5, table 2:
   * "A".."Z", "a".."z", "0".."9", "-", "_".
   */
  function Char(x: Sextet): char
  {
    if x < 26 then ('A' as int + x) as char
    else if x < 52 then ('a' as int + x - 26) as char
    else if x < 62 then ('0' as int + x - 52) as char
    else if x == 62 then '-'
    else '_'
  }

  /** The position of `c` in the alphabet, if it is one of its letters. */
  function Index(c: char): Option<Sextet>
  {
    if 'A' <= c <= 'Z' then Some(c as int - 'A' as int)
    else if 'a' <= c <= 'z' then Some(c as int - 'a' as int + 26)
    else if '0' <= c <= '9' then Some(c as int - '0' as int + 52)
    else if c == '-' then Some(62)
    else if c == '_' then Some(63)
    else None
  }

  lemma IndexChar(x: Sextet)
    ensures Index(Char(x)) == Some(x)
  {
  }

  predicate IsBase64UrlChar(c: char)
  {
    Index(c).Some?
  }

  /** The four digits of three bytes. */
  function Quad(b0: Byte, b1: Byte, b2: Byte): seq<char>
  {
    [Char(b0 / 4), Char(b0 % 4 * 16 + b1 / 16), Char(b1 % 16 * 4 + b2 / 64), Char(b2 % 64)]
  }

  /** `base64.RawURLEncoding.EncodeToString`. */
  function Encode(bs: seq<Byte>): seq<char>
    decreases |bs|
  {
    if |bs| >= 3 then Quad(bs[0], bs[1], bs[2]) + Encode(bs[3..])
    else if |bs| == 2 then Quad(bs[0], bs[1], 0)[..3]
    else if |bs| == 1 then Quad(bs[0], 0, 0)[..2]
    else []
  }

  /** The byte made of the low six bits of `c0` and the top two of `c1`. */
  function Join0(c0: Sextet, c1: Sextet): Byte
  {
    c0 * 4 + c1 / 16
  }

  /** The byte made of the low four bits of `c1` and the top four of `c2`. */
  function Join1(c1: Sextet, c2: Sextet): Byte
  {
    c1 % 16 * 16 + c2 / 4
  }

  /** The byte made of the low two bits of `c2` and all six of `c3`. */
  function Join2(c2: Sextet, c3: Sextet): Byte
  {
    c2 % 4 * 64 + c3
  }

  /** The unpadded decoder: full quads give three bytes, a final pair one, a final triple two. */
  function Decode(s: seq<char>): Option<seq<Byte>>
    decreases |s|
  {
    if |s| == 0 then Some([])
    else if |s| == 1 then None
    else
      var i0, i1 := Index(s[0]), Index(s[1]);
      if i0.None? || i1.None? then None
      else
        var c0, c1 := i0.value, i1.value;
        var b0 := Join0(c0, c1);
        if |s| == 2 then Some([b0])
        else
          var i2 := Index(s[2]);
          if i2.None? then None
          else
            var c2 := i2.value;
            var b1 := Join1(c1, c2);
            if |s| == 3 then Some([b0, b1])
            else
              var i3 := Index(s[3]);
              if i3.None? then None
              else
                var b2 := Join2(c2, i3.value);
                match Decode(s[4..])
                case None => None
                case Some(rest) => Some([b0, b1, b2] + rest)
  }

  /** Four characters for every three bytes, rounded up, and no padding. */
  lemma {:induction false} EncodeLength(bs: seq<Byte>)
    ensures |Encode(bs)| == (4 * |bs| + 2) / 3
    decreases |bs|
  {
    if |bs| >= 3 {
      EncodeLength(bs[3..]);
    }
  }

  /** Every output character is in the base64url alphabet; in particular no `=` appears. */
  lemma {:induction false} EncodeAlphabet(bs: seq<Byte>)
    ensures forall i :: 0 <= i < |Encode(bs)| ==> IsBase64UrlChar(Encode(bs)[i]) && Encode(bs)[i] != '='
    decreases |bs|
  {
    forall x: Sextet ensures IsBase64UrlChar(Char(x)) && Char(x) != '=' {
      IndexChar(x);
    }
    if |bs| >= 3 {
      EncodeAlphabet(bs[3..]);
    }
  }

  lemma GroupArith(b0: Byte, b1: Byte, b2: Byte)
    ensures Join0(b0 / 4, b0 % 4 * 16 + b1 / 16) == b0
    ensures Join1(b0 % 4 * 16 + b1 / 16, b1 % 16 * 4 + b2 / 64) == b1
    ensures Join2(b1 % 16 * 4 + b2 / 64, b2 % 64) == b2
  {
  }

  lemma QuadDigits(b0: Byte, b1: Byte, b2: Byte)
    ensures var q := Quad(b0, b1, b2);
      && Index(q[0]) == Some(b0 / 4)
      && Index(q[1]) == Some(b0 % 4 * 16 + b1 / 16)
      && Index(q[2]) == Some(b1 % 16 * 4 + b2 / 64)
      && Index(q[3]) == Some(b2 % 64)
  {
    IndexChar(b0 / 4);
    IndexChar(b0 % 4 * 16 + b1 / 16);
    IndexChar(b1 % 16 * 4 + b2 / 64);
    IndexChar(b2 % 64);
  }

  /** One step of the decoder over four alphabet characters. */
  lemma DecodeFour(s: seq<char>)
    requires |s| >= 4
    requires Index(s[0]).Some? && Index(s[1]).Some? && Index(s[2]).Some? && Index(s[3]).Some?
    ensures var c0, c1, c2, c3 := Index(s[0]).value, Index(s[1]).value, Index(s[2]).value, Index(s[3]).value;
      Decode(s) == if Decode(s[4..]).Some?
        then Some([Join0(c0, c1), Join1(c1, c2), Join2(c2, c3)] + Decode(s[4..]).value)
        else None
  {
  }

  lemma DecodeQuadPrefix(b0: Byte, b1: Byte, b2: Byte, t: seq<char>)
    ensures Decode(Quad(b0, b1, b2) + t) ==
      if Decode(t).Some? then Some([b0, b1, b2] + Decode(t).value) else None
  {
    var q := Quad(b0, b1, b2);
    var s := q + t;
    QuadDigits(b0, b1, b2);
    assert s[0] == q[0] && s[1] == q[1] && s[2] == q[2] && s[3] == q[3];
    assert s[4..] == t;
    DecodeFour(s);
    GroupArith(b0, b1, b2);
  }

  /** Two trailing bytes encode to three characters that decode back to them. */
  lemma DecodeEncodeTwo(b0: Byte, b1: Byte)
    ensures Decode(Encode([b0, b1])) == Some([b0, b1])
  {
    var q := Quad(b0, b1, 0);
    QuadDigits(b0, b1, 0);
    GroupArith(b0, b1, 0);
    var e := Encode([b0, b1]);
    assert |e| == 3 && e[0] == q[0] && e[1] == q[1] && e[2] == q[2];
  }

  /** One trailing byte encodes to two characters that decode back to it. */
  lemma DecodeEncodeOne(b0: Byte)
    ensures Decode(Encode([b0])) == Some([b0])
  {
    var q := Quad(b0, 0, 0);
    QuadDigits(b0, 0, 0);
    GroupArith(b0, 0, 0);
    var e := Encode([b0]);
    assert |e| == 2 && e[0] == q[0] && e[1] == q[1];
  }

  /** A full group in front of a string that round-trips still round-trips. */
  lemma DecodeEncodeGroup(b0: Byte, b1: Byte, b2: Byte, rest: seq<Byte>)
    requires Decode(Encode(rest)) == Some(rest)
    ensures Decode(Encode([b0, b1, b2] + rest)) == Some([b0, b1, b2] + rest)
  {
    var bs := [b0, b1, b2] + rest;
    assert bs[0] == b0 && bs[1] == b1 && bs[2] == b2 && bs[3..] == rest;
    assert Encode(bs) == Quad(b0, b1, b2) + Encode(rest);
    DecodeQuadPrefix(b0, b1, b2, Encode(rest));
  }

  /** Decoding undoes encoding, for every byte string including the empty one. */
  lemma {:induction false} DecodeEncode(bs: seq<Byte>)
    ensures Decode(Encode(bs)) == Some(bs)
    decreases |bs|
  {
    if |bs| >= 3 {
      var rest := bs[3..];
      assert bs == [bs[0], bs[1], bs[2]] + rest;
      DecodeEncode(rest);
      DecodeEncodeGroup(bs[0], bs[1], bs[2], rest);
    } else if |bs| == 2 {
      assert bs == [bs[0], bs[1]];
      DecodeEncodeTwo(bs[0], bs[1]);
    } else if |bs| == 1 {
      assert bs == [bs[0]];
      DecodeEncodeOne(bs[0]);
    }
  }
}
