/**
 * der.go: re-encoding an ECDSA signature from the DER
 * `Ecdsa-Sig-Value ::= SEQUENCE { r INTEGER, s INTEGER }` of RFC 3279
 * section 2.2.3 into the 64-byte R‖S form of RFC 7518 section 3.4.
 *
 * `asn1.Unmarshal(der, &sig)` is modelled by a parser that follows Go's
 * encoding/asn1 on this input shape: DER lengths (ITU-T X.690 section 8.1.3:
 * short form below 128, minimal long form otherwise), minimal two's-complement
 * INTEGER contents (X.690 section 8.3), extra elements at the end of the
 * SEQUENCE accepted, and bytes after the SEQUENCE returned unread.
 */
module Der {
  import opened Wrappers
  import opened Types
  import opened BigBytes
  import Crypto

  const TagInteger: Byte := 0x02
  const TagSequence: Byte := 0x30
  /** Go's encoding/asn1 gives up on a long-form length once it reaches 2^23 before the next byte. */
  const LengthLimit: nat := 0x80_0000

  /** One tag-length-value element and what follows it. */
  datatype Tlv = Tlv(tag: Byte, content: seq<Byte>, rest: seq<Byte>)

  /** The `numBytes` big-endian length bytes of a long-form length, starting at `off`. */
  function ParseLongLength(b: seq<Byte>, off: nat, numBytes: nat, acc: nat): (r: Option<(nat, nat)>)
    requires off <= |b|
    ensures r.Some? ==> r.value.1 == off + numBytes <= |b|
    decreases numBytes
  {
    if numBytes == 0 then Some((acc, off))
    else if off >= |b| then None            // truncated tag or length
    else if acc >= LengthLimit then None    // length too large
    else
      var acc' := acc * 256 + b[off];
      if acc' == 0 then None               // superfluous leading zeros in length
      else ParseLongLength(b, off + 1, numBytes - 1, acc')
  }

  /**
   * `parseTagAndLength` followed by the bounds check of `parseField`. A
   * high-tag-number identifier (low five bits all ones) is refused: Go either
   * rejects it as non-minimal or reads a tag number of 31 or more, which
   * matches neither INTEGER nor SEQUENCE.
   */
  function ParseTlv(b: seq<Byte>): (r: Option<Tlv>)
    ensures r.Some? ==> |r.value.content| + |r.value.rest| < |b|
  {
    if |b| < 2 || b[0] % 32 == 31 then None
    else
      var header: Option<(nat, nat)> :=
        if b[1] < 0x80 then Some((b[1] as nat, 2))
        else if b[1] == 0x80 then None      // indefinite length found (not DER)
        else match ParseLongLength(b, 2, b[1] - 0x80, 0)
          case None => None
          case Some((len, off)) => if len < 0x80 then None else Some((len, off));  // non-minimal length
      match header
      case None => None
      case Some((len, start)) =>
        if start + len > |b| then None      // data truncated
        else Some(Tlv(b[0], b[start..start + len], b[start + len..]))
  }

  /** `checkInteger` and `parseBigInt`: non-empty, minimal, two's complement. */
  function ParseInteger(c: seq<Byte>): Option<int>
  {
    if c == [] then None
    else if |c| >= 2 && ((c[0] == 0 && c[1] < 0x80) || (c[0] == 0xFF && c[1] >= 0x80)) then None
    else if c[0] >= 0x80 then Some(FromBE(c) - Pow256(|c|))
    else Some(FromBE(c) as int)
  }

  /** One INTEGER element; the remaining bytes follow. */
  function ParseIntegerField(b: seq<Byte>): Option<(int, seq<Byte>)>
  {
    match ParseTlv(b)
    case None => None
    case Some(t) =>
      if t.tag != TagInteger then None     // tags don't match
      else match ParseInteger(t.content)
        case None => None
        case Some(v) => Some((v, t.rest))
  }

  /** `asn1.Unmarshal(der, &ecdsaSignature{})`, keeping the parsed (R, S) and dropping the remainder. */
  function ParseEcdsaSig(der: seq<Byte>): Option<(int, int)>
  {
    match ParseTlv(der)
    case None => None
    case Some(seqTlv) =>
      if seqTlv.tag != TagSequence then None
      else match ParseIntegerField(seqTlv.content)
        case None => None
        case Some((r, afterR)) =>
          match ParseIntegerField(afterR)
          case None => None
          case Some((s, _)) => Some((r, s))   // extra SEQUENCE elements are allowed
  }

  /** The 32-byte field width of P-256; the same whatever algorithm is named. */
  const FieldSize: nat := 32

  /** What DERToRawECDSA computes. */
  function DerToRaw(alg: Alg, der: seq<Byte>): Res<seq<Byte>>
  {
    match ParseEcdsaSig(der)
    case None => Err(Asn1Unmarshal)
    case Some((r, s)) =>
      var rb, sb := IntBytes(r), IntBytes(s);
      if |rb| > FieldSize || |sb| > FieldSize then Err(RSTooLarge(alg))
      else Ok(PadLeft(rb, FieldSize) + PadLeft(sb, FieldSize))
  }

  /** `copy(raw[off:], src)`. */
  method CopyInto(raw: array<Byte>, off: nat, src: seq<Byte>)
    requires off + |src| <= raw.Length
    modifies raw
    ensures raw[..] == old(raw[..])[..off] + src + old(raw[..])[off + |src|..]
  {
    var i := 0;
    while i < |src|
      invariant 0 <= i <= |src|
      invariant forall j :: 0 <= j < raw.Length ==>
        raw[j] == if off <= j < off + i then src[j - off] else old(raw[j])
    {
      raw[off + i] := src[i];
      i := i + 1;
    }
    ghost var want := old(raw[..])[..off] + src + old(raw[..])[off + |src|..];
    assert forall j :: 0 <= j < raw.Length ==> raw[j] == want[j];
  }

  /** DERToRawECDSA: allocate a zeroed 64-byte buffer and copy R and S right-aligned into its halves. */
  method DERToRawECDSA(alg: Alg, der: seq<Byte>) returns (r: Res<seq<Byte>>)
    ensures r == DerToRaw(alg, der)
  {
    var sig := ParseEcdsaSig(der);
    if sig.None? {
      return Err(Asn1Unmarshal);
    }
    var rBytes := IntBytes(sig.value.0);
    var sBytes := IntBytes(sig.value.1);
    if |rBytes| > FieldSize || |sBytes| > FieldSize {
      return Err(RSTooLarge(alg));
    }
    var raw := PackHalves(rBytes, sBytes);
    return Ok(raw);
  }

  /**
   * The buffer steps of DERToRawECDSA: a zeroed 64-byte buffer with `rb`
   * copied right-aligned into the first half and `sb` into the second.
   */
  method PackHalves(rb: seq<Byte>, sb: seq<Byte>) returns (out: seq<Byte>)
    requires |rb| <= FieldSize && |sb| <= FieldSize
    ensures out == PadLeft(rb, FieldSize) + PadLeft(sb, FieldSize)
  {
    var raw := new Byte[2 * FieldSize](_ => 0);
    ghost var zeros := raw[..];
    CopyInto(raw, FieldSize - |rb|, rb);
    ghost var half := raw[..];
    CopyInto(raw, 2 * FieldSize - |sb|, sb);
    TwoCopies(zeros, half, raw[..], rb, sb);
    out := raw[..];
  }

  /** The buffer after the two copies is R and S, each left-padded to the field size. */
  lemma TwoCopies(zeros: seq<Byte>, half: seq<Byte>, full: seq<Byte>, rb: seq<Byte>, sb: seq<Byte>)
    requires |zeros| == 2 * FieldSize && forall i :: 0 <= i < |zeros| ==> zeros[i] == 0
    requires |rb| <= FieldSize && |sb| <= FieldSize
    requires half == zeros[..FieldSize - |rb|] + rb + zeros[FieldSize - |rb| + |rb|..]
    requires full == half[..2 * FieldSize - |sb|] + sb + half[2 * FieldSize - |sb| + |sb|..]
    ensures full == PadLeft(rb, FieldSize) + PadLeft(sb, FieldSize)
  {
    var want := PadLeft(rb, FieldSize) + PadLeft(sb, FieldSize);
    assert |full| == |want|;
    forall i | 0 <= i < |full| ensures full[i] == want[i] {
      if i < FieldSize - |rb| {
      } else if i < FieldSize {
        assert full[i] == rb[i - (FieldSize - |rb|)];
      } else if i < 2 * FieldSize - |sb| {
      } else {
        assert full[i] == sb[i - (2 * FieldSize - |sb|)];
      }
    }
  }

  // ---------------------------------------------------------------------
  // Properties of DERToRawECDSA

  /** Input that is not a DER SEQUENCE, such as FF 00 01, is an "asn1 unmarshal" error. */
  lemma InvalidDerExample(alg: Alg)
    ensures DerToRaw(alg, [0xFF, 0x00, 0x01]) == Err(Asn1Unmarshal)
  {
  }

  /** The result is an error exactly when parsing fails or a component does not fit 32 bytes. */
  lemma DerToRawErrors(alg: Alg, der: seq<Byte>)
    ensures DerToRaw(alg, der) == Err(Asn1Unmarshal) <==> ParseEcdsaSig(der).None?
    ensures DerToRaw(alg, der) == Err(RSTooLarge(alg)) <==>
      (ParseEcdsaSig(der).Some? &&
       (Abs(ParseEcdsaSig(der).value.0) >= Pow256(FieldSize) ||
        Abs(ParseEcdsaSig(der).value.1) >= Pow256(FieldSize)))
  {
    match ParseEcdsaSig(der)
    case None =>
    case Some((r, s)) =>
      IntBytesFit(r, FieldSize);
      IntBytesFit(s, FieldSize);
  }

  /**
   * On success the output is 64 bytes: |R| right-aligned in bytes [0, 32) and
   * |S| in bytes [32, 64), zeros before each, and reading each half back as a
   * big-endian number gives the magnitudes of R and S.
   */
  lemma DerToRawLayout(alg: Alg, der: seq<Byte>, r: int, s: int)
    requires ParseEcdsaSig(der) == Some((r, s))
    requires DerToRaw(alg, der).Ok?
    ensures var raw := DerToRaw(alg, der).value;
      && |raw| == 2 * FieldSize
      && raw[FieldSize - |IntBytes(r)|..FieldSize] == IntBytes(r)
      && raw[2 * FieldSize - |IntBytes(s)|..] == IntBytes(s)
      && (forall i :: 0 <= i < FieldSize - |IntBytes(r)| ==> raw[i] == 0)
      && (forall i :: FieldSize <= i < 2 * FieldSize - |IntBytes(s)| ==> raw[i] == 0)
      && FromBE(raw[..FieldSize]) == Abs(r)
      && FromBE(raw[FieldSize..]) == Abs(s)
  {
    var raw := DerToRaw(alg, der).value;
    var pr, ps := PadLeft(IntBytes(r), FieldSize), PadLeft(IntBytes(s), FieldSize);
    assert raw[..FieldSize] == pr && raw[FieldSize..] == ps;
    assert raw[FieldSize - |IntBytes(r)|..FieldSize] == pr[FieldSize - |IntBytes(r)|..];
    PadLeftValue(IntBytes(r), FieldSize);
    PadLeftValue(IntBytes(s), FieldSize);
  }

  /** The algorithm only names the error: the field width is 32 for every `alg`. */
  lemma DerToRawIgnoresAlg(a: Alg, b: Alg, der: seq<Byte>)
    ensures DerToRaw(a, der).Ok? <==> DerToRaw(b, der).Ok?
    ensures DerToRaw(a, der).Ok? ==> DerToRaw(a, der) == DerToRaw(b, der)
  {
  }

  lemma {:induction false} ParseLongLengthAppend(b: seq<Byte>, x: seq<Byte>, off: nat, numBytes: nat, acc: nat)
    requires off <= |b|
    requires ParseLongLength(b, off, numBytes, acc).Some?
    ensures ParseLongLength(b + x, off, numBytes, acc) == ParseLongLength(b, off, numBytes, acc)
    decreases numBytes
  {
    if numBytes != 0 {
      assert (b + x)[off] == b[off];
      ParseLongLengthAppend(b, x, off + 1, numBytes - 1, acc * 256 + b[off]);
    }
  }

  lemma ParseTlvAppend(b: seq<Byte>, x: seq<Byte>)
    requires ParseTlv(b).Some?
    ensures ParseTlv(b + x) == Some(Tlv(ParseTlv(b).value.tag, ParseTlv(b).value.content, ParseTlv(b).value.rest + x))
  {
    var bx := b + x;
    assert bx[0] == b[0] && bx[1] == b[1];
    if b[1] >= 0x80 {
      ParseLongLengthAppend(b, x, 2, b[1] - 0x80, 0);
    }
    var t := ParseTlv(b).value;
    var start := |b| - |t.content| - |t.rest|;
    assert bx[start..start + |t.content|] == t.content;
    assert bx[start + |t.content|..] == t.rest + x;
  }

  /** Bytes after the first complete SEQUENCE are ignored: Unmarshal's remainder is discarded. */
  lemma TrailingBytesIgnored(alg: Alg, der: seq<Byte>, extra: seq<Byte>)
    requires ParseTlv(der).Some?
    ensures DerToRaw(alg, der + extra) == DerToRaw(alg, der)
  {
    ParseTlvAppend(der, extra);
  }

  // ---------------------------------------------------------------------
  // The encoding an ECDSA signer produces (`asn1.Marshal` of ecdsaSignature)

  /** The minimal two's-complement contents of a non-negative INTEGER. */
  function EncodeInteger(v: nat): seq<Byte>
  {
    var m := MinBE(v);
    if m == [] then [0] else if m[0] >= 0x80 then [0] + m else m
  }

  lemma EncodeIntegerLength(v: Crypto.Scalar)
    ensures 1 <= |EncodeInteger(v)| <= FieldSize + 1
  {
    EncodeIntegerFits(v, FieldSize);
  }

  /** A value below 256^n encodes in at most n + 1 bytes. */
  lemma EncodeIntegerFits(v: nat, n: nat)
    requires v < Pow256(n)
    ensures 1 <= |EncodeInteger(v)| <= n + 1
  {
    MinBELength(v, n);
  }

  function IntegerTlv(v: Crypto.Scalar): (t: seq<Byte>)
    ensures |t| <= FieldSize + 3
  {
    EncodeIntegerLength(v);
    [TagInteger, |EncodeInteger(v)|] + EncodeInteger(v)
  }

  /** `Ecdsa-Sig-Value` in DER for in-range components; every length is in short form. */
  function EncodeEcdsaSig(r: Crypto.Scalar, s: Crypto.Scalar): seq<Byte>
  {
    assert |IntegerTlv(r) + IntegerTlv(s)| < 0x80;
    var body := IntegerTlv(r) + IntegerTlv(s);
    [TagSequence, |body|] + body
  }

  lemma ParseEncodedInteger(v: nat)
    ensures ParseInteger(EncodeInteger(v)) == Some(v)
  {
    var m := MinBE(v);
    MinBEDecodes(v);
    MinBEMinimal(v);
    if m == [] {
      assert FromBE([0]) == 0 by { assert [0][..0] == []; }
    } else if m[0] >= 0x80 {
      FromBEZeroPrefix(1, m);
      assert Zeros(1) + m == [0] + m;
    }
  }

  lemma ParseShortTlv(tag: Byte, c: seq<Byte>, rest: seq<Byte>)
    requires tag % 32 != 31 && |c| < 0x80
    ensures ParseTlv([tag, |c|] + c + rest) == Some(Tlv(tag, c, rest))
  {
    var b := [tag, |c|] + c + rest;
    assert b[2..2 + |c|] == c;
    assert b[2 + |c|..] == rest;
  }

  lemma ParseEncodedIntegerField(v: Crypto.Scalar, rest: seq<Byte>)
    ensures ParseIntegerField(IntegerTlv(v) + rest) == Some((v as int, rest))
  {
    EncodeIntegerLength(v);
    var ev := EncodeInteger(v);
    ParseShortTlv(TagInteger, ev, rest);
    assert IntegerTlv(v) + rest == [TagInteger, |ev|] + ev + rest;
    ParseEncodedInteger(v);
  }

  /** Parsing undoes encoding, whatever follows the SEQUENCE. */
  lemma ParseEncodedEcdsaSig(r: Crypto.Scalar, s: Crypto.Scalar, extra: seq<Byte>)
    ensures ParseEcdsaSig(EncodeEcdsaSig(r, s) + extra) == Some((r as int, s as int))
  {
    var body := IntegerTlv(r) + IntegerTlv(s);
    ParseShortTlv(TagSequence, body, extra);
    assert EncodeEcdsaSig(r, s) + extra == [TagSequence, |body|] + body + extra;
    ParseEncodedIntegerField(r, IntegerTlv(s));
    ParseEncodedIntegerField(s, []);
    assert IntegerTlv(s) + [] == IntegerTlv(s);
  }

  /** `Bytes()` of a signature component: at most 32 bytes. */
  function ScalarBytes(v: Crypto.Scalar): (bs: seq<Byte>)
    ensures |bs| <= FieldSize && bs == IntBytes(v)
  {
    MinBELength(v, FieldSize);
    MinBE(v)
  }

  /**
   * A signer's DER output always converts: the result is R and S, each
   * left-padded to 32 bytes.
   */
  lemma DerToRawOfEncoded(alg: Alg, r: Crypto.Scalar, s: Crypto.Scalar)
    ensures DerToRaw(alg, EncodeEcdsaSig(r, s)) ==
      Ok(PadLeft(ScalarBytes(r), FieldSize) + PadLeft(ScalarBytes(s), FieldSize))
  {
    ParseEncodedEcdsaSig(r, s, []);
    assert EncodeEcdsaSig(r, s) + [] == EncodeEcdsaSig(r, s);
  }
}
