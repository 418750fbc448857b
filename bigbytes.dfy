/**
 * The two `math/big` conversions the core relies on: `Int.Bytes()` (the
 * minimal unsigned big-endian bytes of the absolute value) and
 * `Int.SetBytes` (big-endian bytes read as an unsigned integer), plus the
 * left-padding into a fixed width that DERToRawECDSA performs.
 */
module BigBytes {
  import opened Types

  function Pow256(n: nat): (p: nat)
    ensures p >= 1
  {
    if n == 0 then 1 else 256 * Pow256(n - 1)
  }

  /** `new(big.Int).SetBytes(bs)`: big-endian, unsigned. */
  function FromBE(bs: seq<Byte>): nat
  {
    if bs == [] then 0 else FromBE(bs[..|bs| - 1]) * 256 + bs[|bs| - 1]
  }

  /** `big.Int.Bytes()` of a non-negative value: no leading zero byte, empty for zero. */
  function MinBE(v: nat): seq<Byte>
  {
    if v == 0 then [] else MinBE(v / 256) + [v % 256]
  }

  function Abs(v: int): nat { if v < 0 then -v else v }

  /** `big.Int.Bytes()`: the sign is dropped. */
  function IntBytes(v: int): (bs: seq<Byte>)
    ensures FromBE(bs) == Abs(v)
    ensures bs == [] || bs[0] != 0
  {
    MinBEDecodes(Abs(v));
    MinBEMinimal(Abs(v));
    MinBE(Abs(v))
  }

  /** `v.Bytes()` fits `n` bytes exactly when the magnitude of `v` is below 256^n. */
  lemma IntBytesFit(v: int, n: nat)
    ensures |IntBytes(v)| <= n <==> Abs(v) < Pow256(n)
  {
    MinBELength(Abs(v), n);
  }

  function Zeros(n: nat): (z: seq<Byte>)
    ensures |z| == n && forall i :: 0 <= i < n ==> z[i] == 0
  {
    seq(n, _ => 0)
  }

  /** `bs` right-aligned in `width` bytes, the bytes before it zero. */
  function PadLeft(bs: seq<Byte>, width: nat): (r: seq<Byte>)
    requires |bs| <= width
    ensures |r| == width && r[width - |bs|..] == bs
    ensures forall i :: 0 <= i < width - |bs| ==> r[i] == 0
  {
    Zeros(width - |bs|) + bs
  }

  lemma {:induction false} MinBEDecodes(v: nat)
    ensures FromBE(MinBE(v)) == v
  {
    if v != 0 {
      MinBEDecodes(v / 256);
      var m := MinBE(v);
      assert m[..|m| - 1] == MinBE(v / 256);
    }
  }

  /** `Bytes()` never produces a leading zero byte. */
  lemma {:induction false} MinBEMinimal(v: nat)
    ensures MinBE(v) == [] || MinBE(v)[0] != 0
  {
    if v != 0 {
      MinBEMinimal(v / 256);
      if v / 256 == 0 {
        assert MinBE(v) == [v % 256];
      } else {
        assert MinBE(v)[0] == MinBE(v / 256)[0];
      }
    }
  }

  lemma {:induction false} FromBEBound(bs: seq<Byte>)
    ensures FromBE(bs) < Pow256(|bs|)
  {
    if bs != [] {
      FromBEBound(bs[..|bs| - 1]);
    }
  }

  lemma {:induction false} FromBEZeroHead(bs: seq<Byte>)
    requires bs == [] || bs[0] != 0
    requires FromBE(bs) == 0
    ensures bs == []
  {
    if bs != [] {
      var init := bs[..|bs| - 1];
      assert FromBE(init) == 0 && bs[|bs| - 1] == 0;
      if init != [] {
        assert init[0] == bs[0];
        FromBEZeroHead(init);
      }
    }
  }

  /** A byte string without a leading zero is the `Bytes()` of its value: the encoding is canonical. */
  lemma {:induction false} MinBEUnique(bs: seq<Byte>)
    requires bs == [] || bs[0] != 0
    ensures MinBE(FromBE(bs)) == bs
  {
    if bs != [] {
      var init := bs[..|bs| - 1];
      var v := FromBE(bs);
      assert v / 256 == FromBE(init) && v % 256 == bs[|bs| - 1];
      if init == [] {
        assert v / 256 == 0;
        assert v != 0;
      } else {
        assert init[0] == bs[0];
        MinBEUnique(init);
        if v == 0 { FromBEZeroHead(bs); }
      }
      assert bs == init + [bs[|bs| - 1]];
    }
  }

  /** `Bytes()` fits in `n` bytes exactly when the value is below 256^n. */
  lemma {:induction false} MinBELength(v: nat, n: nat)
    ensures |MinBE(v)| <= n <==> v < Pow256(n)
  {
    if v != 0 {
      if n == 0 {
      } else {
        MinBELength(v / 256, n - 1);
      }
    }
  }

  lemma {:induction false} FromBEZeroPrefix(k: nat, bs: seq<Byte>)
    ensures FromBE(Zeros(k) + bs) == FromBE(bs)
  {
    if bs == [] {
      assert Zeros(k) + bs == Zeros(k);
      ZerosValue(k);
    } else {
      var init := bs[..|bs| - 1];
      assert (Zeros(k) + bs)[..|Zeros(k) + bs| - 1] == Zeros(k) + init;
      FromBEZeroPrefix(k, init);
    }
  }

  lemma {:induction false} ZerosValue(k: nat)
    ensures FromBE(Zeros(k)) == 0
  {
    if k != 0 {
      assert Zeros(k)[..k - 1] == Zeros(k - 1);
      ZerosValue(k - 1);
    }
  }

  /** Left-padding with zeros does not change the big-endian value. */
  lemma PadLeftValue(bs: seq<Byte>, width: nat)
    requires |bs| <= width
    ensures FromBE(PadLeft(bs, width)) == FromBE(bs)
  {
    FromBEZeroPrefix(width - |bs|, bs);
  }
}
