/**
 * The cryptographic library calls the core makes (crypto/rsa, crypto/ecdsa,
 * crypto/ed25519, crypto/sha256, crypto/x509 PKCS#8, AES-GCM), taken as
 * parameters: a record of functions, and a predicate stating the properties
 * the core relies on. A concrete instance of each record shows that its
 * predicate can be met.
 */
module Crypto {
  import opened Wrappers
  import opened Types
  import opened BigBytes

  /** A private key of the Go types `*rsa.PrivateKey`, `*ecdsa.PrivateKey`, `ed25519.PrivateKey` or another. */
  datatype PrivateKey = PrivateKey(kind: KeyKind, material: seq<Byte>)

  /**
   * `crypto.PublicKey`: the fields the exporter reads, per Go type; `NilPublic`
   * is the nil interface.
   */
  datatype PublicKey =
    | RsaPublic(n: int, e: int)
    | EcdsaPublic(x: int, y: int)
    | Ed25519Public(bytes: seq<Byte>)
    | OtherPublic(typeName: string)
    | NilPublic

  /** The public key has the Go type that belongs to the private key's kind. */
  predicate PublicOfKind(pub: PublicKey, kind: KeyKind)
  {
    match kind
    case RsaKind => pub.RsaPublic?
    case EcdsaKind => pub.EcdsaPublic?
    case Ed25519Kind => pub.Ed25519Public?
    case OtherKind(_) => pub.OtherPublic?
  }

  /** An ECDSA P-256 signature component: below the group order, hence below 2^256. */
  type Scalar = x: nat | x < Pow256(32)

  datatype Primitives = Primitives(
    sha256: seq<Byte> -> seq<Byte>,
    /** Key generation for a kind, from the entropy it draws. */
    generate: (KeyKind, seq<Byte>) -> Res<PrivateKey>,
    marshalPkcs8: PrivateKey -> Res<seq<Byte>>,
    parsePkcs8: seq<Byte> -> Res<PrivateKey>,
    /** `priv.Public()`. */
    public: PrivateKey -> PublicKey,
    /** PKCS #1 v1.5 signature of a digest. */
    rsaSign: (PrivateKey, seq<Byte>) -> Res<seq<Byte>>,
    /** The (r, s) pair of an ECDSA signature of a digest. */
    ecdsaSign: (PrivateKey, seq<Byte>) -> Res<(Scalar, Scalar)>,
    /** Ed25519 signature of a message (no pre-hash). */
    ed25519Sign: (PrivateKey, seq<Byte>) -> Res<seq<Byte>>,
    /** `rsa.VerifyPKCS1v15(pub, SHA256, digest, sig) == nil`. */
    rsaVerify: (PublicKey, seq<Byte>, seq<Byte>) -> bool,
    /** `ecdsa.Verify(pub, digest, r, s)`. */
    ecdsaVerify: (PublicKey, seq<Byte>, int, int) -> bool,
    /** `ed25519.Verify(pub, message, sig)`. */
    ed25519Verify: (PublicKey, seq<Byte>, seq<Byte>) -> bool)

  /** What the core relies on from the library: kinds are kept, PKCS#8 round-trips, signatures verify. */
  ghost predicate Sound(p: Primitives)
  {
    && (forall k: PrivateKey :: PublicOfKind(p.public(k), k.kind))
    && (forall kind, e :: p.generate(kind, e).Ok? ==> p.generate(kind, e).value.kind == kind)
    && (forall k :: p.marshalPkcs8(k).Ok? ==> p.parsePkcs8(p.marshalPkcs8(k).value) == Ok(k))
    && (forall k: PrivateKey, d :: k.kind == RsaKind && p.rsaSign(k, d).Ok? ==>
          p.rsaVerify(p.public(k), d, p.rsaSign(k, d).value))
    && (forall k: PrivateKey, d :: k.kind == EcdsaKind && p.ecdsaSign(k, d).Ok? ==>
          p.ecdsaVerify(p.public(k), d, p.ecdsaSign(k, d).value.0, p.ecdsaSign(k, d).value.1))
    && (forall k: PrivateKey, m :: k.kind == Ed25519Kind && p.ed25519Sign(k, m).Ok? ==>
          p.ed25519Verify(p.public(k), m, p.ed25519Sign(k, m).value))
  }

  function KindTag(kind: KeyKind): Byte
  {
    match kind
    case RsaKind => 1
    case EcdsaKind => 2
    case Ed25519Kind => 3
    case OtherKind(_) => 0
  }

  function ToyPublic(k: PrivateKey): PublicKey
  {
    match k.kind
    case RsaKind => RsaPublic(FromBE(k.material), 65537)
    case EcdsaKind => EcdsaPublic(FromBE(k.material), 1)
    case Ed25519Kind => Ed25519Public(k.material)
    case OtherKind(t) => OtherPublic(t)
  }

  function ToyParse(der: seq<Byte>): Res<PrivateKey>
  {
    if der == [] || der[0] == 0 || der[0] > 3 then Err(Collaborator("x509: unknown key"))
    else
      var kind := if der[0] == 1 then RsaKind else if der[0] == 2 then EcdsaKind else Ed25519Kind;
      Ok(PrivateKey(kind, der[1..]))
  }

  /** A deliberately insecure instance: a signature is the digest itself. */
  function ToyPrimitives(): Primitives
  {
    Primitives(
      (m: seq<Byte>) => m,
      (kind: KeyKind, e: seq<Byte>) => Ok(PrivateKey(kind, e)),
      (k: PrivateKey) => if k.kind.OtherKind? then Err(Collaborator("x509: unknown key"))
                         else Ok([KindTag(k.kind)] + k.material),
      ToyParse,
      ToyPublic,
      (k: PrivateKey, d: seq<Byte>) => Ok(d),
      (k: PrivateKey, d: seq<Byte>) => Ok((1, 1)),
      (k: PrivateKey, m: seq<Byte>) => Ok(m),
      (pub: PublicKey, d: seq<Byte>, sig: seq<Byte>) => sig == d,
      (pub: PublicKey, d: seq<Byte>, r: int, s: int) => r == 1 && s == 1,
      (pub: PublicKey, m: seq<Byte>, sig: seq<Byte>) => sig == m)
  }

  /** The assumptions are consistent: some instance meets them. */
  lemma ToyPrimitivesSound()
    ensures Sound(ToyPrimitives())
  {
    var p := ToyPrimitives();
    forall k | p.marshalPkcs8(k).Ok?
      ensures p.parsePkcs8(p.marshalPkcs8(k).value) == Ok(k)
    {
      var der := [KindTag(k.kind)] + k.material;
      assert der[1..] == k.material;
    }
  }

  /** An AEAD (`cipher.AEAD`): Seal and Open under a key and a nonce, with associated data. */
  datatype Aead = Aead(
    seal: (seq<Byte>, seq<Byte>, seq<Byte>, seq<Byte>) -> seq<Byte>,
    open: (seq<Byte>, seq<Byte>, seq<Byte>, seq<Byte>) -> Option<seq<Byte>>)

  /**
   * What the encryptor relies on from AES-GCM: Open undoes Seal; a different key
   * of the same length, or a ciphertext with any one byte changed, fails to open.
   */
  ghost predicate AeadSound(a: Aead)
  {
    && (forall k, n, p, ad :: a.open(k, n, a.seal(k, n, p, ad), ad) == Some(p))
    && (forall k, k', n, p, ad :: |k'| == |k| && k' != k ==> a.open(k', n, a.seal(k, n, p, ad), ad) == None)
    && (forall k, n, p, ad, i: nat, b: Byte :: i < |a.seal(k, n, p, ad)| && b != a.seal(k, n, p, ad)[i] ==>
          a.open(k, n, Tamper(a.seal(k, n, p, ad), i, b), ad) == None)
  }

  /** `c` with byte `i` replaced by `b`. */
  function Tamper(c: seq<Byte>, i: nat, b: Byte): seq<Byte>
  {
    if i < |c| then c[i := b] else c
  }

  function ToyOpen(k: seq<Byte>, n: seq<Byte>, c: seq<Byte>, ad: seq<Byte>): Option<seq<Byte>>
  {
    if |c| < |k| || (|c| - |k|) % 2 != 0 then None
    else
      var h := (|c| - |k|) / 2;
      if c[..h] == c[h..2 * h] && c[2 * h..] == k then Some(c[..h]) else None
  }

  /** A deliberately insecure AEAD: the plaintext twice, then the key. */
  function ToyAead(): Aead
  {
    Aead((k: seq<Byte>, n: seq<Byte>, p: seq<Byte>, ad: seq<Byte>) => p + p + k, ToyOpen)
  }

  lemma ToyTamper(k: seq<Byte>, p: seq<Byte>, i: nat, b: Byte)
    requires i < |p + p + k| && b != (p + p + k)[i]
    ensures ToyOpen(k, [], (p + p + k)[i := b], []) == None
  {
    var c := p + p + k;
    var c' := c[i := b];
    var h := |p|;
    assert (|c'| - |k|) / 2 == h;
    if i < h {
      assert c'[..h][i] != c'[h..2 * h][i];
    } else if i < 2 * h {
      assert c'[..h][i - h] != c'[h..2 * h][i - h];
    } else {
      assert c'[2 * h..][i - 2 * h] != k[i - 2 * h];
    }
  }

  lemma ToyAeadSound()
    ensures AeadSound(ToyAead())
  {
    ToyAeadOpensSeal();
    ToyAeadRejectsOtherKey();
    ToyAeadRejectsTamper();
  }

  lemma ToyAeadOpensSeal()
    ensures var a := ToyAead(); forall k, n, p, ad :: a.open(k, n, a.seal(k, n, p, ad), ad) == Some(p)
  {
    var a := ToyAead();
    forall k, n, p, ad ensures a.open(k, n, a.seal(k, n, p, ad), ad) == Some(p) {
      var c := p + p + k;
      assert c[..|p|] == p && c[|p|..2 * |p|] == p && c[2 * |p|..] == k;
    }
  }

  lemma ToyAeadRejectsOtherKey()
    ensures var a := ToyAead();
      forall k, k', n, p, ad :: |k'| == |k| && k' != k ==> a.open(k', n, a.seal(k, n, p, ad), ad) == None
  {
    var a := ToyAead();
    forall k, k', n, p, ad | |k'| == |k| && k' != k
      ensures a.open(k', n, a.seal(k, n, p, ad), ad) == None
    {
      var c := p + p + k;
      assert c[2 * |p|..] == k;
    }
  }

  lemma ToyAeadRejectsTamper()
    ensures var a := ToyAead();
      forall k, n, p, ad, i: nat, b: Byte :: i < |a.seal(k, n, p, ad)| && b != a.seal(k, n, p, ad)[i] ==>
        a.open(k, n, Tamper(a.seal(k, n, p, ad), i, b), ad) == None
  {
    var a := ToyAead();
    forall k, n, p, ad, i: nat, b: Byte | i < |a.seal(k, n, p, ad)| && b != a.seal(k, n, p, ad)[i]
      ensures a.open(k, n, Tamper(a.seal(k, n, p, ad), i, b), ad) == None
    {
      ToyTamper(k, p, i, b);
    }
  }
}
