/**
 * utils.go and dto.go: base64url helpers, key ids, the per-algorithm
 * capability table (hash selection, key generation, PKCS#8 parsing, native
 * signing, verification) and the export of cached public keys as JWK records
 * (RFC 7517; RSA and EC fields of RFC 7518 sections 6.3.1 and 6.2.1, OKP of
 * RFC 8037 section 2).
 */
module Utils {
  import opened Wrappers
  import opened Types
  import opened BigBytes
  import opened Crypto
  import Base64Url
  import Der

  // ---------------------------------------------------------------------
  // Encodings

  /** `b64`: base64url without padding. */
  function B64(data: seq<Byte>): (s: string)
    ensures Base64Url.Decode(s) == Some(data)
    ensures |s| == (4 * |data| + 2) / 3
    ensures forall i :: 0 <= i < |s| ==> Base64Url.IsBase64UrlChar(s[i]) && s[i] != '='
  {
    Base64Url.DecodeEncode(data);
    Base64Url.EncodeLength(data);
    Base64Url.EncodeAlphabet(data);
    Base64Url.Encode(data)
  }

  /**
   * `b64big`: Base64urlUInt of RFC 7518 section 2, the minimal unsigned
   * big-endian bytes (of the absolute value, as `big.Int.Bytes` has it).
   */
  function B64Big(i: int): (s: string)
    ensures Base64Url.Decode(s).Some?
    ensures var bs := Base64Url.Decode(s).value;
      FromBE(bs) == Abs(i) && (bs == [] || bs[0] != 0)
  {
    B64(IntBytes(i))
  }

  /** The 12 random bytes of a key id. */
  type KidBytes = s: seq<Byte> | |s| == 12 witness Zeros(12)

  /**
   * What `rand.Read` gave `generateKID`: twelve random bytes, or a failure
   * with whatever it wrote into the buffer, and the RFC 3339 time text the
   * fallback then uses.
   */
  datatype KidDraw = RandomOk(buf: KidBytes) | RandomFailed(partial: KidBytes, timestamp: seq<Byte>)

  /** `generateKID`: "<alg>_<base64url suffix>". */
  function GenerateKid(alg: Alg, draw: KidDraw): (kid: string)
    ensures |kid| > |AlgName(alg)| + 1
    ensures kid[..|AlgName(alg)| + 1] == AlgName(alg) + "_"
  {
    var suffix := match draw
      case RandomOk(buf) => B64(buf)
      case RandomFailed(partial, ts) => B64(ts + partial);
    AlgName(alg) + "_" + suffix
  }

  /**
   * With randomness available the suffix is the 16-character base64url text of
   * the 12 bytes: no padding, and it decodes back to them.
   */
  lemma KidFormat(alg: Alg, buf: KidBytes)
    ensures var kid := GenerateKid(alg, RandomOk(buf));
      var suffix := kid[|AlgName(alg)| + 1..];
      && kid == AlgName(alg) + "_" + suffix
      && |suffix| == 16
      && (forall i :: 0 <= i < |suffix| ==> Base64Url.IsBase64UrlChar(suffix[i]) && suffix[i] != '=')
      && Base64Url.Decode(suffix) == Some(buf)
  {
    var kid := GenerateKid(alg, RandomOk(buf));
    assert kid[|AlgName(alg)| + 1..] == B64(buf);
  }

  // ---------------------------------------------------------------------
  // The capability table

  /** `crypto.SignerOpts` as the core uses it: SHA-256, or `crypto.Hash(0)` for no pre-hash. */
  datatype HashKind = NoHash | Sha256

  /** `signingOptions`: RS256 and ES256 hash with SHA-256, EdDSA signs the message itself. */
  function SigningOptions(alg: Alg): (r: Res<HashKind>)
    ensures r.Err? <==> alg.Other?
    ensures r.Err? ==> r.error == UnsupportedAlgorithm(alg)
    ensures r == Ok(Sha256) <==> alg == RS256 || alg == ES256
    ensures r == Ok(NoHash) <==> alg == EdDSA
  {
    match alg
    case RS256 => Ok(Sha256)
    case ES256 => Ok(Sha256)
    case EdDSA => Ok(NoHash)
    case Other(_) => Err(UnsupportedAlgorithm(alg))
  }

  /** The key kind that belongs to a supported algorithm. */
  function AlgKind(alg: Alg): KeyKind
    requires !alg.Other?
  {
    match alg
    case RS256 => RsaKind
    case ES256 => EcdsaKind
    case EdDSA => Ed25519Kind
  }

  predicate SupportedKind(kind: KeyKind)
  {
    !kind.OtherKind?
  }

  /** `generatePrivateKey`: RSA-2048, ECDSA P-256 or Ed25519 from the drawn entropy; any other algorithm is refused. */
  function GeneratePrivateKey(p: Primitives, alg: Alg, entropy: seq<Byte>): (r: Res<PrivateKey>)
    ensures alg.Other? ==> r == Err(UnknownAlg(alg))
    ensures !alg.Other? ==> r == p.generate(AlgKind(alg), entropy)
    ensures Sound(p) && r.Ok? ==> !alg.Other? && r.value.kind == AlgKind(alg)
  {
    if alg.Other? then Err(UnknownAlg(alg)) else p.generate(AlgKind(alg), entropy)
  }

  /** `marshalPKCS8`. */
  function MarshalPkcs8(p: Primitives, priv: PrivateKey): (r: Res<seq<Byte>>)
    ensures r.Err? <==> p.marshalPkcs8(priv).Err?
    ensures r.Ok? ==> r.value == p.marshalPkcs8(priv).value
  {
    match p.marshalPkcs8(priv)
    case Ok(der) => Ok(der)
    case Err(e) => Err(Error.MarshalPkcs8(e))
  }

  /** `parsePrivateKey`: a PKCS#8 key of an RSA, ECDSA or Ed25519 kind, and nothing else. */
  function ParsePrivateKey(p: Primitives, der: seq<Byte>): (r: Res<PrivateKey>)
    ensures r.Ok? <==> p.parsePkcs8(der).Ok? && SupportedKind(p.parsePkcs8(der).value.kind)
    ensures r.Ok? ==> r.value == p.parsePkcs8(der).value
    ensures p.parsePkcs8(der).Ok? && !SupportedKind(p.parsePkcs8(der).value.kind) ==>
      r == Err(UnsupportedPrivateKeyType(p.parsePkcs8(der).value.kind))
  {
    match p.parsePkcs8(der)
    case Err(e) => Err(ParsePkcs8(e))
    case Ok(k) => if SupportedKind(k.kind) then Ok(k) else Err(UnsupportedPrivateKeyType(k.kind))
  }

  /** A key generated for an algorithm survives PKCS#8 marshal and parse unchanged. */
  lemma ParseMarshalled(p: Primitives, alg: Alg, entropy: seq<Byte>)
    requires Sound(p)
    requires GeneratePrivateKey(p, alg, entropy).Ok?
    requires MarshalPkcs8(p, GeneratePrivateKey(p, alg, entropy).value).Ok?
    ensures var priv := GeneratePrivateKey(p, alg, entropy).value;
      ParsePrivateKey(p, MarshalPkcs8(p, priv).value) == Ok(priv)
  {
  }

  /**
   * `priv.Sign(rand.Reader, digest, opts)` by the dynamic type of the key:
   * RSA signs the digest (PKCS #1 v1.5), ECDSA returns its (r, s) in DER, and
   * Ed25519 refuses a pre-hashed input.
   */
  function NativeSign(p: Primitives, priv: PrivateKey, digest: seq<Byte>, opts: HashKind): Res<seq<Byte>>
  {
    match priv.kind
    case RsaKind => p.rsaSign(priv, digest)
    case EcdsaKind =>
      (match p.ecdsaSign(priv, digest)
       case Ok((r, s)) => Ok(Der.EncodeEcdsaSig(r, s))
       case Err(e) => Err(e))
    case Ed25519Kind =>
      if opts == Sha256 then Err(Collaborator("ed25519: expected opts.HashFunc() zero"))
      else p.ed25519Sign(priv, digest)
    case OtherKind(t) => Err(UnsupportedPrivateKeyType(priv.kind))
  }

  /**
   * `verifySignature`: dispatch on the algorithm, check the public key's kind,
   * hash for RS256/ES256, split an even-length ES256 signature into halves.
   */
  function VerifySignature(p: Primitives, alg: Alg, pub: PublicKey, payload: seq<Byte>, sig: seq<Byte>): Status
  {
    match alg
    case RS256 =>
      if !pub.RsaPublic? then Fail(PublicKeyNotOfKind(RsaKind))
      else if p.rsaVerify(pub, p.sha256(payload), sig) then Pass
      else Fail(SignatureInvalid(alg))
    case ES256 =>
      if !pub.EcdsaPublic? then Fail(PublicKeyNotOfKind(EcdsaKind))
      else if |sig| % 2 != 0 then Fail(InvalidEcdsaSignatureLength)
      else
        var half := |sig| / 2;
        if p.ecdsaVerify(pub, p.sha256(payload), FromBE(sig[..half]), FromBE(sig[half..])) then Pass
        else Fail(SignatureInvalid(alg))
    case EdDSA =>
      if !pub.Ed25519Public? then Fail(PublicKeyNotOfKind(Ed25519Kind))
      else if p.ed25519Verify(pub, payload, sig) then Pass
      else Fail(SignatureInvalid(alg))
    case Other(_) => Fail(VerifyUnsupportedAlg(alg))
  }

  /**
   * A public key of the wrong kind, and an unsupported algorithm, are refused
   * before any primitive runs: the outcome is the same whatever the primitives are.
   */
  lemma VerifyRefusesBeforePrimitives(p: Primitives, q: Primitives, alg: Alg, pub: PublicKey, payload: seq<Byte>, sig: seq<Byte>)
    requires alg.Other? || !PublicOfKind(pub, AlgKind(alg))
    ensures VerifySignature(p, alg, pub, payload, sig) == VerifySignature(q, alg, pub, payload, sig)
    ensures alg.Other? ==> VerifySignature(p, alg, pub, payload, sig) == Fail(VerifyUnsupportedAlg(alg))
    ensures !alg.Other? ==> VerifySignature(p, alg, pub, payload, sig) == Fail(PublicKeyNotOfKind(AlgKind(alg)))
  {
  }

  /**
   * ES256: an odd-length signature is refused before the primitive runs; an
   * even-length one, the empty one included, is split into two equal
   * big-endian halves and the verdict is the primitive's.
   */
  lemma VerifyEs256Split(p: Primitives, x: int, y: int, payload: seq<Byte>, sig: seq<Byte>)
    ensures |sig| % 2 != 0 ==> VerifySignature(p, ES256, EcdsaPublic(x, y), payload, sig) == Fail(InvalidEcdsaSignatureLength)
    ensures |sig| % 2 == 0 ==>
      var half := |sig| / 2;
      && half == |sig| - half
      && (VerifySignature(p, ES256, EcdsaPublic(x, y), payload, sig) == Pass <==>
          p.ecdsaVerify(EcdsaPublic(x, y), p.sha256(payload), FromBE(sig[..half]), FromBE(sig[half..])))
  {
  }

  // ---------------------------------------------------------------------
  // JWKS export (dto.go)

  /** `JWK`; an empty string is a field `omitempty` leaves out. */
  datatype Jwk = Jwk(
    kty: string, kid: string, alg: string, use: string,
    n: string, e: string,
    crv: string, x: string, y: string,
    crvOkp: string, xOkp: string)

  datatype Jwks = Jwks(keys: seq<Jwk>)

  /** A `*CachedKey` as `buildJWKS` sees it: nil, or a record pointer (maybe nil) and a public key. */
  datatype CacheSlot = NilSlot | Slot(key: Option<Key>, pub: PublicKey)

  /** The loop body of `buildJWKS` for one cache value: the entry, or none when it is skipped. */
  function JwkOf(slot: CacheSlot): Option<Jwk>
  {
    if slot.NilSlot? || slot.key.None? then None
    else
      var k := slot.key.value;
      var base := Jwk("", k.kid, AlgName(k.alg), "sig", "", "", "", "", "", "", "");
      match slot.pub
      case RsaPublic(n, e) => Some(base.(kty := "RSA", n := B64Big(n), e := B64Big(e)))
      case EcdsaPublic(x, y) => Some(base.(kty := "EC", crv := "P-256", x := B64Big(x), y := B64Big(y)))
      case Ed25519Public(bytes) => Some(base.(kty := "OKP", crv := "Ed25519", x := B64(bytes)))
      case OtherPublic(_) => None
      case NilPublic => None
  }

  /** A slot `buildJWKS` emits an entry for: non-nil, with a record, and a public key of a known kind. */
  predicate Exportable(slot: CacheSlot)
  {
    slot.Slot? && slot.key.Some? && (slot.pub.RsaPublic? || slot.pub.EcdsaPublic? || slot.pub.Ed25519Public?)
  }

  /**
   * What one entry says: `kid`, `alg` and `use = "sig"` from the record, and the
   * fields of its key type, each decoding to the key's own numbers or bytes.
   */
  lemma JwkOfFields(slot: CacheSlot)
    ensures JwkOf(slot).Some? <==> Exportable(slot)
    ensures Exportable(slot) ==>
      var j, k := JwkOf(slot).value, slot.key.value;
      && j.kid == k.kid && j.alg == AlgName(k.alg) && j.use == "sig"
      && j.crvOkp == "" && j.xOkp == ""
      && (slot.pub.RsaPublic? ==>
            && j.kty == "RSA" && j.crv == "" && j.x == "" && j.y == ""
            && FromBE(Base64Url.Decode(j.n).value) == Abs(slot.pub.n)
            && FromBE(Base64Url.Decode(j.e).value) == Abs(slot.pub.e))
      && (slot.pub.EcdsaPublic? ==>
            && j.kty == "EC" && j.crv == "P-256" && j.n == "" && j.e == ""
            && FromBE(Base64Url.Decode(j.x).value) == Abs(slot.pub.x)
            && FromBE(Base64Url.Decode(j.y).value) == Abs(slot.pub.y))
      && (slot.pub.Ed25519Public? ==>
            && j.kty == "OKP" && j.crv == "Ed25519" && j.n == "" && j.e == "" && j.y == ""
            && Base64Url.Decode(j.x) == Some(slot.pub.bytes))
  {
  }

  /**
   * The EC coordinates go through `b64big`, which drops leading zero bytes:
   * a coordinate below 2^248 is published in fewer than the 32 bytes that
   * RFC 7518 section 6.2.1.2 asks for.
   */
  lemma EcCoordinateNotFullWidth(k: Key, y: int)
    ensures var j := JwkOf(Slot(Some(k), EcdsaPublic(1, y))).value;
      Base64Url.Decode(j.x) == Some([1])
  {
    var bs := IntBytes(1);
    assert FromBE([1]) == 1 by { assert [1][..0] == []; }
    MinBEUnique([1]);
  }

  /** The entry one cache value contributes: one or none. */
  function EntryOf(slot: CacheSlot): (r: seq<Jwk>)
    ensures |r| == (if Exportable(slot) then 1 else 0)
    ensures forall j :: j in r <==> JwkOf(slot) == Some(j)
  {
    JwkOfFields(slot);
    match JwkOf(slot)
    case Some(j) => [j]
    case None => []
  }

  /** The entries for the cache values visited in `order`, in that order. */
  function EmitAll(cache: map<string, CacheSlot>, order: seq<string>): seq<Jwk>
    requires forall i :: 0 <= i < |order| ==> order[i] in cache
  {
    if order == [] then []
    else EmitAll(cache, order[..|order| - 1]) + EntryOf(cache[order[|order| - 1]])
  }

  predicate Distinct<T(==)>(s: seq<T>)
  {
    forall i, j :: 0 <= i < j < |s| ==> s[i] != s[j]
  }

  /** The map keys visited in `order`. */
  function Visited<T>(order: seq<T>): set<T>
  {
    set i | 0 <= i < |order| :: order[i]
  }

  /** Appending an unvisited key keeps the visit order free of repeats. */
  lemma SnocVisit<T>(order: seq<T>, k: T)
    requires Distinct(order) && k !in Visited(order)
    ensures Distinct(order + [k])
    ensures Visited(order + [k]) == Visited(order) + {k}
  {
    var o := order + [k];
    forall x | x in Visited(order) + {k} ensures x in Visited(o) {
      if x == k { assert o[|order|] == k; }
      else { var i :| 0 <= i < |order| && order[i] == x; assert o[i] == x; }
    }
  }

  /** The keys of the cache values that produce an entry. */
  function ExportableKids(cache: map<string, CacheSlot>, kids: set<string>): set<string>
  {
    set k | k in kids && k in cache && Exportable(cache[k])
  }

  /**
   * An entry is emitted exactly for each exportable cache value: every entry
   * comes from a visited value, every exportable visited value gives one, and
   * there are as many entries as exportable values.
   */
  lemma {:induction false} EmitAllCount(cache: map<string, CacheSlot>, order: seq<string>)
    requires forall i :: 0 <= i < |order| ==> order[i] in cache
    requires Distinct(order)
    ensures |EmitAll(cache, order)| == |ExportableKids(cache, Visited(order))|
  {
    if order != [] {
      var init := order[..|order| - 1];
      var last := order[|order| - 1];
      assert Distinct(init);
      EmitAllCount(cache, init);
      VisitedLast(order);
      DistinctLast(order);
      ExportableAdd(cache, Visited(init), last);
    }
  }

  /** The keys visited in `order` are those of its first part and its last key. */
  lemma VisitedLast<T>(order: seq<T>)
    requires |order| > 0
    ensures Visited(order) == Visited(order[..|order| - 1]) + {order[|order| - 1]}
  {
    var init := order[..|order| - 1];
    forall x | x in Visited(init) ensures x in Visited(order) {
      var i :| 0 <= i < |init| && init[i] == x;
      assert order[i] == x;
    }
  }

  /** In a visit order without repeats the last key was not visited before. */
  lemma DistinctLast<T>(order: seq<T>)
    requires |order| > 0 && Distinct(order)
    ensures order[|order| - 1] !in Visited(order[..|order| - 1])
  {
    var init := order[..|order| - 1];
    forall i | 0 <= i < |init| ensures init[i] != order[|order| - 1] {
      assert init[i] == order[i];
    }
  }

  /** One more visited key adds one exportable key exactly when its value is exportable. */
  lemma ExportableAdd(cache: map<string, CacheSlot>, kids: set<string>, k: string)
    requires k in cache && k !in kids
    ensures |ExportableKids(cache, kids + {k})| == |ExportableKids(cache, kids)| + |EntryOf(cache[k])|
  {
    if Exportable(cache[k]) {
      assert ExportableKids(cache, kids + {k}) == ExportableKids(cache, kids) + {k};
    } else {
      assert ExportableKids(cache, kids + {k}) == ExportableKids(cache, kids);
    }
  }

  /** Every entry comes from a visited cache value, and every visited exportable value gives its entry. */
  lemma {:induction false} EmitAllMembers(cache: map<string, CacheSlot>, order: seq<string>)
    requires forall i :: 0 <= i < |order| ==> order[i] in cache
    ensures forall j :: j in EmitAll(cache, order) <==>
      exists k :: k in Visited(order) && JwkOf(cache[k]) == Some(j)
  {
    if order != [] {
      var init := order[..|order| - 1];
      var last := order[|order| - 1];
      EmitAllMembers(cache, init);
      assert Visited(order) == Visited(init) + {last};
      forall j
        ensures j in EmitAll(cache, order) <==> exists k :: k in Visited(order) && JwkOf(cache[k]) == Some(j)
      {
        if j in EntryOf(cache[last]) {
          assert last in Visited(order) && JwkOf(cache[last]) == Some(j);
        }
        if k :| k in Visited(order) && JwkOf(cache[k]) == Some(j) {
          if k == last {
            assert j in EntryOf(cache[last]);
          } else {
            assert k in Visited(init);
          }
        }
      }
    }
  }

  /** Every entry carries `use = "sig"`. */
  lemma {:induction false} EmitAllUseSig(cache: map<string, CacheSlot>, order: seq<string>)
    requires forall i :: 0 <= i < |order| ==> order[i] in cache
    ensures forall j :: j in EmitAll(cache, order) ==> j.use == "sig" && j.kty in {"RSA", "EC", "OKP"}
  {
    if order != [] {
      EmitAllUseSig(cache, order[..|order| - 1]);
    }
  }

  /**
   * `buildJWKS`: visit the cache values in the map's (unspecified) order and
   * append an entry for each exportable one. It never fails.
   */
  method BuildJwks(cache: map<string, CacheSlot>) returns (out: Jwks, ghost order: seq<string>)
    ensures Distinct(order) && Visited(order) == cache.Keys
    ensures forall i :: 0 <= i < |order| ==> order[i] in cache
    ensures out.keys == EmitAll(cache, order)
  {
    out := Jwks([]);
    order := [];
    var remaining := cache.Keys;
    while remaining != {}
      invariant remaining <= cache.Keys
      invariant Distinct(order) && Visited(order) == cache.Keys - remaining
      invariant forall i :: 0 <= i < |order| ==> order[i] in cache
      invariant out.keys == EmitAll(cache, order)
      decreases remaining
    {
      var kid :| kid in remaining;
      remaining := remaining - {kid};
      ghost var before := order;
      SnocVisit(before, kid);
      order := order + [kid];
      assert order[..|order| - 1] == before;
      var entry := EntryOf(cache[kid]);
      out := out.(keys := out.keys + entry);
    }
  }
}
