/**
 * manager.go: the `KeyManager` — a cache of decrypted signing keys, indexed
 * by key id and by algorithm, rebuilt from the store; signing with the active
 * key of an algorithm, verification by key id, JWKS export and rotation.
 */
module Manager {
  import opened Wrappers
  import opened Types
  import opened BigBytes
  import opened Crypto
  import opened Utils
  import opened Encryption
  import opened Store
  import Der

  /** `CachedKey`: a record with its parsed private key and that key's public half. */
  datatype CachedKey = CachedKey(key: Key, priv: PrivateKey, pub: PublicKey)

  /** The two maps `ReloadCache` builds. */
  datatype Index = Index(cache: map<string, CachedKey>, active: map<Alg, CachedKey>)

  // ---------------------------------------------------------------------
  // Loading records (ReloadCache)

  /** One iteration of `ReloadCache`: decrypt the record, parse the PKCS#8 key, take its public half. */
  function LoadKey(p: Primitives, enc: Encryptor, k: Key): (r: Res<CachedKey>)
    ensures r.Ok? <==> Decrypt(enc, k.encryptedKey).Ok? && ParsePrivateKey(p, Decrypt(enc, k.encryptedKey).value).Ok?
    ensures r.Ok? ==> r.value.key == k && r.value.pub == p.public(r.value.priv) && SupportedKind(r.value.priv.kind)
    ensures Decrypt(enc, k.encryptedKey).Err? ==> r == Err(DecryptKey(k.kid, Decrypt(enc, k.encryptedKey).error))
    ensures Decrypt(enc, k.encryptedKey).Ok? && ParsePrivateKey(p, Decrypt(enc, k.encryptedKey).value).Err? ==>
      r == Err(ParseKey(k.kid, ParsePrivateKey(p, Decrypt(enc, k.encryptedKey).value).error))
  {
    match Decrypt(enc, k.encryptedKey)
    case Err(e) => Err(DecryptKey(k.kid, e))
    case Ok(der) =>
      match ParsePrivateKey(p, der)
      case Err(e) => Err(ParseKey(k.kid, e))
      case Ok(priv) => Ok(CachedKey(k, priv, p.public(priv)))
  }

  /**
   * The maps `ReloadCache` builds from the listed records, or the error of
   * the first record that fails to load.
   */
  function BuildIndex(p: Primitives, enc: Encryptor, keys: seq<Key>): Res<Index>
  {
    if keys == [] then Ok(Index(map[], map[]))
    else
      var k := keys[|keys| - 1];
      match BuildIndex(p, enc, keys[..|keys| - 1])
      case Err(e) => Err(e)
      case Ok(ix) =>
        match LoadKey(p, enc, k)
        case Err(e) => Err(e)
        case Ok(ck) => Ok(Index(ix.cache[k.kid := ck], if k.isActive then ix.active[k.alg := ck] else ix.active))
  }

  /** The step `ReloadCache`'s loop takes. */
  lemma BuildIndexStep(p: Primitives, enc: Encryptor, keys: seq<Key>, i: nat)
    requires i < |keys|
    ensures BuildIndex(p, enc, keys[..i + 1]) ==
      match BuildIndex(p, enc, keys[..i])
      case Err(e) => Err(e)
      case Ok(ix) =>
        match LoadKey(p, enc, keys[i])
        case Err(e) => Err(e)
        case Ok(ck) => Ok(Index(ix.cache[keys[i].kid := ck], if keys[i].isActive then ix.active[keys[i].alg := ck] else ix.active))
  {
    assert keys[..i + 1][..i] == keys[..i];
  }

  /** Once a prefix fails, the whole list fails with the same error. */
  lemma {:induction false} BuildIndexFailsEarly(p: Primitives, enc: Encryptor, keys: seq<Key>, i: nat)
    requires i <= |keys| && BuildIndex(p, enc, keys[..i]).Err?
    ensures BuildIndex(p, enc, keys) == BuildIndex(p, enc, keys[..i])
    decreases |keys| - i
  {
    if i == |keys| {
      assert keys[..i] == keys;
    } else {
      BuildIndexStep(p, enc, keys, i);
      BuildIndexFailsEarly(p, enc, keys, i + 1);
    }
  }

  /**
   * The index is built exactly when every record loads; otherwise the error
   * is that of the first record that does not.
   */
  lemma {:induction false} BuildIndexErrors(p: Primitives, enc: Encryptor, keys: seq<Key>)
    ensures BuildIndex(p, enc, keys).Ok? <==> forall i :: 0 <= i < |keys| ==> LoadKey(p, enc, keys[i]).Ok?
    ensures BuildIndex(p, enc, keys).Err? ==> exists i :: (0 <= i < |keys| &&
      LoadKey(p, enc, keys[i]) == Err(BuildIndex(p, enc, keys).error) &&
      forall j :: 0 <= j < i ==> LoadKey(p, enc, keys[j]).Ok?)
  {
    if keys != [] {
      var init := keys[..|keys| - 1];
      BuildIndexErrors(p, enc, init);
      assert forall i :: 0 <= i < |init| ==> init[i] == keys[i];
      if BuildIndex(p, enc, init).Err? {
        var i :| 0 <= i < |init| && LoadKey(p, enc, init[i]) == Err(BuildIndex(p, enc, init).error) &&
          forall j :: 0 <= j < i ==> LoadKey(p, enc, init[j]).Ok?;
        assert keys[i] == init[i];
      }
    }
  }

  /** The key ids of the listed records. */
  function KidSet(keys: seq<Key>): set<string>
  {
    set i | 0 <= i < |keys| :: keys[i].kid
  }

  /** Each cached entry is its own record, loaded, under its own id. */
  ghost predicate CacheLoaded(p: Primitives, enc: Encryptor, cache: map<string, CachedKey>)
  {
    forall kid :: kid in cache ==> cache[kid].key.kid == kid && LoadKey(p, enc, cache[kid].key) == Ok(cache[kid])
  }

  /** Each entry of `active` is an active record of that algorithm, and the same entry the cache holds for its id. */
  ghost predicate ActiveConsistent(ix: Index)
  {
    forall a :: a in ix.active ==>
      && ActiveFor(ix.active[a].key, a)
      && ix.active[a].key.kid in ix.cache
      && ix.cache[ix.active[a].key.kid] == ix.active[a]
  }

  ghost predicate Coherent(p: Primitives, enc: Encryptor, ix: Index)
  {
    CacheLoaded(p, enc, ix.cache) && ActiveConsistent(ix)
  }

  /**
   * For records with distinct ids (a store listing), the cache holds one
   * entry per record: the record itself, loaded.
   */
  lemma {:induction false} BuildIndexCache(p: Primitives, enc: Encryptor, keys: seq<Key>)
    requires DistinctKids(keys) && BuildIndex(p, enc, keys).Ok?
    ensures var ix := BuildIndex(p, enc, keys).value;
      && ix.cache.Keys == KidSet(keys)
      && (forall i :: 0 <= i < |keys| ==> LoadKey(p, enc, keys[i]) == Ok(ix.cache[keys[i].kid]))
  {
    if keys != [] {
      var init := keys[..|keys| - 1];
      var k := keys[|keys| - 1];
      BuildIndexLast(p, enc, keys);
      assert DistinctKids(init) by {
        forall i, j | 0 <= i < j < |init| ensures init[i].kid != init[j].kid {
          assert init[i] == keys[i] && init[j] == keys[j];
        }
      }
      BuildIndexCache(p, enc, init);
      var before := BuildIndex(p, enc, init).value.cache;
      var after := before[k.kid := LoadKey(p, enc, k).value];
      assert BuildIndex(p, enc, keys).value.cache == after;
      forall i | 0 <= i < |keys| ensures LoadKey(p, enc, keys[i]) == Ok(after[keys[i].kid]) {
        if i < |init| {
          assert keys[i] == init[i] && keys[i].kid != k.kid;
        }
      }
      KidSetLast(keys);
    }
  }

  /** A non-empty list builds by loading its last record into the index of the rest. */
  lemma BuildIndexLast(p: Primitives, enc: Encryptor, keys: seq<Key>)
    requires keys != [] && BuildIndex(p, enc, keys).Ok?
    ensures var k := keys[|keys| - 1];
      var before := BuildIndex(p, enc, keys[..|keys| - 1]);
      && before.Ok? && LoadKey(p, enc, k).Ok?
      && BuildIndex(p, enc, keys).value.cache == before.value.cache[k.kid := LoadKey(p, enc, k).value]
      && BuildIndex(p, enc, keys).value.active ==
           if k.isActive then before.value.active[k.alg := LoadKey(p, enc, k).value] else before.value.active
  {
  }

  /** The ids of a non-empty list are those of its first part and its last record's. */
  lemma KidSetLast(keys: seq<Key>)
    requires keys != []
    ensures KidSet(keys) == KidSet(keys[..|keys| - 1]) + {keys[|keys| - 1].kid}
  {
    var init := keys[..|keys| - 1];
    forall x | x in KidSet(init) ensures x in KidSet(keys) {
      var i :| 0 <= i < |init| && init[i].kid == x;
      assert keys[i].kid == x;
    }
  }

  /** The last record in the list that is active for `alg`, if any. */
  function LastActive(keys: seq<Key>, alg: Alg): Option<nat>
    ensures var r := LastActive(keys, alg);
      r.Some? ==> r.value < |keys| && ActiveFor(keys[r.value], alg) && forall j :: r.value < j < |keys| ==> !ActiveFor(keys[j], alg)
    ensures LastActive(keys, alg).None? ==> forall j :: 0 <= j < |keys| ==> !ActiveFor(keys[j], alg)
  {
    if keys == [] then None
    else if ActiveFor(keys[|keys| - 1], alg) then Some(|keys| - 1)
    else LastActive(keys[..|keys| - 1], alg)
  }

  /**
   * The active entry of an algorithm comes from the last active record of
   * that algorithm in list order; an algorithm without an active record has none.
   */
  lemma {:induction false} BuildIndexActive(p: Primitives, enc: Encryptor, keys: seq<Key>, alg: Alg)
    requires BuildIndex(p, enc, keys).Ok?
    ensures var ix := BuildIndex(p, enc, keys).value;
      match LastActive(keys, alg)
      case None => alg !in ix.active
      case Some(i) => alg in ix.active && LoadKey(p, enc, keys[i]) == Ok(ix.active[alg])
  {
    if keys != [] {
      var init := keys[..|keys| - 1];
      BuildIndexLast(p, enc, keys);
      BuildIndexActive(p, enc, init, alg);
      if !ActiveFor(keys[|keys| - 1], alg) && LastActive(init, alg).Some? {
        assert keys[LastActive(init, alg).value] == init[LastActive(init, alg).value];
      }
    }
  }

  /** A record that is the only active one of its algorithm is the active entry. */
  lemma OnlyActiveIsActive(p: Primitives, enc: Encryptor, keys: seq<Key>, i: nat)
    requires BuildIndex(p, enc, keys).Ok? && i < |keys| && keys[i].isActive
    requires forall j :: 0 <= j < |keys| && j != i ==> !ActiveFor(keys[j], keys[i].alg)
    ensures var ix := BuildIndex(p, enc, keys).value;
      keys[i].alg in ix.active && LoadKey(p, enc, keys[i]) == Ok(ix.active[keys[i].alg])
  {
    BuildIndexActive(p, enc, keys, keys[i].alg);
  }

  /** An index built from a store listing is coherent. */
  lemma BuildIndexCoherent(p: Primitives, enc: Encryptor, keys: seq<Key>)
    requires DistinctKids(keys) && BuildIndex(p, enc, keys).Ok?
    ensures Coherent(p, enc, BuildIndex(p, enc, keys).value)
  {
    var ix := BuildIndex(p, enc, keys).value;
    BuildIndexCache(p, enc, keys);
    forall kid | kid in ix.cache
      ensures ix.cache[kid].key.kid == kid && LoadKey(p, enc, ix.cache[kid].key) == Ok(ix.cache[kid])
    {
      var i :| 0 <= i < |keys| && keys[i].kid == kid;
    }
    forall a | a in ix.active
      ensures ActiveFor(ix.active[a].key, a) && ix.active[a].key.kid in ix.cache && ix.cache[ix.active[a].key.kid] == ix.active[a]
    {
      BuildIndexActive(p, enc, keys, a);
      var i := LastActive(keys, a).value;
      assert keys[i].kid in KidSet(keys);
    }
  }

  // ---------------------------------------------------------------------
  // Rotation (Rotate)

  /** The first record in the list that is active for `alg`, if any. */
  function FirstActive(keys: seq<Key>, alg: Alg): (r: Option<Key>)
    ensures r.Some? ==> exists i :: (0 <= i < |keys| && keys[i] == r.value && ActiveFor(keys[i], alg) &&
      forall j :: 0 <= j < i ==> !ActiveFor(keys[j], alg))
    ensures r.None? <==> forall j :: 0 <= j < |keys| ==> !ActiveFor(keys[j], alg)
  {
    if keys == [] then None
    else if ActiveFor(keys[0], alg) then Some(keys[0])
    else
      var r := FirstActive(keys[1..], alg);
      assert forall j :: 1 <= j < |keys| ==> keys[j] == keys[1..][j - 1];
      r
  }

  /** Skipping records that are not active for `alg` does not change the first active one. */
  lemma {:induction false} FirstActiveSkip(keys: seq<Key>, alg: Alg, i: nat)
    requires i <= |keys| && forall j :: 0 <= j < i ==> !ActiveFor(keys[j], alg)
    ensures FirstActive(keys, alg) == FirstActive(keys[i..], alg)
  {
    if i > 0 {
      assert keys[1..][i - 1..] == keys[i..];
      FirstActiveSkip(keys[1..], alg, i - 1);
    }
  }

  /** The copy of the old active record `Rotate` hands to the store: `IsActive` cleared. */
  function Retired(k: Option<Key>): (r: Option<Key>)
    ensures r.Some? <==> k.Some?
    ensures r.Some? ==> r.value == k.value.(isActive := false) && r.value.kid == k.value.kid
  {
    match k
    case None => None
    case Some(key) => Some(key.(isActive := false))
  }

  /** What `Rotate` draws from `rand.Reader`: key generation entropy, the nonce bytes, and the key id's bytes. */
  datatype Draw = Draw(entropy: seq<Byte>, nonce: seq<Byte>, kid: KidDraw)

  /**
   * The new record of `Rotate`: read the policy, generate, marshal and
   * encrypt a key, and stamp it active, created now, expiring after the TTL.
   */
  function NewRecord(p: Primitives, enc: Encryptor, policy: Res<RotationConfig>, alg: Alg, now: int, draw: Draw): (r: Res<Key>)
    ensures r.Ok? ==> && policy.Ok? && r.value.alg == alg && r.value.isActive
                      && r.value.createdAt == now && r.value.expiresAt == Some(now + policy.value.ttl)
                      && r.value.kid == GenerateKid(alg, draw.kid)
    ensures policy.Err? ==> r == Err(policy.error)
    ensures policy.Ok? && alg.Other? ==> r == Err(UnknownAlg(alg))
  {
    match policy
    case Err(e) => Err(e)
    case Ok(cfg) =>
      match GeneratePrivateKey(p, alg, draw.entropy)
      case Err(e) => Err(e)
      case Ok(priv) =>
        match Utils.MarshalPkcs8(p, priv)
        case Err(e) => Err(e)
        case Ok(der) =>
          match Encrypt(enc, draw.nonce, der)
          case Err(e) => Err(e)
          case Ok(ek) => Ok(Key(GenerateKid(alg, draw.kid), alg, true, now, Some(now + cfg.ttl), ek))
  }

  /**
   * With sound primitives and a reversible encryptor, a freshly made record
   * loads back to a private key of the algorithm's kind.
   */
  lemma NewRecordLoads(p: Primitives, enc: Encryptor, policy: Res<RotationConfig>, alg: Alg, now: int, draw: Draw)
    requires Sound(p) && Reversible(enc)
    requires NewRecord(p, enc, policy, alg, now, draw).Ok?
    ensures var k := NewRecord(p, enc, policy, alg, now, draw).value;
      && !alg.Other?
      && LoadKey(p, enc, k).Ok?
      && LoadKey(p, enc, k).value.priv == GeneratePrivateKey(p, alg, draw.entropy).value
      && LoadKey(p, enc, k).value.priv.kind == AlgKind(alg)
  {
    var priv := GeneratePrivateKey(p, alg, draw.entropy).value;
    var der := Utils.MarshalPkcs8(p, priv).value;
    if enc.AesGcm? {
      EncryptDecrypt(enc, draw.nonce, der);
    }
    ParseMarshalled(p, alg, draw.entropy);
  }

  /** Every stored record loads: it decrypts, and its PKCS#8 bytes parse. */
  ghost predicate AllLoad(p: Primitives, enc: Encryptor, data: map<string, Key>)
  {
    forall kid :: kid in data ==> LoadKey(p, enc, data[kid]).Ok?
  }

  /** A listing of the store rebuilds the index without error exactly when every stored record loads. */
  lemma ListingLoads(p: Primitives, enc: Encryptor, data: map<string, Key>, keys: seq<Key>)
    requires IsListing(data, keys)
    ensures BuildIndex(p, enc, keys).Ok? <==> AllLoad(p, enc, data)
  {
    BuildIndexErrors(p, enc, keys);
    if AllLoad(p, enc, data) {
      forall i | 0 <= i < |keys| ensures LoadKey(p, enc, keys[i]).Ok? {
        assert data[keys[i].kid] == keys[i];
      }
    }
    if BuildIndex(p, enc, keys).Ok? {
      forall kid | kid in data ensures LoadKey(p, enc, data[kid]).Ok? {
        var i :| 0 <= i < |keys| && keys[i].kid == kid;
        assert data[kid] == keys[i];
      }
    }
  }

  /**
   * A reload from a listing of the store passes exactly when every stored
   * record loads, and otherwise fails with the error of one that does not.
   */
  lemma ReloadOutcome(p: Primitives, enc: Encryptor, data: map<string, Key>, keys: seq<Key>, r: Status)
    requires IsListing(data, keys)
    requires BuildIndex(p, enc, keys).Ok? ==> r == Pass
    requires BuildIndex(p, enc, keys).Err? ==> r == Fail(BuildIndex(p, enc, keys).error)
    ensures r.Pass? <==> AllLoad(p, enc, data)
    ensures r.Fail? ==> exists kid :: kid in data && LoadKey(p, enc, data[kid]) == Err(r.error)
  {
    ListingLoads(p, enc, data, keys);
    if r.Fail? {
      BuildIndexErrors(p, enc, keys);
      var i :| 0 <= i < |keys| && LoadKey(p, enc, keys[i]) == Err(r.error);
      assert data[keys[i].kid] == keys[i];
    }
  }

  /**
   * A store rotation keeps every record loading when the new record loads:
   * the deactivated copy keeps the original's encrypted key.
   */
  lemma RotationLoads(p: Primitives, enc: Encryptor, data: map<string, Key>, newKey: Key, oldKey: Option<Key>)
    requires AllLoad(p, enc, data) && LoadKey(p, enc, newKey).Ok?
    ensures AllLoad(p, enc, RotatedData(data, newKey, oldKey))
  {
    var d := RotatedData(data, newKey, oldKey);
    forall kid | kid in d ensures LoadKey(p, enc, d[kid]).Ok? {
      if kid != newKey.kid {
        assert d[kid].encryptedKey == data[kid].encryptedKey;
        assert LoadKey(p, enc, data[kid]).Ok?;
      }
    }
  }

  /**
   * After the store rotates in a fresh active record and the cache is rebuilt
   * from it, the record is cached under its id and its algorithm has an
   * active entry; when the rotation left it the only active record of its
   * algorithm, it is that entry.
   */
  lemma RotatedIndex(p: Primitives, enc: Encryptor, data: map<string, Key>, newKey: Key, oldKey: Option<Key>, keys: seq<Key>)
    requires newKey.isActive
    requires IsListing(RotatedData(data, newKey, oldKey), keys)
    requires BuildIndex(p, enc, keys).Ok?
    ensures var ix := BuildIndex(p, enc, keys).value;
      && newKey.kid in ix.cache && ix.cache[newKey.kid].key == newKey
      && newKey.alg in ix.active
      && (RotationPre(data, newKey, oldKey) ==> ix.active[newKey.alg].key == newKey)
  {
    var d := RotatedData(data, newKey, oldKey);
    var i :| 0 <= i < |keys| && keys[i].kid == newKey.kid;
    assert keys[i] == newKey;
    BuildIndexCache(p, enc, keys);
    BuildIndexErrors(p, enc, keys);
    BuildIndexActive(p, enc, keys, newKey.alg);
    if RotationPre(data, newKey, oldKey) {
      OnlyNewActive(data, newKey, oldKey, keys, i);
      OnlyActiveIsActive(p, enc, keys, i);
    }
  }

  /** In a listing of the rotated store, no record but the new one is active for its algorithm. */
  lemma OnlyNewActive(data: map<string, Key>, newKey: Key, oldKey: Option<Key>, keys: seq<Key>, i: nat)
    requires RotationPre(data, newKey, oldKey)
    requires IsListing(RotatedData(data, newKey, oldKey), keys)
    requires i < |keys| && keys[i].kid == newKey.kid
    ensures forall j :: 0 <= j < |keys| && j != i ==> !ActiveFor(keys[j], newKey.alg)
  {
    var d := RotatedData(data, newKey, oldKey);
    RotationActivatesNew(data, newKey, oldKey);
    forall j | 0 <= j < |keys| && j != i ensures !ActiveFor(keys[j], newKey.alg) {
      assert keys[j].kid != newKey.kid;
      assert keys[j].kid !in ActiveKids(d, newKey.alg);
      assert d[keys[j].kid] == keys[j];
    }
  }

  /**
   * In a store with at most one active record for the algorithm, the record
   * `Rotate` finds first in a listing is the active one, so the store call
   * meets the rotation's precondition.
   */
  lemma FirstActiveOfListing(data: map<string, Key>, keys: seq<Key>, newKey: Key)
    requires KeyedById(data) && OneActiveFor(data, newKey.alg) && IsListing(data, keys)
    requires newKey.isActive && newKey.kid !in data
    ensures RotationPre(data, newKey, Retired(FirstActive(keys, newKey.alg)))
  {
    var alg := newKey.alg;
    var first := FirstActive(keys, alg);
    if first.None? {
      forall kid | kid in data ensures !ActiveFor(data[kid], alg) {
        var i :| 0 <= i < |keys| && keys[i].kid == kid;
        assert keys[i] == data[kid];
      }
    }
  }

  /**
   * A successful `Rotate`, end to end: the store rotated in the new record
   * with the first active record of its algorithm deactivated, and the cache
   * was rebuilt from it. The record is then cached and its algorithm has an
   * active entry; in a store that had at most one active record for that
   * algorithm and no record under the new id, the new record is the active
   * entry and the only active record of its algorithm, and a store with at
   * most one active record per algorithm keeps that.
   */
  lemma RotationOutcome(p: Primitives, enc: Encryptor, data: map<string, Key>, listed: seq<Key>, newKey: Key, reloaded: seq<Key>)
    requires KeyedById(data) && IsListing(data, listed) && newKey.isActive
    requires IsListing(RotatedData(data, newKey, Retired(FirstActive(listed, newKey.alg))), reloaded)
    requires BuildIndex(p, enc, reloaded).Ok?
    ensures var ix := BuildIndex(p, enc, reloaded).value;
      && newKey.kid in ix.cache && ix.cache[newKey.kid].key == newKey && newKey.alg in ix.active
      && (OneActiveFor(data, newKey.alg) && newKey.kid !in data ==>
            && ix.active[newKey.alg].key == newKey
            && ActiveKids(RotatedData(data, newKey, Retired(FirstActive(listed, newKey.alg))), newKey.alg) == {newKey.kid})
      && (AtMostOneActive(data) && newKey.kid !in data ==>
            AtMostOneActive(RotatedData(data, newKey, Retired(FirstActive(listed, newKey.alg)))))
  {
    var oldKey := Retired(FirstActive(listed, newKey.alg));
    RotatedIndex(p, enc, data, newKey, oldKey, reloaded);
    if OneActiveFor(data, newKey.alg) && newKey.kid !in data {
      FirstActiveOfListing(data, listed, newKey);
      RotatedIndex(p, enc, data, newKey, oldKey, reloaded);
      RotatedActiveKids(data, newKey, oldKey);
      if AtMostOneActive(data) {
        RotationKeepsOneActive(data, newKey, oldKey);
      }
    }
  }

  // ---------------------------------------------------------------------
  // Signing (Sign)

  /**
   * The signature `Sign` returns for a signing input: hashed with SHA-256 for
   * RS256 and ES256, signed natively, and for ES256 converted from DER to the
   * fixed-width r || s form of RFC 7518 section 3.4.
   */
  function SignWith(p: Primitives, alg: Alg, priv: PrivateKey, input: seq<Byte>): Res<seq<Byte>>
  {
    match SigningOptions(alg)
    case Err(e) => Err(e)
    case Ok(opts) =>
      var digest := if opts == Sha256 then p.sha256(input) else input;
      match NativeSign(p, priv, digest, opts)
      case Err(e) => Err(e)
      case Ok(sig) =>
        if alg != ES256 then Ok(sig)
        else
          match Der.DerToRaw(alg, sig)
          case Ok(raw) => Ok(raw)
          case Err(e) => Err(EcdsaConvert(e))
  }

  /**
   * What `Sign` produces, `Verify` accepts: with sound primitives, a
   * signature made with a key of the algorithm's kind verifies against that
   * key's public half.
   */
  lemma SignThenVerify(p: Primitives, alg: Alg, priv: PrivateKey, input: seq<Byte>)
    requires Sound(p) && !alg.Other? && priv.kind == AlgKind(alg)
    requires SignWith(p, alg, priv, input).Ok?
    ensures VerifySignature(p, alg, p.public(priv), input, SignWith(p, alg, priv, input).value) == Pass
  {
    assert PublicOfKind(p.public(priv), priv.kind);
    if alg == ES256 {
      SignThenVerifyEs256(p, priv, input);
    }
  }

  lemma SignThenVerifyEs256(p: Primitives, priv: PrivateKey, input: seq<Byte>)
    requires Sound(p) && priv.kind == AlgKind(ES256)
    requires SignWith(p, ES256, priv, input).Ok?
    ensures VerifySignature(p, ES256, p.public(priv), input, SignWith(p, ES256, priv, input).value) == Pass
  {
    var digest := p.sha256(input);
    assert SigningOptions(ES256) == Ok(Sha256);
    var signed := p.ecdsaSign(priv, digest);
    assert signed.Ok?;
    var r, s := signed.value.0, signed.value.1;
    assert NativeSign(p, priv, digest, Sha256) == Ok(Der.EncodeEcdsaSig(r, s));
    Der.DerToRawOfEncoded(ES256, r, s);
    var rb, sb := Der.ScalarBytes(r), Der.ScalarBytes(s);
    var raw := PadLeft(rb, Der.FieldSize) + PadLeft(sb, Der.FieldSize);
    assert SignWith(p, ES256, priv, input) == Ok(raw);
    var pub := p.public(priv);
    assert PublicOfKind(pub, priv.kind);
    assert p.ecdsaVerify(pub, digest, r, s);
    assert raw[..Der.FieldSize] == PadLeft(rb, Der.FieldSize);
    assert raw[Der.FieldSize..] == PadLeft(sb, Der.FieldSize);
    PadLeftValue(rb, Der.FieldSize);
    PadLeftValue(sb, Der.FieldSize);
    VerifyEs256Split(p, pub.x, pub.y, input, raw);
  }

  /** An ES256 signature is always 64 bytes: two 32-byte big-endian halves. */
  lemma Es256SignatureWidth(p: Primitives, priv: PrivateKey, input: seq<Byte>)
    requires SignWith(p, ES256, priv, input).Ok?
    ensures |SignWith(p, ES256, priv, input).value| == 2 * Der.FieldSize
  {
    var opts := SigningOptions(ES256).value;
    var sig := NativeSign(p, priv, p.sha256(input), opts).value;
    var r, s :| Der.ParseEcdsaSig(sig) == Some((r, s));
    Der.DerToRawLayout(ES256, sig, r, s);
  }

  /** Unsupported algorithms are refused before any signing. */
  lemma SignUnsupported(p: Primitives, alg: Alg, priv: PrivateKey, input: seq<Byte>)
    requires alg.Other?
    ensures SignWith(p, alg, priv, input) == Err(UnsupportedAlgorithm(alg))
  {
  }

  // ---------------------------------------------------------------------
  // JWKS

  /** The cache as `buildJWKS` receives it. */
  function SlotsOf(cache: map<string, CachedKey>): (m: map<string, CacheSlot>)
    ensures m.Keys == cache.Keys
  {
    map kid | kid in cache :: Slot(Some(cache[kid].key), cache[kid].pub)
  }

  /** With sound primitives every loaded entry has a public key of an exported kind. */
  lemma LoadedExportable(p: Primitives, enc: Encryptor, cache: map<string, CachedKey>)
    requires Sound(p) && CacheLoaded(p, enc, cache)
    ensures ExportableKids(SlotsOf(cache), cache.Keys) == cache.Keys
  {
    forall kid | kid in cache ensures Exportable(SlotsOf(cache)[kid]) {
      var ck := cache[kid];
      assert LoadKey(p, enc, ck.key) == Ok(ck);
      assert PublicOfKind(p.public(ck.priv), ck.priv.kind);
    }
  }

  // ---------------------------------------------------------------------
  // RotateExpired

  /** `ExpiresAt != nil && ExpiresAt.Before(now)`. */
  predicate Expired(k: Key, now: int)
  {
    k.expiresAt.Some? && k.expiresAt.value < now
  }

  /** The algorithms, in visiting order, whose snapshot entry has expired. */
  function Expiring(snapshot: map<Alg, CachedKey>, algs: seq<Alg>, now: int): seq<Alg>
    requires forall i :: 0 <= i < |algs| ==> algs[i] in snapshot
  {
    if algs == [] then []
    else
      var a := algs[|algs| - 1];
      Expiring(snapshot, algs[..|algs| - 1], now) + (if Expired(snapshot[a].key, now) then [a] else [])
  }

  /** Exactly the visited algorithms with an expired key are rotated. */
  lemma {:induction false} ExpiringMembers(snapshot: map<Alg, CachedKey>, algs: seq<Alg>, now: int)
    requires forall i :: 0 <= i < |algs| ==> algs[i] in snapshot
    ensures forall a :: a in Expiring(snapshot, algs, now) <==> a in Visited(algs) && Expired(snapshot[a].key, now)
  {
    if algs != [] {
      var init := algs[..|algs| - 1];
      ExpiringMembers(snapshot, init, now);
      assert Visited(algs) == Visited(init) + {algs[|algs| - 1]};
    }
  }

  /** The `rotate %s: %w` errors, in the order the rotations ran. */
  function RotationFailures(algs: seq<Alg>, results: seq<Status>): seq<Error>
    requires |algs| == |results|
  {
    if algs == [] then []
    else
      var n := |algs| - 1;
      RotationFailures(algs[..n], results[..n]) +
        (match results[n] case Fail(e) => [RotateAlg(algs[n], e)] case Pass => [])
  }

  /** One more visited algorithm extends the expiring ones by it exactly when its key expired. */
  lemma ExpiringSnoc(snapshot: map<Alg, CachedKey>, algs: seq<Alg>, a: Alg, now: int)
    requires forall i :: 0 <= i < |algs| ==> algs[i] in snapshot
    requires a in snapshot
    ensures forall i :: 0 <= i < |algs + [a]| ==> (algs + [a])[i] in snapshot
    ensures Expiring(snapshot, algs + [a], now) ==
      Expiring(snapshot, algs, now) + (if Expired(snapshot[a].key, now) then [a] else [])
  {
    assert (algs + [a])[..|algs|] == algs;
  }

  /** One more rotation extends the failures by its error, if it failed. */
  lemma FailuresSnoc(algs: seq<Alg>, results: seq<Status>, a: Alg, res: Status)
    requires |algs| == |results|
    ensures RotationFailures(algs + [a], results + [res]) ==
      RotationFailures(algs, results) + (match res case Fail(e) => [RotateAlg(a, e)] case Pass => [])
  {
    assert (algs + [a])[..|algs|] == algs;
    assert (results + [res])[..|results|] == results;
  }

  /** `RotateExpired`'s result: nil, or one `rotation errors` carrying every failure. */
  function Aggregate(algs: seq<Alg>, results: seq<Status>): Status
    requires |algs| == |results|
  {
    var errs := RotationFailures(algs, results);
    if errs == [] then Pass else Fail(RotationErrors(errs))
  }

  /** `RotateExpired` succeeds exactly when every rotation it attempted did. */
  lemma {:induction false} AggregatePass(algs: seq<Alg>, results: seq<Status>)
    requires |algs| == |results|
    ensures Aggregate(algs, results) == Pass <==> forall i :: 0 <= i < |results| ==> results[i] == Pass
    ensures |RotationFailures(algs, results)| <= |results|
  {
    if algs != [] {
      var n := |algs| - 1;
      AggregatePass(algs[..n], results[..n]);
      assert forall i :: 0 <= i < n ==> results[..n][i] == results[i];
    }
  }

  /**
   * The visit `RotateExpired` has made over `snapshot` with `remaining` still
   * to visit: the visited algorithms are the others, once each; the expired
   * ones among them were attempted in order, with one result and one draw
   * each; `errs` holds the failures.
   */
  ghost predicate ExpireTrace(snapshot: map<Alg, CachedKey>, now: int, remaining: set<Alg>, visited: seq<Alg>,
                              attempted: seq<Alg>, results: seq<Status>, errs: seq<Error>, n: nat)
  {
    && remaining <= snapshot.Keys
    && Distinct(visited) && Visited(visited) == snapshot.Keys - remaining
    && (forall i :: 0 <= i < |visited| ==> visited[i] in snapshot)
    && attempted == Expiring(snapshot, visited, now)
    && |results| == |attempted|
    && errs == RotationFailures(attempted, results)
    && n == |attempted|
  }

  /** Visiting `alg` next: it is attempted exactly when its key expired, and a failure adds "rotate <alg>". */
  lemma ExpireTraceSnoc(snapshot: map<Alg, CachedKey>, now: int, remaining: set<Alg>, visited: seq<Alg>,
                        attempted: seq<Alg>, results: seq<Status>, errs: seq<Error>, n: nat, alg: Alg, res: Status)
    requires alg in remaining && ExpireTrace(snapshot, now, remaining, visited, attempted, results, errs, n)
    ensures var expired := Expired(snapshot[alg].key, now);
      ExpireTrace(snapshot, now, remaining - {alg}, visited + [alg],
                  if expired then attempted + [alg] else attempted,
                  if expired then results + [res] else results,
                  if expired && res.Fail? then errs + [RotateAlg(alg, res.error)] else errs,
                  if expired then n + 1 else n)
  {
    SnocVisit(visited, alg);
    ExpiringSnoc(snapshot, visited, alg, now);
    FailuresSnoc(attempted, results, alg, res);
  }

  // ---------------------------------------------------------------------
  // InitKeys

  /** The active index names exactly the algorithms that have an active record in the store. */
  ghost predicate TracksStore(data: map<string, Key>, active: map<Alg, CachedKey>)
  {
    forall a :: a in active <==> HasActive(data, a)
  }

  /** An index built from a store listing tracks that store. */
  lemma ListingTracks(p: Primitives, enc: Encryptor, data: map<string, Key>, keys: seq<Key>)
    requires IsListing(data, keys) && BuildIndex(p, enc, keys).Ok?
    ensures TracksStore(data, BuildIndex(p, enc, keys).value.active)
  {
    var ix := BuildIndex(p, enc, keys).value;
    forall a ensures a in ix.active <==> HasActive(data, a) {
      BuildIndexActive(p, enc, keys, a);
      if LastActive(keys, a).Some? {
        var i := LastActive(keys, a).value;
        assert keys[i].kid in data && data[keys[i].kid] == keys[i];
      }
    }
  }

  /**
   * The effect of one successful `Rotate` on the store, as `InitKeys` needs
   * it: one id more, and, when that id is fresh, every other algorithm has an
   * active record exactly when it had one before.
   */
  lemma RotationStoreEffect(data: map<string, Key>, keys: seq<Key>, newKey: Key)
    requires KeyedById(data) && IsListing(data, keys)
    ensures var d := RotatedData(data, newKey, Retired(FirstActive(keys, newKey.alg)));
      && d.Keys == data.Keys + {newKey.kid}
      && (newKey.kid !in data ==> forall a :: a != newKey.alg ==> (HasActive(d, a) <==> HasActive(data, a)))
  {
    var oldKey := Retired(FirstActive(keys, newKey.alg));
    if newKey.kid !in data {
      if oldKey.Some? {
        var i :| 0 <= i < |keys| && keys[i] == FirstActive(keys, newKey.alg).value && ActiveFor(keys[i], newKey.alg);
        assert data[keys[i].kid] == keys[i];
      }
      forall a | a != newKey.alg ensures HasActive(RotatedData(data, newKey, oldKey), a) <==> HasActive(data, a) {
        RotationOthersActive(data, newKey, oldKey, a);
      }
    }
  }

  /** The key id `Rotate` would give `alg` on its `m`-th random draw. */
  function DrawnKid(draws: nat -> Draw, m: nat, alg: Alg): string
  {
    GenerateKid(alg, draws(m).kid)
  }

  /** No key id drawn from the `from`-th draw on is already stored. */
  ghost predicate FreshDraws(draws: nat -> Draw, from: nat, data: map<string, Key>)
  {
    forall m: nat, a: Alg :: from <= m ==> DrawnKid(draws, m, a) !in data
  }

  /** Distinct draws give distinct key ids. */
  ghost predicate DistinctDraws(draws: nat -> Draw)
  {
    forall m1: nat, m2: nat, a1: Alg, a2: Alg :: m1 != m2 ==> DrawnKid(draws, m1, a1) != DrawnKid(draws, m2, a2)
  }

  /**
   * One rotation in a store the index tracks, under a fresh drawn id: the
   * active index gains exactly the rotated algorithm, and the later draws
   * stay fresh.
   */
  lemma TrackedRotation(data: map<string, Key>, data2: map<string, Key>, active: map<Alg, CachedKey>,
                        active2: map<Alg, CachedKey>, alg: Alg, draws: nat -> Draw, n: nat)
    requires TracksStore(data, active) && TracksStore(data2, active2) && alg in active2
    requires FreshDraws(draws, n, data) && DistinctDraws(draws)
    requires data2.Keys == data.Keys + {DrawnKid(draws, n, alg)}
    requires forall a :: a != alg ==> (HasActive(data2, a) <==> HasActive(data, a))
    ensures forall a :: a in active2 <==> a in active || a == alg
    ensures FreshDraws(draws, n + 1, data2)
  {
    forall m: nat, a: Alg | n + 1 <= m ensures DrawnKid(draws, m, a) !in data2 {
      assert DrawnKid(draws, m, a) != DrawnKid(draws, n, alg);
    }
  }

  /**
   * The algorithms `InitKeys` rotates in its first `i` turns, in list order:
   * each of `algs[..i]` that neither had an active entry nor was rotated
   * earlier in the list.
   */
  function ToRotate(algs: seq<Alg>, present: set<Alg>, i: nat): (r: seq<Alg>)
    requires i <= |algs|
    ensures |r| <= i
  {
    if i == 0 then []
    else
      var init := ToRotate(algs, present, i - 1);
      var a := algs[i - 1];
      if a in present || a in init then init else init + [a]
  }

  /**
   * `ToRotate` picks each algorithm of the first `i` turns that had no active
   * entry, and none twice.
   */
  lemma {:induction false} ToRotateMembers(algs: seq<Alg>, present: set<Alg>, i: nat)
    requires i <= |algs|
    ensures forall a :: a in ToRotate(algs, present, i) <==> a in algs[..i] && a !in present
    ensures Distinct(ToRotate(algs, present, i))
    decreases i
  {
    if i > 0 {
      ToRotateMembers(algs, present, i - 1);
      assert algs[..i] == algs[..i - 1] + [algs[i - 1]];
    }
  }

  /** Fewer turns rotate a prefix of what more turns rotate. */
  lemma {:induction false} ToRotatePrefix(algs: seq<Alg>, present: set<Alg>, i: nat, j: nat)
    requires i <= j <= |algs|
    ensures ToRotate(algs, present, i) <= ToRotate(algs, present, j)
    decreases j
  {
    if i < j {
      ToRotatePrefix(algs, present, i, j - 1);
    }
  }

  /**
   * What `InitKeys` keeps true, turn by turn, for a manager whose index
   * tracks its store and whose draws give fresh, distinct ids: after `i`
   * turns the index still tracks the store, the remaining draws are fresh,
   * the rotations so far are those `ToRotate` picks, and the active entries
   * are the initial ones plus the rotated algorithms.
   */
  ghost predicate InitTracked(data: map<string, Key>, active: map<Alg, CachedKey>, draws: nat -> Draw, n: nat,
                              rotated: seq<Alg>, algs: seq<Alg>, i: nat, present: set<Alg>)
  {
    && TracksStore(data, active) && FreshDraws(draws, n, data) && DistinctDraws(draws)
    && i <= |algs| && rotated == ToRotate(algs, present, i)
    && (forall a :: a in active <==> a in present || a in rotated)
  }

  /** A failed `InitKeys` names the last algorithm it tried to rotate. */
  predicate FailsOnLast(r: Status, rotated: seq<Alg>)
  {
    r.Fail? ==> |rotated| > 0 && r.error.InitKey? && r.error.alg == rotated[|rotated| - 1]
  }

  /** An algorithm with an active entry is skipped. */
  lemma InitSkip(data: map<string, Key>, active: map<Alg, CachedKey>, draws: nat -> Draw, n: nat,
                 rotated: seq<Alg>, algs: seq<Alg>, i: nat, present: set<Alg>)
    requires i < |algs| && algs[i] in active
    requires InitTracked(data, active, draws, n, rotated, algs, i, present)
    ensures InitTracked(data, active, draws, n, rotated, algs, i + 1, present)
  {
  }

  /** An algorithm without one is rotated in, and is the next one `ToRotate` picks. */
  lemma InitRotate(data: map<string, Key>, data2: map<string, Key>, active: map<Alg, CachedKey>,
                   active2: map<Alg, CachedKey>, draws: nat -> Draw, n: nat,
                   rotated: seq<Alg>, algs: seq<Alg>, i: nat, present: set<Alg>)
    requires i < |algs| && algs[i] !in active
    requires InitTracked(data, active, draws, n, rotated, algs, i, present)
    requires TracksStore(data2, active2) && algs[i] in active2
    requires data2.Keys == data.Keys + {DrawnKid(draws, n, algs[i])}
    requires forall a :: a != algs[i] ==> (HasActive(data2, a) <==> HasActive(data, a))
    ensures InitTracked(data2, active2, draws, n + 1, rotated + [algs[i]], algs, i + 1, present)
  {
    TrackedRotation(data, data2, active, active2, algs[i], draws, n);
  }

  /** A failed rotation ends the run with a prefix of what `ToRotate` picks. */
  lemma InitFail(data: map<string, Key>, active: map<Alg, CachedKey>, draws: nat -> Draw, n: nat,
                 rotated: seq<Alg>, algs: seq<Alg>, i: nat, present: set<Alg>)
    requires i < |algs| && algs[i] !in active
    requires InitTracked(data, active, draws, n, rotated, algs, i, present)
    ensures rotated + [algs[i]] <= ToRotate(algs, present, |algs|)
  {
    ToRotatePrefix(algs, present, i + 1, |algs|);
  }

  /** Once the whole list is processed, every listed algorithm has an active entry. */
  lemma InitDone(data: map<string, Key>, active: map<Alg, CachedKey>, draws: nat -> Draw, n: nat,
                 rotated: seq<Alg>, algs: seq<Alg>, present: set<Alg>)
    requires InitTracked(data, active, draws, n, rotated, algs, |algs|, present)
    ensures forall i :: 0 <= i < |algs| ==> algs[i] in active
  {
    ToRotateMembers(algs, present, |algs|);
    assert algs[..|algs|] == algs;
  }

  /**
   * The early errors `early` of the rotations `rotated` that `InitKeys` made,
   * ending in status `r`: every rotation but a failed last one got past its
   * early errors, and when `loads` a failure is the last one's early error.
   */
  ghost predicate EarlyAccount(early: seq<Option<Error>>, loads: bool, rotated: seq<Alg>, r: Status)
  {
    && |early| == |rotated|
    && (forall i :: 0 <= i < |rotated| && (r.Pass? || i < |rotated| - 1) ==> early[i].None?)
    && (loads && r.Fail? ==>
          |rotated| > 0 && early[|rotated| - 1].Some? &&
          r == Fail(InitKey(rotated[|rotated| - 1], early[|rotated| - 1].value)))
  }

  /**
   * One more rotation of `alg` with early error `e` and result `res`, where
   * an early error is the result and, when `loads`, a rotation past the
   * early errors passes, keeps the account.
   */
  lemma EarlyAccountSnoc(early: seq<Option<Error>>, loads: bool, rotated: seq<Alg>, alg: Alg, e: Option<Error>, res: Status)
    requires EarlyAccount(early, loads, rotated, Pass)
    requires e.Some? ==> res == Fail(e.value)
    requires loads && e.None? ==> res == Pass
    ensures EarlyAccount(early + [e], loads, rotated + [alg], if res.Fail? then Fail(InitKey(alg, res.error)) else Pass)
  {
    var early', rotated' := early + [e], rotated + [alg];
    forall i | 0 <= i < |rotated| ensures early'[i] == early[i] {
    }
    assert early'[|rotated|] == e && rotated'[|rotated|] == alg;
  }

  // ---------------------------------------------------------------------
  // The manager

  class KeyManager {
    const store: MockStore
    const encryptor: Encryptor
    /** The rotation policy's answer (the policy takes no input). */
    const policy: Res<RotationConfig>
    const prims: Primitives
    var cache: map<string, CachedKey>
    var active: map<Alg, CachedKey>

    ghost predicate Valid()
      reads this, store
    {
      store.Valid() && Coherent(prims, encryptor, Index(cache, active))
    }

    /** The manager `NewKeyManager` allocates, before its first reload: empty maps. */
    constructor (store: MockStore, encryptor: Encryptor, policy: Res<RotationConfig>, prims: Primitives)
      requires store.Valid()
      ensures Valid()
      ensures this.store == store && this.encryptor == encryptor && this.policy == policy && this.prims == prims
      ensures cache == map[] && active == map[]
    {
      this.store := store;
      this.encryptor := encryptor;
      this.policy := policy;
      this.prims := prims;
      cache := map[];
      active := map[];
    }

    /**
     * `ReloadCache`: list the store and load every record; on success both
     * maps are replaced by the rebuilt index, on the first failing record
     * nothing changes.
     */
    method ReloadCache() returns (r: Status, ghost listed: seq<Key>)
      requires Valid()
      modifies this
      ensures Valid()
      ensures IsListing(store.data, listed)
      ensures BuildIndex(prims, encryptor, listed).Ok? ==>
        r == Pass && Index(cache, active) == BuildIndex(prims, encryptor, listed).value
      ensures BuildIndex(prims, encryptor, listed).Err? ==>
        r == Fail(BuildIndex(prims, encryptor, listed).error) && cache == old(cache) && active == old(active)
    {
      var keys := store.List();
      listed := keys;
      var newCache: map<string, CachedKey> := map[];
      var newActive: map<Alg, CachedKey> := map[];
      var i := 0;
      while i < |keys|
        invariant 0 <= i <= |keys|
        invariant BuildIndex(prims, encryptor, keys[..i]) == Ok(Index(newCache, newActive))
        invariant cache == old(cache) && active == old(active)
      {
        var k := keys[i];
        BuildIndexStep(prims, encryptor, keys, i);
        var privBytes := Decrypt(encryptor, k.encryptedKey);
        if privBytes.Err? {
          BuildIndexFailsEarly(prims, encryptor, keys, i + 1);
          r := Fail(DecryptKey(k.kid, privBytes.error));
          return;
        }
        var priv := ParsePrivateKey(prims, privBytes.value);
        if priv.Err? {
          BuildIndexFailsEarly(prims, encryptor, keys, i + 1);
          r := Fail(ParseKey(k.kid, priv.error));
          return;
        }
        var ck := CachedKey(k, priv.value, prims.public(priv.value));
        newCache := newCache[k.kid := ck];
        if k.isActive {
          newActive := newActive[k.alg := ck];
        }
        i := i + 1;
      }
      assert keys[..|keys|] == keys;
      BuildIndexCoherent(prims, encryptor, keys);
      cache := newCache;
      active := newActive;
      r := Pass;
    }

    /**
     * What a `ReloadCache` over the listing `listed` leaves, from the maps
     * `c0` and `a0`: the index of the listing when every record loads, and
     * the old maps otherwise.
     */
    ghost predicate ReloadedFrom(listed: seq<Key>, c0: map<string, CachedKey>, a0: map<Alg, CachedKey>)
      reads this, store
    {
      && IsListing(store.data, listed)
      && (BuildIndex(prims, encryptor, listed).Ok? ==> Index(cache, active) == BuildIndex(prims, encryptor, listed).value)
      && (BuildIndex(prims, encryptor, listed).Err? ==> cache == c0 && active == a0)
    }

    /**
     * `activeKey`: the active entry for `alg`; on a miss the cache is
     * reloaded once (its error ignored) from the listing `listed` and looked
     * up again.
     */
    method ActiveKey(alg: Alg) returns (ck: Option<CachedKey>, ghost listed: seq<Key>)
      requires Valid()
      modifies this
      ensures Valid()
      ensures old(alg in active) ==> ck == Some(old(active)[alg]) && cache == old(cache) && active == old(active)
      ensures !old(alg in active) ==> ReloadedFrom(listed, old(cache), old(active))
      ensures ck.Some? <==> alg in active
      ensures ck.Some? ==> ck.value == active[alg] && ActiveFor(ck.value.key, alg) && LoadKey(prims, encryptor, ck.value.key) == Ok(ck.value)
    {
      listed := [];
      if alg in active {
        return Some(active[alg]), listed;
      }
      var reload;
      reload, listed := ReloadCache();
      ck := if alg in active then Some(active[alg]) else None;
    }

    /** `keyByKID`: the cached entry for `kid`, reloading once on a miss, from the listing `listed`. */
    method KeyByKid(kid: string) returns (ck: Option<CachedKey>, ghost listed: seq<Key>)
      requires Valid()
      modifies this
      ensures Valid()
      ensures old(kid in cache) ==> ck == Some(old(cache)[kid]) && cache == old(cache) && active == old(active)
      ensures !old(kid in cache) ==> ReloadedFrom(listed, old(cache), old(active))
      ensures ck.Some? <==> kid in cache
      ensures ck.Some? ==> ck.value == cache[kid] && ck.value.key.kid == kid && LoadKey(prims, encryptor, ck.value.key) == Ok(ck.value)
    {
      listed := [];
      if kid in cache {
        return Some(cache[kid]), listed;
      }
      var reload;
      reload, listed := ReloadCache();
      ck := if kid in cache then Some(cache[kid]) else None;
    }

    /**
     * `Sign`: the active key for `alg` signs what `build` makes of its key id;
     * `used` is that entry, and `listed` the listing a miss reloaded from.
     */
    method Sign(alg: Alg, build: string -> Res<seq<Byte>>)
      returns (r: Res<seq<Byte>>, ghost used: Option<CachedKey>, ghost listed: seq<Key>)
      requires Valid()
      modifies this
      ensures Valid()
      ensures old(alg in active) ==> used == Some(old(active)[alg]) && cache == old(cache) && active == old(active)
      ensures !old(alg in active) ==> ReloadedFrom(listed, old(cache), old(active))
      ensures used.None? ==> r == Err(NoActiveKey(alg)) && alg !in active
      ensures used.Some? ==>
        && alg in active && used.value == active[alg] && ActiveFor(used.value.key, alg)
        && r == (match build(used.value.key.kid)
                 case Err(e) => Err(e)
                 case Ok(input) => SignWith(prims, alg, used.value.priv, input))
    {
      var ck;
      ck, listed := ActiveKey(alg);
      used := ck;
      if ck.None? {
        r := Err(NoActiveKey(alg));
        return;
      }
      var signingInput := build(ck.value.key.kid);
      if signingInput.Err? {
        r := Err(signingInput.error);
        return;
      }
      var opts := SigningOptions(alg);
      if opts.Err? {
        r := Err(opts.error);
        return;
      }
      var digest := if opts.value == Sha256 then prims.sha256(signingInput.value) else signingInput.value;
      var sig := NativeSign(prims, ck.value.priv, digest, opts.value);
      if sig.Err? {
        r := Err(sig.error);
        return;
      }
      if alg != ES256 {
        r := Ok(sig.value);
        return;
      }
      var rawSig := Der.DERToRawECDSA(alg, sig.value);
      if rawSig.Err? {
        r := Err(EcdsaConvert(rawSig.error));
        return;
      }
      r := Ok(rawSig.value);
    }

    /**
     * `Verify`: check `sig` over `payload` with the key named `kid`; `used` is
     * its entry, and `listed` the listing a miss reloaded from.
     */
    method Verify(kid: string, payload: seq<Byte>, sig: seq<Byte>)
      returns (r: Status, ghost used: Option<CachedKey>, ghost listed: seq<Key>)
      requires Valid()
      modifies this
      ensures Valid()
      ensures old(kid in cache) ==> used == Some(old(cache)[kid]) && cache == old(cache) && active == old(active)
      ensures !old(kid in cache) ==> ReloadedFrom(listed, old(cache), old(active))
      ensures used.None? ==> r == Fail(KeyNotFound(kid)) && kid !in cache
      ensures used.Some? ==>
        && kid in cache && used.value == cache[kid] && used.value.key.kid == kid
        && r == VerifySignature(prims, used.value.key.alg, used.value.pub, payload, sig)
    {
      var ck;
      ck, listed := KeyByKid(kid);
      used := ck;
      if ck.None? {
        r := Fail(KeyNotFound(kid));
        return;
      }
      r := VerifySignature(prims, ck.value.key.alg, ck.value.pub, payload, sig);
    }

    /**
     * `JWKS` before JSON encoding: one entry per cached key of an exported
     * kind, in the map's order; with sound primitives that is every cached key.
     */
    method Jwks() returns (out: Utils.Jwks, ghost order: seq<string>)
      requires Valid()
      ensures Distinct(order) && Visited(order) == cache.Keys
      ensures forall i :: 0 <= i < |order| ==> order[i] in SlotsOf(cache)
      ensures out.keys == EmitAll(SlotsOf(cache), order)
      ensures forall j :: j in out.keys <==> exists kid :: kid in cache && JwkOf(SlotsOf(cache)[kid]) == Some(j)
      ensures Sound(prims) ==> |out.keys| == |cache|
    {
      out, order := BuildJwks(SlotsOf(cache));
      EmitAllMembers(SlotsOf(cache), order);
      if Sound(prims) {
        EmitAllCount(SlotsOf(cache), order);
        LoadedExportable(prims, encryptor, cache);
      }
    }

    /**
     * Sound primitives, a reversible encryptor and a store whose every record
     * loads: then a record `Rotate` makes loads too, and so does the reload.
     */
    ghost predicate Reloadable(data: map<string, Key>)
    {
      Sound(prims) && Reversible(encryptor) && AllLoad(prims, encryptor, data)
    }

    /**
     * `Rotate`: make a new active record for `alg`, hand it to the store with
     * a deactivated copy of the first active record of `alg` it lists, and
     * reload the cache.
     */
    method Rotate(alg: Alg, now: int, draw: Draw) returns (r: Status, ghost listed: seq<Key>, ghost reloaded: seq<Key>)
      requires Valid()
      modifies this, store
      ensures Valid()
      ensures store.rotateErr == old(store.rotateErr)
      ensures NewRecord(prims, encryptor, policy, alg, now, draw).Err? ==>
        && r == Fail(NewRecord(prims, encryptor, policy, alg, now, draw).error)
        && store.data == old(store.data) && store.rotateCount == old(store.rotateCount)
        && cache == old(cache) && active == old(active)
      ensures NewRecord(prims, encryptor, policy, alg, now, draw).Ok? && old(store.rotateErr).Some? ==>
        && r == Fail(old(store.rotateErr).value)
        && store.data == old(store.data) && store.rotateCount == old(store.rotateCount)
        && cache == old(cache) && active == old(active)
      ensures NewRecord(prims, encryptor, policy, alg, now, draw).Ok? && old(store.rotateErr).None? ==>
        var newKey := NewRecord(prims, encryptor, policy, alg, now, draw).value;
        && IsListing(old(store.data), listed)
        && store.data == RotatedData(old(store.data), newKey, Retired(FirstActive(listed, alg)))
        && store.rotateCount == old(store.rotateCount) + 1
        && IsListing(store.data, reloaded)
        && (BuildIndex(prims, encryptor, reloaded).Ok? ==>
              r == Pass && Index(cache, active) == BuildIndex(prims, encryptor, reloaded).value)
        && (BuildIndex(prims, encryptor, reloaded).Err? ==>
              r == Fail(BuildIndex(prims, encryptor, reloaded).error) && cache == old(cache) && active == old(active))
      ensures (NewRecord(prims, encryptor, policy, alg, now, draw).Ok? && old(store.rotateErr).None? &&
               Reloadable(old(store.data))) ==> r == Pass && Reloadable(store.data)
      ensures r.Pass? ==>
        var newKey := NewRecord(prims, encryptor, policy, alg, now, draw).value;
        && NewRecord(prims, encryptor, policy, alg, now, draw).Ok?
        && newKey.kid in cache && cache[newKey.kid].key == newKey && alg in active
        && (OneActiveFor(old(store.data), alg) && newKey.kid !in old(store.data) ==>
              active[alg].key == newKey && ActiveKids(store.data, alg) == {newKey.kid})
        && (AtMostOneActive(old(store.data)) && newKey.kid !in old(store.data) ==> AtMostOneActive(store.data))
    {
      listed, reloaded := [], [];
      if policy.Err? {
        r := Fail(policy.error);
        return;
      }
      var keys := store.List();
      listed := keys;

      var oldKey := FindActive(keys, alg);
      var newKey := NewRecord(prims, encryptor, policy, alg, now, draw);
      if newKey.Err? {
        r := Fail(newKey.error);
        return;
      }
      var stored := store.Rotate(newKey.value, oldKey);
      if stored.Fail? {
        r := stored;
        return;
      }
      r, reloaded := ReloadCache();
      if Reloadable(old(store.data)) {
        NewRecordLoads(prims, encryptor, policy, alg, now, draw);
        RotationLoads(prims, encryptor, old(store.data), newKey.value, oldKey);
        ListingLoads(prims, encryptor, store.data, reloaded);
      }
      if r.Pass? {
        RotationOutcome(prims, encryptor, old(store.data), listed, newKey.value, reloaded);
      }
    }

    /**
     * The error `Rotate` returns before it reaches the store, when the store
     * holds the injected error `rotateErr`: the policy's or the new record's
     * error first, then the injected one; none when the store rotates.
     */
    ghost function EarlyFailure(alg: Alg, now: int, draw: Draw, rotateErr: Option<Error>): Option<Error>
    {
      match NewRecord(prims, encryptor, policy, alg, now, draw)
      case Err(e) => Some(e)
      case Ok(_) => rotateErr
    }

    /**
     * `Rotate` as the loops of `RotateExpired` and `InitKeys` call it, seen
     * through the consequences they rely on: an early error changes nothing;
     * otherwise the store counts one rotation and holds the new record under
     * the drawn id, and the reload passes exactly when every stored record
     * loads, failing otherwise with the error of one that does not. On
     * success the index tracks the store.
     */
    method RotateStep(alg: Alg, now: int, draw: Draw) returns (r: Status)
      requires Valid()
      modifies this, store
      ensures Valid()
      ensures store.rotateErr == old(store.rotateErr)
      ensures EarlyFailure(alg, now, draw, old(store.rotateErr)).Some? ==>
        && r == Fail(EarlyFailure(alg, now, draw, old(store.rotateErr)).value)
        && store.data == old(store.data) && store.rotateCount == old(store.rotateCount)
        && cache == old(cache) && active == old(active)
      ensures EarlyFailure(alg, now, draw, old(store.rotateErr)).None? ==>
        && store.rotateCount == old(store.rotateCount) + 1
        && store.data.Keys == old(store.data).Keys + {GenerateKid(alg, draw.kid)}
        && store.data[GenerateKid(alg, draw.kid)] == NewRecord(prims, encryptor, policy, alg, now, draw).value
        && (r.Pass? <==> AllLoad(prims, encryptor, store.data))
        && (r.Fail? ==> exists kid :: kid in store.data && LoadKey(prims, encryptor, store.data[kid]) == Err(r.error))
      ensures EarlyFailure(alg, now, draw, old(store.rotateErr)).None? && Reloadable(old(store.data)) ==> r == Pass
      ensures Reloadable(old(store.data)) ==> Reloadable(store.data)
      ensures r.Pass? ==> alg in active && TracksStore(store.data, active)
      ensures r.Pass? && GenerateKid(alg, draw.kid) !in old(store.data) ==>
        forall a :: a != alg ==> (HasActive(store.data, a) <==> HasActive(old(store.data), a))
    {
      ghost var listed, reloaded;
      r, listed, reloaded := Rotate(alg, now, draw);
      if EarlyFailure(alg, now, draw, old(store.rotateErr)).None? {
        ReloadOutcome(prims, encryptor, store.data, reloaded, r);
      }
      if r.Pass? {
        var newKey := NewRecord(prims, encryptor, policy, alg, now, draw).value;
        ListingTracks(prims, encryptor, store.data, reloaded);
        RotationStoreEffect(old(store.data), listed, newKey);
      }
    }

    /** The loop of `Rotate` that finds the first active record of `alg` and clones it deactivated. */
    method FindActive(keys: seq<Key>, alg: Alg) returns (oldKey: Option<Key>)
      ensures oldKey == Retired(FirstActive(keys, alg))
    {
      oldKey := None;
      var i := 0;
      while i < |keys|
        invariant 0 <= i <= |keys|
        invariant forall j :: 0 <= j < i ==> !ActiveFor(keys[j], alg)
        invariant oldKey == None
      {
        if keys[i].alg == alg && keys[i].isActive {
          FirstActiveSkip(keys, alg, i);
          oldKey := Some(keys[i].(isActive := false));
          break;
        }
        i := i + 1;
      }
      if i == |keys| {
        assert oldKey == Retired(FirstActive(keys, alg));
      }
    }

    /** How many of the rotations of `algs`, the i-th with `draws(i)`, reach the store. */
    ghost function StoreCalls(algs: seq<Alg>, now: int, draws: nat -> Draw, rotateErr: Option<Error>): nat
    {
      if algs == [] then 0
      else
        var n := |algs| - 1;
        StoreCalls(algs[..n], now, draws, rotateErr) + (if EarlyFailure(algs[n], now, draws(n), rotateErr).None? then 1 else 0)
    }

    /** With an injected store error no rotation reaches the store. */
    lemma {:induction false} InjectedStoreCalls(algs: seq<Alg>, now: int, draws: nat -> Draw, rotateErr: Option<Error>)
      requires rotateErr.Some?
      ensures StoreCalls(algs, now, draws, rotateErr) == 0
    {
      if algs != [] {
        InjectedStoreCalls(algs[..|algs| - 1], now, draws, rotateErr);
      }
    }

    /**
     * What one rotation of `alg` with `draw` is known to have done, given its
     * result `res` and the store contents `data` after it and later ones: an
     * early error is its result, a success left its record's id stored, and
     * when `loads` (the store was `Reloadable`) a rotation past the early
     * errors passed.
     */
    ghost predicate Attempted(alg: Alg, now: int, draw: Draw, rotateErr: Option<Error>, loads: bool, res: Status,
                              data: map<string, Key>)
    {
      && (EarlyFailure(alg, now, draw, rotateErr).Some? ==> res == Fail(EarlyFailure(alg, now, draw, rotateErr).value))
      && (loads && EarlyFailure(alg, now, draw, rotateErr).None? ==> res == Pass)
      && (res.Pass? ==> GenerateKid(alg, draw.kid) in data)
    }

    /** One more rotation reaches the store exactly when it has no early error. */
    lemma StoreCallsSnoc(attempted: seq<Alg>, alg: Alg, now: int, draws: nat -> Draw, rotateErr: Option<Error>)
      ensures StoreCalls(attempted + [alg], now, draws, rotateErr) ==
        StoreCalls(attempted, now, draws, rotateErr) + (if EarlyFailure(alg, now, draws(|attempted|), rotateErr).None? then 1 else 0)
    {
      assert (attempted + [alg])[..|attempted|] == attempted;
    }

    /** One more rotation: the earlier ones stay accounted for in a store that only grew. */
    lemma AttemptsSnoc(attempted: seq<Alg>, results: seq<Status>, alg: Alg, res: Status, now: int, draws: nat -> Draw,
                       rotateErr: Option<Error>, loads: bool, d1: map<string, Key>, d2: map<string, Key>)
      requires |results| == |attempted| && d1.Keys <= d2.Keys
      requires forall i :: 0 <= i < |attempted| ==> Attempted(attempted[i], now, draws(i), rotateErr, loads, results[i], d1)
      requires Attempted(alg, now, draws(|attempted|), rotateErr, loads, res, d2)
      ensures forall i :: 0 <= i < |attempted| + 1 ==>
        Attempted((attempted + [alg])[i], now, draws(i), rotateErr, loads, (results + [res])[i], d2)
    {
      forall i | 0 <= i < |attempted| + 1
        ensures Attempted((attempted + [alg])[i], now, draws(i), rotateErr, loads, (results + [res])[i], d2)
      {
        if i < |attempted| {
          assert (attempted + [alg])[i] == attempted[i] && (results + [res])[i] == results[i];
          assert Attempted(attempted[i], now, draws(i), rotateErr, loads, results[i], d1);
        }
      }
    }

    /**
     * The store and index after the rotations `attempted` with `results`, from
     * the store contents `d0`, count `rc0` and injected error `e0` and the
     * maps `c0` and `a0`: each rotation is accounted for, the store only
     * grew and stays `Reloadable` if it was, and an injected error changed
     * nothing.
     */
    ghost predicate ExpireAccount(now: int, draws: nat -> Draw, c0: map<string, CachedKey>, a0: map<Alg, CachedKey>,
                                  d0: map<string, Key>, rc0: int, e0: Option<Error>, attempted: seq<Alg>, results: seq<Status>,
                                  data: map<string, Key>, count: int, err: Option<Error>,
                                  cache: map<string, CachedKey>, active: map<Alg, CachedKey>)
    {
      && |results| == |attempted|
      && err == e0
      && d0.Keys <= data.Keys
      && count == rc0 + StoreCalls(attempted, now, draws, e0)
      && (Reloadable(d0) ==> Reloadable(data))
      && (forall i :: 0 <= i < |attempted| ==> Attempted(attempted[i], now, draws(i), e0, Reloadable(d0), results[i], data))
      && (e0.Some? ==> data == d0 && cache == c0 && active == a0)
    }

    /** One more rotation, with what `RotateStep` ensures of it, keeps the account. */
    lemma ExpireAccountSnoc(now: int, draws: nat -> Draw, c0: map<string, CachedKey>, a0: map<Alg, CachedKey>,
                            d0: map<string, Key>, rc0: int, e0: Option<Error>, attempted: seq<Alg>, results: seq<Status>,
                            alg: Alg, res: Status,
                            data: map<string, Key>, count: int, cache: map<string, CachedKey>, active: map<Alg, CachedKey>,
                            data2: map<string, Key>, count2: int, err2: Option<Error>,
                            cache2: map<string, CachedKey>, active2: map<Alg, CachedKey>)
      requires ExpireAccount(now, draws, c0, a0, d0, rc0, e0, attempted, results, data, count, e0, cache, active)
      requires err2 == e0
      requires EarlyFailure(alg, now, draws(|attempted|), e0).Some? ==>
        && res == Fail(EarlyFailure(alg, now, draws(|attempted|), e0).value)
        && data2 == data && count2 == count && cache2 == cache && active2 == active
      requires EarlyFailure(alg, now, draws(|attempted|), e0).None? ==>
        count2 == count + 1 && data2.Keys == data.Keys + {GenerateKid(alg, draws(|attempted|).kid)}
      requires EarlyFailure(alg, now, draws(|attempted|), e0).None? && Reloadable(data) ==> res == Pass
      requires Reloadable(data) ==> Reloadable(data2)
      ensures ExpireAccount(now, draws, c0, a0, d0, rc0, e0, attempted + [alg], results + [res],
                            data2, count2, err2, cache2, active2)
    {
      StoreCallsSnoc(attempted, alg, now, draws, e0);
      AttemptsSnoc(attempted, results, alg, res, now, draws, e0, Reloadable(d0), data, data2);
    }

    /**
     * With an injected store error, every rotation `RotateExpired` attempts
     * fails before the store, so it returns nil exactly when nothing had
     * expired, and the store counts no rotation.
     */
    lemma InjectedExpiry(now: int, draws: nat -> Draw, rotateErr: Option<Error>, loads: bool, attempted: seq<Alg>,
                         results: seq<Status>, data: map<string, Key>)
      requires rotateErr.Some? && |results| == |attempted|
      requires forall i :: 0 <= i < |attempted| ==> Attempted(attempted[i], now, draws(i), rotateErr, loads, results[i], data)
      ensures Aggregate(attempted, results) == Pass <==> attempted == []
      ensures StoreCalls(attempted, now, draws, rotateErr) == 0
    {
      InjectedStoreCalls(attempted, now, draws, rotateErr);
      AggregatePass(attempted, results);
      if attempted != [] {
        assert EarlyFailure(attempted[0], now, draws(0), rotateErr).Some?;
        assert results[0].Fail?;
      }
    }

    /**
     * From a `Reloadable` store, `RotateExpired` returns nil exactly when no
     * rotation it attempts fails before the store.
     */
    lemma CleanExpiry(now: int, draws: nat -> Draw, rotateErr: Option<Error>, attempted: seq<Alg>,
                      results: seq<Status>, data: map<string, Key>)
      requires |results| == |attempted|
      requires forall i :: 0 <= i < |attempted| ==> Attempted(attempted[i], now, draws(i), rotateErr, true, results[i], data)
      ensures Aggregate(attempted, results) == Pass <==>
        forall i :: 0 <= i < |attempted| ==> EarlyFailure(attempted[i], now, draws(i), rotateErr).None?
    {
      AggregatePass(attempted, results);
      if Aggregate(attempted, results) == Pass {
        forall i | 0 <= i < |attempted| ensures EarlyFailure(attempted[i], now, draws(i), rotateErr).None? {
          assert Attempted(attempted[i], now, draws(i), rotateErr, true, results[i], data);
        }
      }
    }

    /**
     * `RotateExpired`: over a snapshot of the active map, rotate each
     * algorithm whose key expired before `now`; the i-th rotation draws
     * `draws(i)`. All failures are collected.
     */
    method RotateExpired(now: int, draws: nat -> Draw)
      returns (r: Status, ghost visited: seq<Alg>, ghost attempted: seq<Alg>, ghost results: seq<Status>)
      requires Valid()
      modifies this, store
      ensures Valid()
      ensures Distinct(visited) && Visited(visited) == old(active).Keys
      ensures forall i :: 0 <= i < |visited| ==> visited[i] in old(active)
      ensures attempted == Expiring(old(active), visited, now)
      ensures |results| == |attempted|
      ensures r == Aggregate(attempted, results)
      ensures forall i :: 0 <= i < |attempted| ==>
        Attempted(attempted[i], now, draws(i), old(store.rotateErr), Reloadable(old(store.data)), results[i], store.data)
      ensures Reloadable(old(store.data)) ==> Reloadable(store.data)
      ensures store.rotateErr == old(store.rotateErr)
      ensures store.rotateCount == old(store.rotateCount) + StoreCalls(attempted, now, draws, old(store.rotateErr))
      ensures old(store.rotateErr).Some? ==>
        store.data == old(store.data) && cache == old(cache) && active == old(active)
    {
      var snapshot := active;
      ghost var c0, d0, rc0, e0 := cache, store.data, store.rotateCount, store.rotateErr;
      visited, attempted, results := [], [], [];
      var errs: seq<Error> := [];
      var n := 0;
      var remaining := snapshot.Keys;
      while remaining != {}
        invariant ExpireLoop(snapshot, now, draws, c0, d0, rc0, e0, remaining, visited, attempted, results, errs, n)
        decreases remaining
      {
        var alg :| alg in remaining;
        visited, attempted, results, errs, n :=
          ExpireTurn(snapshot, now, draws, c0, d0, rc0, e0, alg, remaining, visited, attempted, results, errs, n);
        remaining := remaining - {alg};
      }
      r := if |errs| > 0 then Fail(RotationErrors(errs)) else Pass;
    }

    /**
     * What holds in `RotateExpired` over the snapshot with `remaining` still
     * to visit, from the cache `c0`, the store contents `d0`, count `rc0` and
     * injected error `e0`: the visit so far (`ExpireTrace`), with each
     * rotation accounted for in the store. An injected error changes nothing.
     */
    ghost predicate ExpireLoop(snapshot: map<Alg, CachedKey>, now: int, draws: nat -> Draw, c0: map<string, CachedKey>,
                               d0: map<string, Key>, rc0: int, e0: Option<Error>, remaining: set<Alg>, visited: seq<Alg>,
                               attempted: seq<Alg>, results: seq<Status>, errs: seq<Error>, n: nat)
      reads this, store
    {
      && Valid()
      && ExpireTrace(snapshot, now, remaining, visited, attempted, results, errs, n)
      && ExpireAccount(now, draws, c0, snapshot, d0, rc0, e0, attempted, results,
                       store.data, store.rotateCount, store.rotateErr, cache, active)
    }

    /** One turn of `RotateExpired`: visit `alg`, and rotate it with the `n`-th draw if its key expired. */
    method ExpireTurn(snapshot: map<Alg, CachedKey>, now: int, draws: nat -> Draw, ghost c0: map<string, CachedKey>,
                      ghost d0: map<string, Key>, ghost rc0: int, ghost e0: Option<Error>, alg: Alg,
                      ghost remaining: set<Alg>, ghost visited: seq<Alg>, ghost attempted: seq<Alg>,
                      ghost results: seq<Status>, errs: seq<Error>, n: nat)
      returns (ghost visited': seq<Alg>, ghost attempted': seq<Alg>, ghost results': seq<Status>,
               errs': seq<Error>, n': nat)
      requires alg in remaining
      requires ExpireLoop(snapshot, now, draws, c0, d0, rc0, e0, remaining, visited, attempted, results, errs, n)
      modifies this, store
      ensures ExpireLoop(snapshot, now, draws, c0, d0, rc0, e0, remaining - {alg}, visited', attempted', results', errs', n')
      ensures visited' == visited + [alg]
    {
      visited', attempted', results', errs', n' := visited + [alg], attempted, results, errs, n;
      var ck := snapshot[alg];
      if ck.key.expiresAt.Some? && ck.key.expiresAt.value < now {
        ghost var data, count, cache0, active0 := store.data, store.rotateCount, cache, active;
        var res := RotateStep(alg, now, draws(n));
        ExpireAccountSnoc(now, draws, c0, snapshot, d0, rc0, e0, attempted, results, alg, res,
                          data, count, cache0, active0, store.data, store.rotateCount, store.rotateErr, cache, active);
        ExpireTraceSnoc(snapshot, now, remaining, visited, attempted, results, errs, n, alg, res);
        n' := n + 1;
        attempted' := attempted + [alg];
        results' := results + [res];
        if res.Fail? {
          errs' := errs + [RotateAlg(alg, res.error)];
        }
      } else {
        ExpireTraceSnoc(snapshot, now, remaining, visited, attempted, results, errs, n, alg, Pass);
      }
    }

    /**
     * `InitKeys`: for each algorithm without an active key, rotate one in;
     * stop at the first failure. `rotated` holds the algorithms it rotated
     * (or tried to), in order.
     */
    method InitKeys(algs: seq<Alg>, now: int, draws: nat -> Draw) returns (r: Status, ghost rotated: seq<Alg>)
      requires Valid()
      modifies this, store
      ensures Valid()
      ensures InitOutcome(algs, now, draws, rotated, r, old(cache), old(active), old(store.data), old(store.rotateCount),
                          old(store.rotateErr), store.data, store.rotateCount, store.rotateErr, cache, active)
    {
      rotated := [];
      ghost var c0, a0, d0, rc0, e0 := cache, active, store.data, store.rotateCount, store.rotateErr;
      ghost var tracked := TracksStore(store.data, active) && FreshDraws(draws, 0, store.data) && DistinctDraws(draws);
      assert tracked ==> InitTracked(store.data, active, draws, 0, rotated, algs, 0, a0.Keys);
      var i, n := 0, 0;
      r := Pass;
      while i < |algs| && r.Pass?
        invariant InitLoop(algs, i, now, n, rotated, r, draws, tracked, c0, a0, d0, rc0, e0)
        decreases |algs| - i
      {
        r, n, rotated := InitTurn(algs, i, now, draws, n, rotated, tracked, c0, a0, d0, rc0, e0);
        i := i + 1;
      }
      InitExit(algs, i, now, n, rotated, r, draws, tracked, c0, a0, d0, rc0, e0,
               store.data, store.rotateCount, store.rotateErr, cache, active);
    }

    /**
     * What `InitKeys` achieves over `algs`, the i-th rotation drawing
     * `draws(i)`, from the maps `c0` and `a0`, the store contents `d0`,
     * count `rc0` and injected error `e0`, to the store contents `data`,
     * count `count` and error `err` and the maps `cache` and `active`, with
     * status `r`, having rotated `rotated` in order:
     * - only listed algorithms are rotated, and a failure names the last one;
     * - the injected error is kept, and the counter rises once per rotation
     *   (a failed last one perhaps excepted); an injected error fails the
     *   first rotation and changes nothing;
     * - the early errors are as `InitAccount` states, and from a
     *   `Reloadable` store the run succeeds exactly when no rotation fails
     *   before the store, keeping it `Reloadable`;
     * - from an index that tracks the store and fresh, distinct draws, the
     *   rotated algorithms are a prefix of `ToRotate`, all of it on success,
     *   when every listed algorithm has an active entry that tracks the store;
     * - when every listed algorithm already had an active entry, nothing
     *   changes.
     */
    ghost predicate InitOutcome(algs: seq<Alg>, now: int, draws: nat -> Draw, rotated: seq<Alg>, r: Status,
                                c0: map<string, CachedKey>, a0: map<Alg, CachedKey>, d0: map<string, Key>, rc0: int,
                                e0: Option<Error>, data: map<string, Key>, count: int, err: Option<Error>,
                                cache: map<string, CachedKey>, active: map<Alg, CachedKey>)
    {
      && (forall a :: a in rotated ==> a in algs)
      && FailsOnLast(r, rotated)
      && err == e0
      && (r.Pass? ==> count == rc0 + |rotated|)
      && (r.Fail? ==> rc0 + |rotated| - 1 <= count <= rc0 + |rotated|)
      && (e0.Some? ==> (r.Pass? <==> rotated == []) && count == rc0 && data == d0)
      && InitAccount(now, draws, e0, Reloadable(d0), rotated, r)
      && (Reloadable(d0) ==>
            && Reloadable(data)
            && (r.Pass? <==> forall i :: 0 <= i < |rotated| ==> EarlyFailure(rotated[i], now, draws(i), e0).None?))
      && (TracksStore(d0, a0) && FreshDraws(draws, 0, d0) && DistinctDraws(draws) ==>
            && rotated <= ToRotate(algs, a0.Keys, |algs|)
            && (r.Pass? ==>
                  && rotated == ToRotate(algs, a0.Keys, |algs|)
                  && (forall i :: 0 <= i < |algs| ==> algs[i] in active)
                  && TracksStore(data, active)))
      && ((forall i :: 0 <= i < |algs| ==> algs[i] in a0) ==>
            && r == Pass && rotated == []
            && cache == c0 && active == a0 && data == d0 && count == rc0)
    }

    /** The loop of `InitKeys`, once it has run through `algs` or failed, has achieved `InitOutcome`. */
    lemma InitExit(algs: seq<Alg>, i: nat, now: int, n: nat, rotated: seq<Alg>, r: Status, draws: nat -> Draw,
                   tracked: bool, c0: map<string, CachedKey>, a0: map<Alg, CachedKey>,
                   d0: map<string, Key>, rc0: int, e0: Option<Error>,
                   data: map<string, Key>, count: int, err: Option<Error>,
                   cache: map<string, CachedKey>, active: map<Alg, CachedKey>)
      requires InitState(algs, i, now, n, rotated, r, draws, tracked, c0, a0, d0, rc0, e0, data, count, err, cache, active)
      requires i == |algs| || r.Fail?
      requires tracked == (TracksStore(d0, a0) && FreshDraws(draws, 0, d0) && DistinctDraws(draws))
      ensures InitOutcome(algs, now, draws, rotated, r, c0, a0, d0, rc0, e0, data, count, err, cache, active)
    {
      if tracked && r.Pass? {
        InitDone(data, active, draws, n, rotated, algs, a0.Keys);
      }
      InitAccountOf(now, draws, e0, Reloadable(d0), rotated, r);
    }

    /** The early errors of the rotations of `algs`, the i-th with `draws(i)`. */
    ghost function EarlyErrors(algs: seq<Alg>, now: int, draws: nat -> Draw, rotateErr: Option<Error>): (es: seq<Option<Error>>)
      ensures |es| == |algs|
    {
      if algs == [] then []
      else
        var n := |algs| - 1;
        EarlyErrors(algs[..n], now, draws, rotateErr) + [EarlyFailure(algs[n], now, draws(n), rotateErr)]
    }

    /** One more rotation appends its early error. */
    lemma EarlyErrorsSnoc(algs: seq<Alg>, alg: Alg, now: int, draws: nat -> Draw, rotateErr: Option<Error>)
      ensures EarlyErrors(algs + [alg], now, draws, rotateErr) ==
        EarlyErrors(algs, now, draws, rotateErr) + [EarlyFailure(alg, now, draws(|algs|), rotateErr)]
    {
      assert (algs + [alg])[..|algs|] == algs;
    }

    /** The i-th early error is that of the i-th rotation. */
    lemma {:induction false} EarlyErrorsAt(algs: seq<Alg>, now: int, draws: nat -> Draw, rotateErr: Option<Error>, i: nat)
      requires i < |algs|
      ensures EarlyErrors(algs, now, draws, rotateErr)[i] == EarlyFailure(algs[i], now, draws(i), rotateErr)
    {
      var n := |algs| - 1;
      if i < n {
        EarlyErrorsAt(algs[..n], now, draws, rotateErr, i);
      }
    }

    /**
     * What `InitKeys` ensures of the early errors of its rotations `rotated`,
     * the i-th with `draws(i)`, ending in status `r`: every rotation but a
     * failed last one got past its early errors, and when `loads` (the
     * store was `Reloadable`) a failure is the last rotation's early error.
     */
    ghost predicate InitAccount(now: int, draws: nat -> Draw, rotateErr: Option<Error>, loads: bool,
                                rotated: seq<Alg>, r: Status)
    {
      && (forall i :: 0 <= i < |rotated| && (r.Pass? || i < |rotated| - 1) ==>
            EarlyFailure(rotated[i], now, draws(i), rotateErr).None?)
      && (loads && r.Fail? ==>
            && |rotated| > 0
            && EarlyFailure(rotated[|rotated| - 1], now, draws(|rotated| - 1), rotateErr).Some?
            && r == Fail(InitKey(rotated[|rotated| - 1],
                                 EarlyFailure(rotated[|rotated| - 1], now, draws(|rotated| - 1), rotateErr).value)))
    }

    /**
     * The account over `EarlyErrors` gives `InitAccount`; from a
     * `Reloadable` store `InitKeys` (which stops at its first failure)
     * then succeeds exactly when none of its rotations fails before the
     * store.
     */
    lemma InitAccountOf(now: int, draws: nat -> Draw, rotateErr: Option<Error>, loads: bool, rotated: seq<Alg>, r: Status)
      requires EarlyAccount(EarlyErrors(rotated, now, draws, rotateErr), loads, rotated, r)
      ensures InitAccount(now, draws, rotateErr, loads, rotated, r)
      ensures loads ==>
        (r.Pass? <==> forall i :: 0 <= i < |rotated| ==> EarlyFailure(rotated[i], now, draws(i), rotateErr).None?)
    {
      var early := EarlyErrors(rotated, now, draws, rotateErr);
      forall i | 0 <= i < |rotated| ensures early[i] == EarlyFailure(rotated[i], now, draws(i), rotateErr) {
        EarlyErrorsAt(rotated, now, draws, rotateErr, i);
      }
    }

    /**
     * The store after the rotations `rotated` of `InitKeys` ending in status
     * `r`, from the contents `d0`, count `rc0` and injected error `e0`: one
     * count per rotation but a failed last one perhaps, nothing changed
     * under an injected error, the early errors as `EarlyAccount` states
     * them, and a `Reloadable` store stays so.
     */
    ghost predicate InitCounts(now: int, draws: nat -> Draw, d0: map<string, Key>, rc0: int, e0: Option<Error>,
                               rotated: seq<Alg>, r: Status, data: map<string, Key>, count: int, err: Option<Error>)
    {
      && err == e0
      && (r.Pass? ==> count == rc0 + |rotated|)
      && (r.Fail? ==> rc0 + |rotated| - 1 <= count <= rc0 + |rotated|)
      && (e0.Some? ==> (r.Pass? <==> rotated == []) && count == rc0 && data == d0)
      && EarlyAccount(EarlyErrors(rotated, now, draws, e0), Reloadable(d0), rotated, r)
      && (Reloadable(d0) ==> Reloadable(data))
    }

    /** One more rotation of `InitKeys`, with what `RotateStep` ensures of it, keeps `InitCounts`. */
    lemma InitCountsSnoc(now: int, draws: nat -> Draw, d0: map<string, Key>, rc0: int, e0: Option<Error>,
                         rotated: seq<Alg>, alg: Alg, res: Status, data: map<string, Key>, count: int,
                         data2: map<string, Key>, count2: int, err2: Option<Error>)
      requires InitCounts(now, draws, d0, rc0, e0, rotated, Pass, data, count, e0)
      requires err2 == e0
      requires EarlyFailure(alg, now, draws(|rotated|), e0).Some? ==>
        res == Fail(EarlyFailure(alg, now, draws(|rotated|), e0).value) && data2 == data && count2 == count
      requires EarlyFailure(alg, now, draws(|rotated|), e0).None? ==> count2 == count + 1
      requires EarlyFailure(alg, now, draws(|rotated|), e0).None? && Reloadable(data) ==> res == Pass
      requires Reloadable(data) ==> Reloadable(data2)
      ensures InitCounts(now, draws, d0, rc0, e0, rotated + [alg],
                         if res.Fail? then Fail(InitKey(alg, res.error)) else Pass, data2, count2, err2)
    {
      EarlyErrorsSnoc(rotated, alg, now, draws, e0);
      EarlyAccountSnoc(EarlyErrors(rotated, now, draws, e0), Reloadable(d0), rotated, alg,
                       EarlyFailure(alg, now, draws(|rotated|), e0), res);
    }

    /**
     * What holds after `i` turns of `InitKeys`, for a run that started from
     * the cache `c0`, the active index `a0`, and the store contents `d0`,
     * count `rc0` and injected error `e0`, of the store contents `data`,
     * count `count`, injected error `err` and the maps `cache` and `active`:
     * `n` draws used, one per algorithm in `rotated`, the store as
     * `InitCounts` states, a failure naming the last of them, and, when
     * `tracked` says the start met the hypotheses of `InitTracked`, the
     * turn-by-turn facts it states. Until something is rotated nothing has
     * changed.
     */
    ghost predicate InitState(algs: seq<Alg>, i: nat, now: int, n: nat, rotated: seq<Alg>, r: Status, draws: nat -> Draw,
                              tracked: bool, c0: map<string, CachedKey>, a0: map<Alg, CachedKey>,
                              d0: map<string, Key>, rc0: int, e0: Option<Error>,
                              data: map<string, Key>, count: int, err: Option<Error>,
                              cache: map<string, CachedKey>, active: map<Alg, CachedKey>)
    {
      && i <= |algs| && n == |rotated|
      && InitCounts(now, draws, d0, rc0, e0, rotated, r, data, count, err)
      && (forall a :: a in rotated ==> a in algs)
      && FailsOnLast(r, rotated)
      && (tracked && r.Pass? ==> InitTracked(data, active, draws, n, rotated, algs, i, a0.Keys))
      && (tracked && r.Fail? ==> rotated <= ToRotate(algs, a0.Keys, |algs|))
      && (rotated == [] ==> r == Pass && cache == c0 && active == a0 && data == d0 && count == rc0)
      && ((forall j :: 0 <= j < |algs| ==> algs[j] in a0) ==> rotated == [])
    }

    /** `InitState` of the manager and its store. */
    ghost predicate InitLoop(algs: seq<Alg>, i: nat, now: int, n: nat, rotated: seq<Alg>, r: Status, draws: nat -> Draw,
                             tracked: bool, c0: map<string, CachedKey>, a0: map<Alg, CachedKey>,
                             d0: map<string, Key>, rc0: int, e0: Option<Error>)
      reads this, store
    {
      && Valid()
      && InitState(algs, i, now, n, rotated, r, draws, tracked, c0, a0, d0, rc0, e0,
                   store.data, store.rotateCount, store.rotateErr, cache, active)
    }

    /**
     * A rotation of `algs[i]`, an algorithm without an active entry, with the
     * `n`-th draw and what `RotateStep` ensures of its result `res`, keeps
     * `InitState` from the store and maps before it to those after it.
     */
    lemma InitStateRotate(algs: seq<Alg>, i: nat, now: int, n: nat, rotated: seq<Alg>, draws: nat -> Draw,
                          tracked: bool, c0: map<string, CachedKey>, a0: map<Alg, CachedKey>,
                          d0: map<string, Key>, rc0: int, e0: Option<Error>,
                          data: map<string, Key>, count: int, cache: map<string, CachedKey>, active: map<Alg, CachedKey>,
                          res: Status, data2: map<string, Key>, count2: int, err2: Option<Error>,
                          cache2: map<string, CachedKey>, active2: map<Alg, CachedKey>)
      requires i < |algs| && algs[i] !in active
      requires InitState(algs, i, now, n, rotated, Pass, draws, tracked, c0, a0, d0, rc0, e0, data, count, e0, cache, active)
      requires err2 == e0
      requires EarlyFailure(algs[i], now, draws(n), e0).Some? ==>
        res == Fail(EarlyFailure(algs[i], now, draws(n), e0).value) && data2 == data && count2 == count
      requires EarlyFailure(algs[i], now, draws(n), e0).None? ==>
        count2 == count + 1 && data2.Keys == data.Keys + {GenerateKid(algs[i], draws(n).kid)}
      requires EarlyFailure(algs[i], now, draws(n), e0).None? && Reloadable(data) ==> res == Pass
      requires Reloadable(data) ==> Reloadable(data2)
      requires res.Pass? ==> algs[i] in active2 && TracksStore(data2, active2)
      requires res.Pass? && GenerateKid(algs[i], draws(n).kid) !in data ==>
        forall a :: a != algs[i] ==> (HasActive(data2, a) <==> HasActive(data, a))
      ensures InitState(algs, i + 1, now, n + 1, rotated + [algs[i]],
                        if res.Fail? then Fail(InitKey(algs[i], res.error)) else Pass,
                        draws, tracked, c0, a0, d0, rc0, e0, data2, count2, err2, cache2, active2)
    {
      InitCountsSnoc(now, draws, d0, rc0, e0, rotated, algs[i], res, data, count, data2, count2, err2);
      if tracked {
        assert DrawnKid(draws, n, algs[i]) !in data;
        if res.Fail? {
          InitFail(data, active, draws, n, rotated, algs, i, a0.Keys);
        } else {
          InitRotate(data, data2, active, active2, draws, n, rotated, algs, i, a0.Keys);
        }
      }
    }

    /**
     * One turn of `InitKeys`: rotate `algs[i]` with the `n`-th draw if it has
     * no active entry, and return the status, the draw count and the
     * algorithms rotated so far.
     */
    method InitTurn(algs: seq<Alg>, i: nat, now: int, draws: nat -> Draw, n: nat, ghost rotated: seq<Alg>,
                    ghost tracked: bool, ghost c0: map<string, CachedKey>, ghost a0: map<Alg, CachedKey>,
                    ghost d0: map<string, Key>, ghost rc0: int, ghost e0: Option<Error>)
      returns (r: Status, n': nat, ghost rotated': seq<Alg>)
      requires i < |algs| && InitLoop(algs, i, now, n, rotated, Pass, draws, tracked, c0, a0, d0, rc0, e0)
      modifies this, store
      ensures InitLoop(algs, i + 1, now, n', rotated', r, draws, tracked, c0, a0, d0, rc0, e0)
      ensures rotated' == if old(algs[i] in active) then rotated else rotated + [algs[i]]
    {
      var alg := algs[i];
      if alg in active {
        r, n', rotated' := Pass, n, rotated;
        if tracked {
          InitSkip(store.data, active, draws, n, rotated, algs, i, a0.Keys);
        }
        return;
      }
      r := InitRotateTurn(algs, i, now, draws, n, rotated, tracked, c0, a0, d0, rc0, e0);
      n', rotated' := n + 1, rotated + [alg];
    }

    /**
     * The rotating turn of `InitKeys`: rotate `algs[i]`, which has no active
     * entry, with the `n`-th draw; a failure is tagged with the algorithm.
     */
    method InitRotateTurn(algs: seq<Alg>, i: nat, now: int, draws: nat -> Draw, n: nat, ghost rotated: seq<Alg>,
                          ghost tracked: bool, ghost c0: map<string, CachedKey>, ghost a0: map<Alg, CachedKey>,
                          ghost d0: map<string, Key>, ghost rc0: int, ghost e0: Option<Error>)
      returns (r: Status)
      requires i < |algs| && algs[i] !in active
      requires InitLoop(algs, i, now, n, rotated, Pass, draws, tracked, c0, a0, d0, rc0, e0)
      modifies this, store
      ensures InitLoop(algs, i + 1, now, n + 1, rotated + [algs[i]], r, draws, tracked, c0, a0, d0, rc0, e0)
    {
      ghost var data, count, cache0, active0 := store.data, store.rotateCount, cache, active;
      var res := RotateStep(algs[i], now, draws(n));
      InitStateRotate(algs, i, now, n, rotated, draws, tracked, c0, a0, d0, rc0, e0, data, count, cache0, active0,
                      res, store.data, store.rotateCount, store.rotateErr, cache, active);
      r := if res.Fail? then Fail(InitKey(algs[i], res.error)) else Pass;
    }
  }

  /**
   * `NewKeyManager`: a manager over the store, encryptor and policy, with its
   * cache loaded; a failing first reload is returned instead.
   */
  method NewKeyManager(store: MockStore, enc: Encryptor, policy: Res<RotationConfig>, prims: Primitives)
    returns (r: Result<KeyManager, Error>, ghost listed: seq<Key>)
    requires store.Valid()
    ensures IsListing(store.data, listed)
    ensures r.Ok? <==> BuildIndex(prims, enc, listed).Ok?
    ensures r.Ok? ==>
      && fresh(r.value) && r.value.Valid()
      && r.value.store == store && r.value.encryptor == enc && r.value.policy == policy && r.value.prims == prims
      && Index(r.value.cache, r.value.active) == BuildIndex(prims, enc, listed).value
    ensures r.Ok? ==> TracksStore(store.data, r.value.active)
    ensures r.Err? ==> r.error == BuildIndex(prims, enc, listed).error
  {
    var km := new KeyManager(store, enc, policy, prims);
    var res;
    res, listed := km.ReloadCache();
    if res.Fail? {
      r := Err(res.error);
      return;
    }
    ListingTracks(prims, enc, store.data, listed);
    r := Ok(km);
  }
}
