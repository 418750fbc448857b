/**
 * The declarations of types.go: algorithm identifiers, key records, encrypted
 * key blobs, the rotation configuration, and the error values every operation
 * of the key manager can return.
 */
module Types {
  import opened Wrappers

  /** A Go `byte`. */
  type Byte = b: int | 0 <= b < 256

  /** The algorithm identifier as written: three named values or any other string. */
  datatype AlgId = RS256 | ES256 | EdDSA | Other(name: string)

  const KnownAlgNames: set<string> := {"RS256", "ES256", "EdDSA"}

  /**
   * `type Alg string`. An `Other` value never spells one of the three known
   * names, so two `Alg` values are equal exactly when their strings are.
   */
  type Alg = a: AlgId | a.Other? ==> a.name !in KnownAlgNames witness RS256

  /** The string a Go `Alg` holds. */
  function AlgName(a: Alg): (s: string)
    ensures a.Other? <==> s !in KnownAlgNames
    ensures a == RS256 ==> s == "RS256"
    ensures a == ES256 ==> s == "ES256"
    ensures a == EdDSA ==> s == "EdDSA"
  {
    match a
    case RS256 => "RS256"
    case ES256 => "ES256"
    case EdDSA => "EdDSA"
    case Other(name) => name
  }

  /** The conversion `Alg(s)`. */
  function AlgOf(s: string): (a: Alg)
    ensures s in KnownAlgNames <==> !a.Other?
  {
    if s == "RS256" then RS256
    else if s == "ES256" then ES256
    else if s == "EdDSA" then EdDSA
    else Other(s)
  }

  /** `Alg` and `string` are the same type in Go: the two conversions are inverse. */
  lemma AlgNameRoundTrip(a: Alg, s: string)
    ensures AlgOf(AlgName(a)) == a
    ensures AlgName(AlgOf(s)) == s
  {
  }

  lemma AlgNameInjective(a: Alg, b: Alg)
    requires AlgName(a) == AlgName(b)
    ensures a == b
  {
    AlgNameRoundTrip(a, "");
    AlgNameRoundTrip(b, "");
  }

  /** `EncryptedKey`: opaque to everything but the encryptor that produced it. */
  datatype EncryptedKey = EncryptedKey(nonce: seq<Byte>, ciphertext: seq<Byte>)

  /**
   * `Key`, the durable record. Times are integers (nanoseconds); `expiresAt`
   * is the optional `*time.Time`.
   */
  datatype Key = Key(
    kid: string,
    alg: Alg,
    isActive: bool,
    createdAt: int,
    expiresAt: Option<int>,
    encryptedKey: EncryptedKey)

  /** `RotationConfig`: the time-to-live of the next key. */
  datatype RotationConfig = RotationConfig(ttl: int)

  /** The key kinds the algorithm layer distinguishes (the Go dynamic types of keys). */
  datatype KeyKind = RsaKind | EcdsaKind | Ed25519Kind | OtherKind(typeName: string)

  /**
   * Every error the core returns, one constructor per `errors.New` /
   * `fmt.Errorf` site; wrapping (`%w`) keeps the cause.
   */
  datatype Error =
    // manager.go
    | NoActiveKey(alg: Alg)
    | KeyNotFound(kid: string)
    | EcdsaConvert(cause: Error)
    | RotateAlg(alg: Alg, cause: Error)
    | RotationErrors(errs: seq<Error>)
    | DecryptKey(kid: string, cause: Error)
    | ParseKey(kid: string, cause: Error)
    | InitKey(alg: Alg, cause: Error)
    // der.go
    | Asn1Unmarshal
    | RSTooLarge(alg: Alg)
    // utils.go
    | UnsupportedAlgorithm(alg: Alg)
    | MarshalPkcs8(cause: Error)
    | ParsePkcs8(cause: Error)
    | UnsupportedPrivateKeyType(kind: KeyKind)
    | UnknownAlg(alg: Alg)
    | PublicKeyNotOfKind(expected: KeyKind)
    | SignatureInvalid(alg: Alg)
    | InvalidEcdsaSignatureLength
    | VerifyUnsupportedAlg(alg: Alg)
    // aesgcm_encryptor.go
    | MasterKeyLength(got: nat)
    | CipherInit
    | NonceUnavailable
    | InvalidNonceSize(got: nat)
    | DecryptFailed
    // mock_encryptor.go
    | ForcedDecryptError
    // errors produced by collaborators: the store, the policy, a payload builder, a primitive
    | Collaborator(message: string)

  /** An operation that returns a value or an error. */
  type Res<T> = Result<T, Error>

  /** An operation that returns only an error. */
  type Status = Outcome<Error>
}
