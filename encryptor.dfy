/**
 * The `Encryptor` implementations that wrap private keys at rest:
 * `AESGCMEncryptor` (aesgcm_encryptor.go) and the test double
 * `MockEncryptor` (mock_encryptor.go), behind one dispatching type.
 */
module Encryption {
  import opened Wrappers
  import opened Types
  import opened Crypto

  /** `gcm.NonceSize()` for the standard AES-GCM construction. */
  const NonceSize: nat := 12
  /** The master key length `NewAESGCMEncryptor` insists on (AES-256). */
  const MasterKeySize: nat := 32

  /** Key lengths `aes.NewCipher` accepts: AES-128, AES-192, AES-256. */
  predicate AesKeyLength(n: nat)
  {
    n == 16 || n == 24 || n == 32
  }

  /** `AESGCMEncryptor`: the master key, and the AES-GCM AEAD the standard library supplies. */
  datatype AesGcmEncryptor = AesGcmEncryptor(key: seq<Byte>, gcm: Aead)

  /** `NewAESGCMEncryptor`: accepts only a 32-byte master key. */
  function NewAesGcmEncryptor(masterKey: seq<Byte>, gcm: Aead): (r: Res<AesGcmEncryptor>)
    ensures r.Ok? <==> |masterKey| == MasterKeySize
    ensures r.Ok? ==> r.value.key == masterKey && r.value.gcm == gcm
    ensures r.Err? ==> r.error == MasterKeyLength(|masterKey|)
  {
    if |masterKey| != MasterKeySize then Err(MasterKeyLength(|masterKey|))
    else Ok(AesGcmEncryptor(masterKey, gcm))
  }

  /**
   * `AESGCMEncryptor.Encrypt`: a fresh nonce read from `random` (the bytes
   * `rand.Reader` would deliver), then Seal with no associated data.
   */
  function AesGcmEncrypt(e: AesGcmEncryptor, random: seq<Byte>, plain: seq<Byte>): (r: Res<EncryptedKey>)
    ensures r.Err? <==> !AesKeyLength(|e.key|) || |random| < NonceSize
    ensures !AesKeyLength(|e.key|) ==> r == Err(CipherInit)
    ensures AesKeyLength(|e.key|) && |random| < NonceSize ==> r == Err(NonceUnavailable)
    ensures r.Ok? ==> |r.value.nonce| == NonceSize && r.value.nonce == random[..NonceSize]
    ensures r.Ok? ==> r.value.ciphertext == e.gcm.seal(e.key, r.value.nonce, plain, [])
  {
    if !AesKeyLength(|e.key|) then Err(CipherInit)
    else if |random| < NonceSize then Err(NonceUnavailable)
    else
      var nonce := random[..NonceSize];
      Ok(EncryptedKey(nonce, e.gcm.seal(e.key, nonce, plain, [])))
  }

  /** `AESGCMEncryptor.Decrypt`: the nonce length is checked before Open. */
  function AesGcmDecrypt(e: AesGcmEncryptor, enc: EncryptedKey): (r: Res<seq<Byte>>)
    ensures !AesKeyLength(|e.key|) ==> r == Err(CipherInit)
    ensures AesKeyLength(|e.key|) && |enc.nonce| != NonceSize ==> r == Err(InvalidNonceSize(|enc.nonce|))
    ensures r.Ok? ==> e.gcm.open(e.key, enc.nonce, enc.ciphertext, []) == Some(r.value)
  {
    if !AesKeyLength(|e.key|) then Err(CipherInit)
    else if |enc.nonce| != NonceSize then Err(InvalidNonceSize(|enc.nonce|))
    else
      match e.gcm.open(e.key, enc.nonce, enc.ciphertext, [])
      case Some(plain) => Ok(plain)
      case None => Err(DecryptFailed)
  }

  /** Whatever was encrypted, the empty plaintext included, decrypts back under the same master key. */
  lemma AesGcmRoundTrip(e: AesGcmEncryptor, random: seq<Byte>, plain: seq<Byte>)
    requires AeadSound(e.gcm) && AesKeyLength(|e.key|) && |random| >= NonceSize
    ensures AesGcmEncrypt(e, random, plain).Ok?
    ensures AesGcmDecrypt(e, AesGcmEncrypt(e, random, plain).value) == Ok(plain)
  {
  }

  /** A different master key of the same length cannot decrypt. */
  lemma AesGcmWrongKey(e1: AesGcmEncryptor, e2: AesGcmEncryptor, random: seq<Byte>, plain: seq<Byte>)
    requires AeadSound(e1.gcm) && e2.gcm == e1.gcm
    requires |e1.key| == MasterKeySize && |e2.key| == MasterKeySize && e1.key != e2.key
    requires |random| >= NonceSize
    ensures AesGcmDecrypt(e2, AesGcmEncrypt(e1, random, plain).value) == Err(DecryptFailed)
  {
  }

  /** Changing any one byte of the ciphertext makes decryption fail. */
  lemma AesGcmTamper(e: AesGcmEncryptor, random: seq<Byte>, plain: seq<Byte>, i: nat, b: Byte)
    requires AeadSound(e.gcm) && AesKeyLength(|e.key|) && |random| >= NonceSize
    requires var c := AesGcmEncrypt(e, random, plain).value.ciphertext; i < |c| && c[i] != b
    ensures var enc := AesGcmEncrypt(e, random, plain).value;
      AesGcmDecrypt(e, enc.(ciphertext := Tamper(enc.ciphertext, i, b))) == Err(DecryptFailed)
  {
  }

  /**
   * A nonce of the wrong length is refused before the AEAD runs: the outcome
   * does not depend on the AEAD or the ciphertext.
   */
  lemma AesGcmNonceChecked(e: AesGcmEncryptor, gcm: Aead, enc: EncryptedKey, c: seq<Byte>)
    requires AesKeyLength(|e.key|) && |enc.nonce| != NonceSize
    ensures AesGcmDecrypt(e, enc) == AesGcmDecrypt(e.(gcm := gcm), enc.(ciphertext := c))
    ensures AesGcmDecrypt(e, enc) == Err(InvalidNonceSize(|enc.nonce|))
  {
  }

  // ---------------------------------------------------------------------
  // mock_encryptor.go

  /** `MockEncryptor.Encrypt`: an empty nonce and a copy of the plaintext. */
  function MockEncrypt(plain: seq<Byte>): (r: EncryptedKey)
    ensures r.nonce == [] && r.ciphertext == plain
  {
    EncryptedKey([], plain)
  }

  /** `MockEncryptor.Decrypt`: a copy of the ciphertext, unless failure is forced. */
  function MockDecrypt(forceDecryptError: bool, enc: EncryptedKey): (r: Res<seq<Byte>>)
    ensures forceDecryptError <==> r.Err?
    ensures r.Err? ==> r.error == ForcedDecryptError
    ensures r.Ok? ==> r.value == enc.ciphertext
  {
    if forceDecryptError then Err(ForcedDecryptError) else Ok(enc.ciphertext)
  }

  // ---------------------------------------------------------------------
  // The Encryptor interface

  /** The encryptor a `KeyManager` is built with. */
  datatype Encryptor = Mock(forceDecryptError: bool) | AesGcm(aes: AesGcmEncryptor)

  /** `Encrypt`, by the dynamic type; `random` is what `rand.Reader` supplies. */
  function Encrypt(enc: Encryptor, random: seq<Byte>, plain: seq<Byte>): (r: Res<EncryptedKey>)
    ensures enc.Mock? ==> r == Ok(MockEncrypt(plain))
    ensures enc.AesGcm? ==> r == AesGcmEncrypt(enc.aes, random, plain)
  {
    match enc
    case Mock(_) => Ok(MockEncrypt(plain))
    case AesGcm(a) => AesGcmEncrypt(a, random, plain)
  }

  /** `Decrypt`, by the dynamic type. */
  function Decrypt(enc: Encryptor, ek: EncryptedKey): (r: Res<seq<Byte>>)
    ensures enc.Mock? ==> r == MockDecrypt(enc.forceDecryptError, ek)
    ensures enc.AesGcm? ==> r == AesGcmDecrypt(enc.aes, ek)
  {
    match enc
    case Mock(force) => MockDecrypt(force, ek)
    case AesGcm(a) => AesGcmDecrypt(a, ek)
  }

  /** An encryptor whose Decrypt undoes its Encrypt. */
  ghost predicate Reversible(enc: Encryptor)
  {
    match enc
    case Mock(force) => !force
    case AesGcm(a) => AeadSound(a.gcm) && AesKeyLength(|a.key|)
  }

  /**
   * A reversible encryptor given enough randomness encrypts successfully and
   * decrypts its own output back to the plaintext.
   */
  lemma EncryptDecrypt(enc: Encryptor, random: seq<Byte>, plain: seq<Byte>)
    requires Reversible(enc) && |random| >= NonceSize
    ensures Encrypt(enc, random, plain).Ok?
    ensures Decrypt(enc, Encrypt(enc, random, plain).value) == Ok(plain)
  {
    if enc.AesGcm? {
      AesGcmRoundTrip(enc.aes, random, plain);
    }
  }

  /**
   * The mock with forced failure refuses every record; without it, it
   * returns the stored bytes whatever the nonce, so it undoes its own Encrypt.
   */
  lemma MockDecryptOutcome(force: bool, ek: EncryptedKey, nonce: seq<Byte>, random: seq<Byte>, plain: seq<Byte>)
    ensures Decrypt(Mock(true), ek) == Err(ForcedDecryptError)
    ensures Decrypt(Mock(false), ek.(nonce := nonce)) == Decrypt(Mock(false), ek)
    ensures Encrypt(Mock(force), random, plain).Ok?
    ensures Decrypt(Mock(false), Encrypt(Mock(force), random, plain).value) == Ok(plain)
  {
  }
}
