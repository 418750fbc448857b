# keys-manager in Dafny

A model of the `keys_manager` Go package. The package keeps a rotating set of
signing keys (RS256, ES256, EdDSA) whose private halves are stored encrypted.
The `KeyManager` lists the key records from a store, decrypts and parses each
one, and caches the result by key id and by algorithm. It signs with the active
key of an algorithm, verifies by key id and publishes the public keys as a
JWKS. Rotation makes a new active key and retires the old one.

The model has one module per Go file, plus three shared modules:

- `Wrappers`: `Option`, `Result` and `Outcome`.
- `Types` (types.go): algorithms, key records and one error constructor per error site.
- `BigBytes`: `big.Int` byte conversion, i.e. `Bytes` and `SetBytes`.
- `Base64Url`: the RFC 4648 section 5 alphabet without padding.
- `Crypto`: the cryptographic primitives.
- `Der` (der.go): an ASN.1 DER reader with Go's `encoding/asn1` acceptance rules for a SEQUENCE of two INTEGERs, an imperative `DERToRawECDSA` over a 64-byte array, and the encoder an ECDSA signer uses.
- `Utils` (utils.go and dto.go): base64url helpers, key ids, signing options, key generation and parsing, native signing, `verifySignature`, and JWKS export.
- `Encryption` (aesgcm_encryptor.go, mock_encryptor.go): the AES-GCM encryptor, the mock encryptor, and the `Encryptor` interface over both.
- `Store` (mock_store.go): the `MockStore` class, whose record map, rotation counter and injectable error change in place.
- `Manager` (manager.go): the `KeyManager` class, plus the pure specifications its methods are proved against:
  - `LoadKey` and `BuildIndex` for the reload;
  - `FirstActive`, `NewRecord` and `RotatedData` for rotation;
  - `SignWith` for signing;
  - `Expiring` and `Aggregate` for expiry rotation.

Go's map iteration order is unspecified. `List`, `buildJWKS` and `RotateExpired`
therefore pick the next key with `:|`, and return the order they visited as a
ghost value. Their contracts hold for every order.

The cryptographic primitives are record parameters: `Crypto.Primitives` and
`Crypto.Aead`. What the code relies on is stated as the predicates `Sound` and
`AeadSound`:
- signatures made by a key verify under its public half;
- PKCS#8 parsing undoes marshalling;
- AEAD Open undoes Seal, and rejects another key or a changed byte.

`Crypto.ToyPrimitivesSound` and `Crypto.ToyAeadSound` exhibit instances, so
both assumptions can be met.

Three behaviours of the code are easy to miss, and the model follows the code
in each:
- `DERToRawECDSA` takes the magnitude of R and S (`big.Int.Bytes`). A negative INTEGER is therefore accepted, not refused.
- `Rotate` retires the first active record of the algorithm in listing order. `ReloadCache`, by contrast, makes the last one active.
- The EC coordinates of a JWK go through `b64big`, which drops leading zero bytes. RFC 7518 section 6.2.1.2 asks for the full 32 bytes. `Utils.EcCoordinateNotFullWidth` exhibits a coordinate that is published in a single byte.

## Model

| member | source | states |
|---|---|---|
| Types.AlgName | types.go:14-20 | RS256, ES256 and EdDSA are named by the constants "RS256", "ES256" and "EdDSA", and a name is one of those three exactly when the algorithm is not an `Other` one |
| Types.AlgNameInjective | types.go:14-20 | distinct algorithms have distinct names |
| Types.AlgNameRoundTrip | types.go:14 | `Alg` is a string type: converting an algorithm to its name and back, or a name to an algorithm and back, is the identity |
| BigBytes.IntBytes | der.go:23-24 | `Bytes()` is the big-endian magnitude of the value, with no leading zero byte |
| BigBytes.MinBEUnique | utils.go:23-25 | a byte string without a leading zero is the `Bytes()` of its own value, so the encoding is canonical |
| BigBytes.MinBELength | der.go:26 | `Bytes()` fits in n bytes exactly when the value is below 256^n |
| BigBytes.IntBytesFit | der.go:26 | the `Bytes()` of a signed value fits in n bytes exactly when its magnitude is below 256^n |
| BigBytes.PadLeft | der.go:30-33 | left padding gives the requested width, keeps the bytes as the suffix and puts zeros before them |
| BigBytes.PadLeftValue | der.go:32-33 | left padding with zeros keeps the big-endian value |
| Base64Url.DecodeEncode | utils.go:19-21 | unpadded base64url decoding gives back exactly the encoded bytes |
| Base64Url.EncodeLength | utils.go:19-21 | n bytes encode to ceil(4n/3) characters |
| Base64Url.EncodeAlphabet | utils.go:19-21 | every output character is in the URL-safe alphabet, and none is '=' |
| Der.InvalidDerExample | der.go:16-19 | the bytes FF 00 01 are an "asn1 unmarshal" error |
| Der.DerToRawErrors | der.go:16-28 | "asn1 unmarshal" exactly when the DER does not parse; "R/S too large" exactly when \|R\| or \|S\| is at least 2^256 |
| Der.DerToRawLayout | der.go:30-35 | success gives 64 bytes: R right-aligned in bytes 0-31 and S in bytes 32-63, zeros before each, and each half reads back as \|R\| and \|S\| |
| Der.DerToRawIgnoresAlg | der.go:21-27 | the field width is 32 for every algorithm; `alg` only names the error |
| Der.TrailingBytesIgnored | der.go:16 | bytes after the first complete SEQUENCE do not change the result |
| Der.ParseEncodedEcdsaSig | der.go:16 | the DER an ECDSA signer emits parses back to its R and S, whatever follows it |
| Der.DerToRawOfEncoded | der.go:13-36 | a signer's DER always converts, to R and S each left-padded to 32 bytes |
| Der.CopyInto | der.go:32-33 | `copy` overwrites exactly the target slice with the source and leaves the rest of the buffer as it was |
| Der.PackHalves | der.go:30-35 | the zeroed 64-byte buffer, after R is copied right-aligned into its first half and S into its second, is R left-padded to 32 bytes followed by S left-padded to 32 bytes |
| Der.DERToRawECDSA | der.go:13-36 | the imperative conversion over a zeroed 64-byte array returns exactly `DerToRaw` |
| Utils.B64 | utils.go:19-21 | the output decodes back to the input, has length ceil(4n/3), and uses only base64url characters without '=' |
| Utils.B64Big | utils.go:23-25 | the output decodes to the minimal big-endian magnitude of the integer, with no leading zero byte |
| Utils.GenerateKid | utils.go:27-43 | every key id, with or without randomness, starts with the algorithm name and '_', and has a non-empty suffix |
| Utils.KidFormat | utils.go:27-37 | with randomness the suffix is 16 base64url characters without '=' that decode back to the 12 random bytes |
| Utils.SigningOptions | utils.go:45-54 | RS256 and ES256 use SHA-256; EdDSA uses no pre-hash; every other algorithm is "unsupported algorithm" |
| Utils.GeneratePrivateKey | utils.go:141-152 | an unknown algorithm is an error; with sound primitives, a key generated for an algorithm has that algorithm's kind |
| Utils.MarshalPkcs8 | utils.go:56-63 | it fails exactly when the marshaller does, and otherwise returns its bytes |
| Utils.ParsePrivateKey | utils.go:65-81 | it succeeds exactly for a parsed RSA, ECDSA or Ed25519 key; any other kind is "unsupported private key type" |
| Utils.ParseMarshalled | utils.go:56-81 | a generated key survives PKCS#8 marshal and parse unchanged |
| Utils.VerifyRefusesBeforePrimitives | utils.go:83-139 | an unsupported algorithm, or a public key of the wrong kind, is refused with the same error whatever the primitives are |
| Utils.VerifyEs256Split | utils.go:110-118 | an odd-length ES256 signature is refused; an even-length one, including the empty one, passes exactly when the primitive accepts its two big-endian halves |
| Utils.JwkOfFields | utils.go:157-197 | a cache value gives an entry exactly when it is non-nil, has a record and has an RSA, EC or Ed25519 key; the entry has kid, alg, use "sig", each kind's own fields decoding to the key's numbers or bytes, and its other fields empty |
| Utils.EcCoordinateNotFullWidth | utils.go:181-185 | an EC coordinate is published without leading zero bytes, e.g. x = 1 becomes a single byte |
| Utils.EmitAllCount | utils.go:154-203 | there is one entry per exportable cache value |
| Utils.EntryOf | utils.go:157-199 | a cache value contributes one entry exactly when it is exportable, and that entry is its JWK |
| Utils.EmitAllMembers | utils.go:157-199 | every entry comes from a visited cache value, and every exportable visited value contributes its entry |
| Utils.EmitAllUseSig | utils.go:162-193 | every entry has use "sig" and kty RSA, EC or OKP |
| Utils.BuildJwks | utils.go:154-203 | it visits every cache key once, in some order, and appends each exportable value's entry in that order; it never fails |
| Encryption.NewAesGcmEncryptor | aesgcm_encryptor.go:15-19 | construction succeeds exactly for a 32-byte master key, and otherwise reports the length |
| Encryption.AesGcmEncrypt | aesgcm_encryptor.go:22-45 | a bad AES key length is "cipher init"; missing randomness is "nonce"; on success the nonce is 12 fresh bytes and Seal binds no associated data |
| Encryption.AesGcmDecrypt | aesgcm_encryptor.go:47-68 | "cipher init", then "invalid nonce size" for a nonce that is not 12 bytes; success means Open, with no associated data, gave that plaintext |
| Encryption.AesGcmRoundTrip | aesgcm_encryptor.go:22-68 | decrypting an encryption gives back the plaintext, including the empty one |
| Encryption.AesGcmWrongKey | aesgcm_encryptor.go:62-65 | another 32-byte master key cannot decrypt: "decrypt" error |
| Encryption.AesGcmTamper | aesgcm_encryptor.go:62-65 | changing any one ciphertext byte makes decryption fail |
| Encryption.AesGcmNonceChecked | aesgcm_encryptor.go:58-60 | a wrong-length nonce is refused before Open: the result depends on neither the AEAD nor the ciphertext |
| Encryption.MockEncrypt | mock_encryptor.go:9-14 | an empty nonce, and a ciphertext equal to the plaintext |
| Encryption.MockDecrypt | mock_encryptor.go:16-21 | it fails exactly when failure is forced, with "forced decrypt error", and otherwise returns the ciphertext |
| Encryption.MockDecryptOutcome | mock_encryptor.go:9-21 | forced failure refuses every record; otherwise the nonce is ignored and the mock undoes its own Encrypt |
| Encryption.EncryptDecrypt | types.go:42-45 | a reversible encryptor (the unforced mock, or AES-GCM with a valid key) with enough randomness decrypts its own output back to the plaintext |
| Store.MockStore.constructor | mock_store.go:12-14 | the new store is empty, with no rotations and no injected error |
| Store.MockStore.Save | mock_store.go:16-21 | it inserts or replaces the record under its id and changes nothing else; it never fails |
| Store.MockStore.List | mock_store.go:23-32 | the result lists every stored record once, and nothing else |
| Store.ListingSize | mock_store.go:27-31 | a listing has exactly one element per stored id |
| Store.MockStore.Rotate | mock_store.go:34-52 | with an injected error, that error is returned and nothing changes; otherwise the counter goes up by one and the data becomes `RotatedData` |
| Store.RotatedData | mock_store.go:44-50 | the new record is stored under its id; the record named by `oldKey`, if stored, is deactivated; every other record is unchanged |
| Store.RotationWithoutOld | mock_store.go:44-50 | with no old key, a rotation is a plain insertion |
| Store.RotationUnknownOld | mock_store.go:44-47 | an old key whose id is not stored deactivates nothing |
| Store.RotationActivatesNew | mock_store.go:44-50 | from at most one active record for the new record's algorithm, after retiring it and adding a fresh id: the new record is the only active one for its algorithm, and one more record is stored |
| Store.RotationKeepsOthers | mock_store.go:44-50 | the active records of other algorithms are unchanged |
| Store.RotationKeepsOneActive | mock_store.go:44-50 | in a store with at most one active record per algorithm, that stays so after the rotation |
| Store.OneActiveForCard | mock_store.go:44-50 | an algorithm has at most one active record exactly when its set of active ids has at most one element |
| Store.RotatedKeyedById | mock_store.go:44-50 | every record stays stored under its own id |
| Store.RotatedSize | mock_store.go:44-50 | a rotation under a fresh id stores one record more |
| Store.RotatedActiveKids | mock_store.go:44-50 | after retiring the active record and adding a fresh one, the new id is the only active one for its algorithm |
| Store.RotationOthersActive | mock_store.go:44-50 | a rotation under a fresh id that retires only a record of its own algorithm leaves every other algorithm with an active record exactly when it had one |
| Manager.LoadKey | manager.go:226-241 | it succeeds exactly when decryption and parsing do, giving the record, its key and that key's public half; otherwise "decrypt key"/"parse key" with the id |
| Manager.BuildIndexStep | manager.go:226-247 | one more record propagates an earlier error, fails with its own load error, or is added to the cache under its id and, when active, to the active map under its algorithm, replacing what was there |
| Manager.BuildIndexErrors | manager.go:226-235 | the reload index is built exactly when every record loads; otherwise the error is that of the first record that does not |
| Manager.BuildIndexFailsEarly | manager.go:226-235 | once a record fails, later records do not matter |
| Manager.BuildIndexCache | manager.go:237-243 | for a store listing, the cache has exactly one entry per listed id: that record, loaded |
| Manager.BuildIndexActive | manager.go:245-247 | an algorithm's active entry is its last active record in list order; an algorithm with no active record has none |
| Manager.LastActive | manager.go:245-247 | the index found is of a record active for the algorithm with none active after it; none exactly when no listed record is active for it |
| Manager.OnlyActiveIsActive | manager.go:245-247 | the only active record of an algorithm is its active entry |
| Manager.BuildIndexCoherent | manager.go:237-247 | every active entry is active for its algorithm and is the very cache entry for its id; every cache entry is its own record, loaded |
| Manager.KeyManager.ReloadCache | manager.go:217-256 | on success both maps become the index of the listing; on the first failing record the error is returned and neither map changes |
| Manager.KeyManager.ActiveKey | manager.go:42-56 | a hit is returned with both maps unchanged; after a miss the maps are what one reload from a listing of the store leaves (its index, or the old maps if a record fails to load) and the result is the lookup in them, possibly none; any result is an active record of that algorithm that loads to itself |
| Manager.KeyManager.KeyByKid | manager.go:58-72 | the same for lookup by key id: a hit changes nothing, a miss reloads once and looks up again |
| Manager.SignWith | manager.go:88-116 | hash per `signingOptions`, sign natively, convert DER to raw only for ES256 |
| Manager.SignThenVerify | manager.go:88-116 | with sound primitives and a key of the algorithm's kind, what Sign returns is accepted by `verifySignature` under that key's public half |
| Manager.SignThenVerifyEs256 | manager.go:107-116 | an ES256 signature, converted from DER to R and S padded to 32 bytes each, is accepted by the ES256 branch of `verifySignature` under the key's public half |
| Manager.Es256SignatureWidth | manager.go:107-116 | an ES256 signature is always 64 bytes |
| Manager.SignUnsupported | manager.go:88-91 | an unsupported algorithm is refused before any signing |
| Manager.KeyManager.Sign | manager.go:74-117 | the lookup of `activeKey` (a hit changes nothing, a miss reloads once); with no active key after it, "no active key"; otherwise `build` gets the active key id, its error propagates, and the result is `SignWith` over its output |
| Manager.KeyManager.Verify | manager.go:119-126 | the lookup of `keyByKID` (a hit changes nothing, a miss reloads once); an id still unknown is "not found"; otherwise the result is `verifySignature` with the record's algorithm and the cached public key |
| Manager.LoadedExportable | utils.go:168-197 | with sound primitives, every loaded cache entry has an exportable public key |
| Manager.KeyManager.Jwks | manager.go:128-134 | the entries are `buildJWKS` of the cache; each comes from a cache entry; with sound primitives there is one per cached key |
| Manager.FirstActive | manager.go:147-155 | the first listed record that is active for the algorithm, or none exactly when no record is |
| Manager.FirstActiveSkip | manager.go:147-155 | records before the first one active for the algorithm do not change which record is found |
| Manager.KeyManager.FindActive | manager.go:147-155 | the loop returns a deactivated copy of the first active record of the algorithm, or none |
| Manager.Retired | manager.go:150-152 | the clone handed to the store is the record with `IsActive` cleared and the same id |
| Manager.NewRecord | manager.go:137-182 | a policy error comes first, then "unknown alg"; a new record is active, created now, expires after the TTL and has an id from `generateKID` |
| Manager.NewRecordLoads | manager.go:157-170 | with sound primitives and a reversible encryptor, a new record loads back to the generated key, of the algorithm's kind |
| Manager.ListingLoads | manager.go:226-248 | a reload from a listing of the store builds the index without error exactly when every stored record decrypts and parses |
| Manager.ReloadOutcome | manager.go:226-248 | a reload from a listing passes exactly when every stored record loads, and otherwise fails with the error of a stored record that does not |
| Manager.RotationLoads | mock_store.go:44-50 | when the new record loads, a store rotation keeps every record loading, since the deactivated copy keeps its encrypted key |
| Manager.FirstActiveOfListing | manager.go:147-155 | in a store with at most one active record for the algorithm, the record found is that algorithm's active record |
| Manager.OnlyNewActive | mock_store.go:44-50 | in a listing of the rotated store, no record but the new one is active for its algorithm |
| Manager.RotatedIndex | manager.go:184-188 | after the store rotates and the cache reloads, the new record is cached and its algorithm has an active entry, which is the new record when no other record of that algorithm stays active |
| Manager.RotationOutcome | manager.go:147-188 | a successful rotation caches the new record; from at most one active record for its algorithm and a fresh id, the new record is the active entry and the only active record of its algorithm; a store with at most one active record per algorithm keeps that |
| Manager.KeyManager.Rotate | manager.go:136-189 | a policy, generation, marshalling or encryption error changes nothing; a store error is returned with nothing changed; otherwise the store counts one rotation and becomes `RotatedData` with the retired first active record, and the reload's outcome is returned; from a store whose every record loads, with sound primitives and a reversible encryptor, a rotation past those errors passes and every record of the rotated store loads too; on success, from at most one active record for `alg` and a fresh id, the new record is the active entry and the only active record for `alg` |
| Manager.KeyManager.RotateStep | manager.go:136-189 | an error before the store (policy or new record, then the injected store error) is returned with nothing changed; otherwise the store counts one rotation more and holds the new record under exactly one new id, and the result is the reload's: nil exactly when every record of the rotated store loads, else the error of one that does not, so from a `Reloadable` store it is nil and the store stays `Reloadable`; a success leaves an active entry for its algorithm and an index that tracks the store, and, when the id was not stored, every other algorithm has an active record exactly when it had one |
| Manager.ListingTracks | manager.go:226-247 | the active map built from a store listing names exactly the algorithms that have an active record in the store |
| Manager.RotationStoreEffect | mock_store.go:44-50 | a rotation with the retired first active record adds exactly the new id to the store and, when that id was not stored, leaves every other algorithm with an active record exactly when it had one |
| Manager.TrackedRotation | manager.go:184-188 | after a rotation under a fresh drawn id and a reload that tracks the store, the active map gains exactly the rotated algorithm, and later draws stay fresh |
| Manager.ExpiringMembers | manager.go:202-203 | exactly the snapshot algorithms whose `ExpiresAt` is set and before now are rotated |
| Manager.ExpiringSnoc | manager.go:202-203 | visiting one more algorithm adds it to those rotated exactly when its key expired |
| Manager.AggregatePass | manager.go:204-214 | the result is nil exactly when every attempted rotation succeeded |
| Manager.FailuresSnoc | manager.go:204-206 | one more rotation adds "rotate <alg>" with its error to the failures exactly when it failed |
| Manager.KeyManager.ExpireTurn | manager.go:202-207 | one visit of the loop rotates the algorithm if its key expired and records a failure as "rotate <alg>", keeping the loop invariant: the attempts are the expiring visited algorithms, each accounted for in the store, and the errors are their failures |
| Manager.ExpireTraceSnoc | manager.go:202-207 | visiting one more algorithm attempts it exactly when its key expired, and a failed attempt adds "rotate <alg>" |
| Manager.KeyManager.StoreCallsSnoc | mock_store.go:42 | one more rotation reaches the store, and bumps its counter, exactly when it has no early error |
| Manager.KeyManager.AttemptsSnoc | manager.go:202-207 | the earlier rotations stay accounted for after one more, since the store only grows |
| Manager.KeyManager.ExpireAccountSnoc | manager.go:202-207 | one more rotation, with what `RotateStep` ensures of it, keeps the store accounting of the loop |
| Manager.KeyManager.InjectedStoreCalls | mock_store.go:35-37 | with an injected store error no rotation reaches the store |
| Manager.KeyManager.CleanExpiry | manager.go:202-214 | from a `Reloadable` store, `RotateExpired` returns nil exactly when none of its rotations fails before the store |
| Manager.KeyManager.InjectedExpiry | manager.go:202-214 | with an injected store error every attempted rotation fails, so `RotateExpired` returns nil exactly when nothing had expired, and the store counts no rotation |
| Manager.KeyManager.RotateExpired | manager.go:191-215 | it visits every algorithm of the snapshot once and rotates exactly the expiring ones in visiting order, the i-th with the i-th draw; each rotation's early error is its result, each success left its new id stored, and from a `Reloadable` store every rotation past its early errors succeeded and the store stays `Reloadable`; the store counts one rotation per attempt that got past the early errors; every failure is returned as "rotate <alg>" inside one "rotation errors"; with an injected store error nothing changes |
| Manager.KeyManager.InitKeys | manager.go:258-274 | `InitOutcome`: it rotates only listed algorithms and stops at the first failure, whose "failed to initialize key" error names the last algorithm it tried; the store counts one rotation per algorithm it rotated (the failed last one perhaps excepted); every rotation but a failed last one got past its early errors, and from a `Reloadable` store it returns nil exactly when none of them failed early, a failure being the last one's early error, and the store stays `Reloadable`; with an injected store error it fails exactly when some algorithm was missing, and the store is left as it was; when the index tracks the store and the drawn ids are fresh and distinct, the algorithms it rotates are, in list order, a prefix of the listed ones without an active entry, all of them on success, and success leaves every listed algorithm with an active entry and the index tracking the store; with every listed algorithm already active it returns nil and changes nothing |
| Manager.ToRotateMembers | manager.go:258-271 | the algorithms `InitKeys` is to rotate are exactly the listed ones without an active entry, each once |
| Manager.ToRotatePrefix | manager.go:258-271 | what is to be rotated for a prefix of the list is a prefix of what is to be rotated for the whole list |
| Manager.InitSkip | manager.go:264-266 | skipping an algorithm with an active entry keeps the loop's tracking invariant |
| Manager.InitRotate | manager.go:268-271 | a successful rotation of an algorithm without an active entry keeps the tracking invariant, with that algorithm appended to those rotated |
| Manager.InitFail | manager.go:268-270 | when a rotation fails, the algorithms tried so far are a prefix of those to be rotated |
| Manager.InitDone | manager.go:258-273 | once the whole list is processed under the tracking invariant, every listed algorithm has an active entry |
| Manager.KeyManager.InitTurn | manager.go:259-271 | one turn of the loop skips an algorithm with an active entry and otherwise rotates it, appending it to those rotated and keeping the loop invariant |
| Manager.KeyManager.InitRotateTurn | manager.go:268-270 | rotating an algorithm without an active entry, tagging a failure with it, keeps the loop invariant with the algorithm appended |
| Manager.KeyManager.InitStateRotate | manager.go:268-270 | a rotation, with what `RotateStep` ensures of it, keeps the loop state: the counter, the early errors, the tracking facts and `Reloadable` |
| Manager.KeyManager.InitCountsSnoc | manager.go:268-270 | one more rotation keeps the counter and early-error account of the loop |
| Manager.EarlyAccountSnoc | manager.go:268-270 | one more rotation, whose early error is its result and which passes from a `Reloadable` store otherwise, keeps the early-error account |
| Manager.KeyManager.EarlyErrorsSnoc | manager.go:268 | one more rotation appends its early error |
| Manager.KeyManager.EarlyErrorsAt | manager.go:268 | the i-th early error is that of the i-th rotation with the i-th draw |
| Manager.KeyManager.InitAccountOf | manager.go:259-273 | every rotation but a failed last one got past its early errors; from a `Reloadable` store `InitKeys` returns nil exactly when none failed early |
| Manager.KeyManager.InitExit | manager.go:258-274 | once the loop has run through the list or failed, its state gives `InitOutcome` |
| Manager.NewKeyManager | manager.go:22-40 | it succeeds exactly when the first reload does, and starts from that reload's index, whose active map names exactly the algorithms with an active stored record |
| Manager.KeyManager.constructor | manager.go:27-33 | the manager starts with its collaborators and empty maps |

## Left out

- Cryptography is not modelled. RSA, ECDSA P-256, Ed25519, SHA-256, PKCS#8 and AES-GCM are parameters: `Crypto.Primitives` and `Crypto.Aead`. Only the properties in `Sound` and `AeadSound` are required of them.
- Randomness and the clock are not modelled. The bytes `rand.Reader` would deliver are parameters (`Manager.Draw`, the `random` argument of AES-GCM encryption), and so is `time.Now()` (`now`, in integer ticks). `RotateExpired` passes its own `now` to every rotation it makes, where the code reads the clock again inside each `Rotate`.
- ECDSA signing randomness is hidden inside the `ecdsaSign` primitive, which is a function of key and digest.
- Locking is not modelled (`sync.RWMutex`, `sync.Mutex`). Each operation is atomic; concurrent callers are outside the model.
- Only `MockStore` is a store. Its `List` never fails, so the `List` error branches in `Rotate` and `ReloadCache` cannot be reached in this model.
- The rotation policy is a constant answer (`policy: Res<RotationConfig>`). The code calls a function that could answer differently each time.
- Records and cache entries are values, not shared pointers. In the code, `MockStore.Rotate` deactivates the very `*Key` that the cache also holds. So until the following reload, or for good if that reload fails, the cached record already reads `IsActive = false`. The model's cached copy stays active. Later mutation through a pointer passed to `Save` is not modelled either.
- `json.Marshal` of the JWKS is not modelled; the model stops at the `JWKS` value. In dto.go, `CrvOKP`/`XOKP` carry the same JSON names as `Crv`/`X`. Under `encoding/json`'s documented rule for equally tagged duplicates, the encoder would drop all four fields. This model does not capture that.
- `cipher.NewGCM`'s "gcm init" error is left out: it does not occur for an AES block.
- A nil `EncryptedKey` pointer (a nil dereference in the code) is left out: every record carries one.
- A nil `*CachedKey` or nil record cannot occur in the manager's own cache. It is modelled only in `buildJWKS` (`Utils.CacheSlot`).
- Key kinds are passed to native signing without checking them against the options. An RSA key signs whatever digest it is given, and an ECDSA key likewise, as Go's signers do with `SHA256` or `Hash(0)`. Only Ed25519 refuses a pre-hashed input, and its error text is shortened.
- Manager.KeyManager.InitKeys: which algorithms are rotated, in what order, and that all listed algorithms end active are stated only when the active map tracks the store and the drawn key ids are fresh and distinct. Otherwise a reload can drop an entry whose record was changed in the store behind the cache, or a new record can overwrite a stored one with the same id.
- Manager.KeyManager.RotateExpired: each result is tied to the store through its early error, the rotation counter and the new id it stored, and, from a `Reloadable` store (sound primitives, a reversible encryptor and every record loading), to success past the early errors. Outside a `Reloadable` store the loop does not state whether a rotation that reached the store passed. `RotateStep` states it per call: nil exactly when every record of the rotated store loads, else a failing record's error. The exact store contents after several rotations are stated per call by `RotateStep` and `Rotate`, not composed over the loop.
- Manager.KeyManager.InitKeys: outside a `Reloadable` store it does not state whether a rotation that reached the store passed; `RotateStep` states that per call.
- Durations and times are unbounded integers; the wrap-around of `time.Time` and `time.Duration` arithmetic is not modelled.
