# TPM-backed JWT token source

A Dafny model of `google/tpm.go`. This file is an OAuth2 token source whose
RSA service-account key never leaves a Trusted Platform Module (TPM).

- `TpmTokenSource(config)` checks the configuration. It rejects an empty
  device path, a zero persistent key handle, an empty e-mail and an empty
  audience. The key id may be empty.
- `Token()` does these steps in order:
  1. Takes the source's mutex.
  2. Opens the TPM.
  3. Marshals a JWT header (`RS256`, `JWT`, key id) and a claim set. The
     e-mail is both issuer and subject. The audience is the configured one.
     `iat` is now and `exp` is one hour later, both in whole Unix seconds.
  4. Joins the two as `URLEncoding(header) "." URLEncoding(claims)`.
  5. Has the TPM sign the SHA-256 of that string.
  6. Appends `"." RawStdEncoding(signature)`.
  7. Closes the TPM. A close error is discarded.
  8. Releases the mutex.
  9. Returns a `Bearer` token whose expiry is the `exp` instant.

Modules:

- `Wrappers` (`wrappers.dfy`): `Option` and `Result`.
- `Base64` (`base64.dfy`): Go's `encoding/base64` encoders as functions over
  `seq<bv8>`. They cover the standard and URL-safe alphabets, with or without
  `=` padding (sections 4 and 5 of RFC 4648). There is also a canonical
  decoder (section 3.5 of RFC 4648). The encoders and the decoder are proved
  inverse in both directions.
- `Jwt` (`jwt.dfy`): the header and claim-set records, the signing input
  (line 114) and the compact token (line 125). `strings.Split`-style
  splitting is used to state the three-segment shape.
- `TpmToken` (`tpm.dfy`): the configuration and its validation, the token
  source (a class with immutable fields and a mutex), the TPM device (a
  class with an open flag and a ghost event log), and `Token()`.
  - `Token()` is an imperative method proved against the specification
    functions `TokenResult` (the outcome) and `SessionTrace` (what the TPM
    sees). Lemmas state the properties of those functions.

The code writes padded base64url for the first two segments. It writes the
*standard* alphabet without padding for the signature. The model keeps
this asymmetry. Section 7.1 of RFC 7515 asks for the base64url of section 2
of RFC 7515, which has no padding, in all three segments.
`Jwt.SegmentsDifferFromRfc7515` shows that every one-byte header or claim
set, and every signature whose first byte is 0xFB, gives a segment that is
not RFC 7515 base64url.

Inputs from outside the file:

- The clock reading is an `Instant` parameter: Unix seconds plus
  nanoseconds.
- `encoding/json.Marshal` is a `Marshaler` parameter: two total functions
  returning the JSON bytes or `None`.
- SHA-256 is a parameter from bytes to a 32-byte `Digest`.
- The TPM is a `Tpm` object. Whether opening succeeds, whether closing
  reports an error, and what the signing operation answers are all fixed
  when the object is built.

## Model

| member | source | states |
|---|---|---|
| `TpmToken.NewTpmTokenSource` | google/tpm.go:61-76 | Fails with `ConfigInvalid` and no source exactly when `Tpm`, `Email` or `Audience` is empty or `TpmHandle` is 0. An empty `KeyId` is accepted. On success the source's fields equal the configuration's fields and its mutex is fresh and unlocked. |
| `TpmToken.TpmTokenSource.constructor` | google/tpm.go:67-74 | Copies every configuration field unchanged (`Fields() == c`). Allocates a fresh, unlocked mutex. |
| `TpmToken.Mutex.Lock` | google/tpm.go:79 | Takes the mutex, which must be free. |
| `TpmToken.Mutex.Unlock` | google/tpm.go:80 | Releases the held mutex. |
| `TpmToken.Tpm.Open` | google/tpm.go:82-85 | Succeeds exactly when the device opens. Only then is the device open and `Opened` logged. |
| `TpmToken.Tpm.Sign` | google/tpm.go:117-123 | Only on an open device. Returns the TPM's answer for (handle, digest) and logs the request. |
| `TpmToken.Tpm.Close` | google/tpm.go:86-90 | Closes the device and logs `Closed`. Reports the device's close outcome. |
| `TpmToken.TpmTokenSource.Release` | google/tpm.go:80-90 | The deferred calls in last-in first-out order. Closes the TPM (ignoring its error), then unlocks. |
| `TpmToken.TpmTokenSource.Token` | google/tpm.go:78-128 | Returns a token with no error, or an error with no token, exactly as `TokenResult` says. The device's close result plays no part. On every return the TPM is closed and the mutex released. The TPM sees exactly the events of `SessionTrace`. |
| `TpmToken.SignedInput` | google/tpm.go:95-114 | Fails with `MarshalHeaderFailed` exactly when the header `(RS256, JWT, keyId)` does not marshal, and with `MarshalClaimSetFailed` exactly when the header marshals but the claim set (e-mail as issuer and subject, the audience, `iat` = now, `exp` = now + 3600) does not. Succeeds exactly when both marshal; the string is then ASCII and splits at its dots into exactly the padded base64url encodings of the header JSON and the claim-set JSON. |
| `TpmToken.IssuedToken` | google/tpm.go:92-127 | A successful token has type `Bearer` and exactly three dot-separated segments. Segment 1 decodes to the JSON of the header built by `TpmHeader` (lines 95-99): `RS256`, `JWT` and the configured key id, whatever the other inputs. Segment 2 decodes to the JSON of the claim set built by `TpmClaimSet` (lines 103-109): issuer = subject = e-mail, the configured audience, `iat` = clock seconds and `exp` = the expiry's seconds. The expiry, computed with `Add` (line 93), is `iat + 3600` seconds with the same nanoseconds. Segment 3 decodes to the TPM's signature over the SHA-256 of segments 1 and 2 joined by a dot. |
| `TpmToken.FailedToken` | google/tpm.go:82-123 | Each error names the first failing step, in source order: open, then header marshal, then claims marshal, then sign. `ConfigInvalid` never comes from `Token()`. |
| `TpmToken.SessionBracketed` | google/tpm.go:82-123 | If the TPM does not open, nothing happens on it. Otherwise the session has two or three events: opened once, first, and closed exactly once, last. In between it is asked to sign at most once, exactly when both marshals succeeded, and that request is for the key handle and the SHA-256 of the signing input. Every successful token comes from such a three-event session. |
| `TpmToken.CloseErrorIgnored` | google/tpm.go:86-90 | Two devices that open alike and sign alike give the same outcome and the same session, whatever closing reports. |
| `TpmToken.TokenResult` | google/tpm.go:82-127 | Succeeds exactly when the TPM opens, both marshals succeed and the TPM signs the SHA-256 of the signing input. A token is then `Bearer` and expires 3600 seconds after `now` with the same nanoseconds (the `Add` of lines 92-93); its access token starts with the signing input. `ConfigInvalid` is never the error. |
| `TpmToken.SessionTrace` | google/tpm.go:82-127 | Empty exactly when the TPM does not open. Otherwise two or three events, `Opened` first and `Closed` last. A middle event exists only when both marshals succeeded and is the signing request for the key handle and the SHA-256 of the signing input. |
| `Jwt.SigningInput` | google/tpm.go:114 | ASCII, and splits at its dots into exactly the padded base64url encodings of the header bytes and the claim bytes. |
| `Jwt.CompactToken` | google/tpm.go:125 | Starts with the signing input. Its dot-separated pieces are the signing input's pieces plus the unpadded standard-alphabet encoding of the signature. |
| `Jwt.TokenSegments` | google/tpm.go:125 | The token has exactly three segments, and the first two joined by a dot are the signing input. Each segment decodes under its own encoding to the bytes that were encoded. Lengths are 4·ceil(n/3) for the first two and ceil(4n/3) for the third. Alphabets are `A-Z a-z 0-9 - _ =` for the first two and `A-Z a-z 0-9 + /` (no `=`) for the third. |
| `Jwt.SegmentsDifferFromRfc7515` | google/tpm.go:114 | For every header byte `b` and every signature starting with byte 0xFB: the one-byte header `[b]` encodes with `==` padding and the signature's encoding starts with `+`. An unpadded base64url decoder accepts neither. Concretely `{` (0x7B) encodes as `ew==` and the one-byte signature 0xFB as `+w`. |
| `Jwt.OneByteSegmentPadded` | google/tpm.go:114 | A one-byte header or claim set encodes to four characters ending in `==`, which an unpadded base64url decoder rejects. |
| `Jwt.SignatureStartsWithPlus` | google/tpm.go:125 | A signature whose first byte is 0xFB encodes to a string starting with `+`, which an unpadded base64url decoder rejects. |
| `Base64.Encode` | google/tpm.go:114 | `EncodeToString` of the four Go encodings (used with `URLEncoding` at line 114 and `RawStdEncoding` at line 125). The output length is 4·ceil(n/3) with padding and ceil(4n/3) without. Every character is in the encoding's alphabet, or is `=` when padding. |
| `Base64.DecodeEncode` | google/tpm.go:114 | Decoding the encoding gives back the input bytes, for every encoding. |
| `Base64.EncodeDecode` | google/tpm.go:125 | Every string the decoder accepts is the encoding of what it decodes to, so the decoder accepts no non-canonical string. |
| `Base64.DecodeIffEncode` | google/tpm.go:125 | `Decode(e, s) == Some(b)` if and only if `Encode(e, b) == s`. |
| `Base64.DecodedInAlphabet` | google/tpm.go:125 | A string the decoder accepts holds only alphabet characters, and `=` only for a padded encoding. |
| `Base64.Rfc4648TestVectors` | google/tpm.go:125 | `Encode` agrees with the test vectors of section 10 of RFC 4648 for the standard alphabet with padding (`Zg==`, `Zm8=`, `Zm9vYmFy`) and without (`Zg`, `Zm8`), and the decoder inverts two of them. |

## Left out

- Concurrency: the mutex is a ghost `locked` flag, and `Token()` requires it free on entry and leaves it free on every exit. Blocking on a held lock, interleaving of goroutines, and races between two sources on one device are not modelled.
- TPM hardware and the `tpm2`/`tpmutil` libraries: `OpenTPM`, `Sign` and `Close` are a device object whose answers are fixed when it is built. The RSASSA-PKCS#1 v1.5 signature and whether a verifier accepts it are not modelled. A signature without an RSA part (a Go panic) is not modelled either.
- SHA-256 is a parameter function to 32 bytes, not an implementation of the hash.
- `encoding/json` is a parameter. The byte-exact JSON of `jws.Header` and `jws.ClaimSet` lives in a library that is not part of this model. The claim set carries only the fields the source sets; the library's other fields stay at their zero values.
- The clock: `time.Now()` is the `now` parameter. The monotonic clock reading of a Go `time.Time` is not modelled.
- Error values: each error return is an `Error` constructor. The formatted messages and the wrapped underlying errors are not modelled. The `fmt.Errorf` built from a close error is discarded by the source, and the model discards it too.
- The decoder is not Go's: `Base64.Decode` is the canonical decoder of section 3.5 of RFC 4648. Go's default decoder also accepts non-zero unused bits and line breaks. The source never decodes; the decoder only states what each segment holds.
- The repository's other token sources are not part of this model; only `google/tpm.go` is.
