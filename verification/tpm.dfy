/** The TPM-backed token source of google/tpm.go: construction from a
    configuration, and `Token()`, which opens the TPM, builds and signs a JWT
    with a key that stays inside the TPM, closes the TPM and returns an
    OAuth2 bearer token.

    Everything the source gets from outside is an input here: the clock
    reading, encoding/json (`Marshaler`), SHA-256 (a function to 32 bytes)
    and the TPM itself (`Tpm`, whose open, sign and close results are fixed
    when it is built). */
module TpmToken {
  import opened Wrappers
  import opened Base64
  import opened Jwt

  type uint32 = x: int | 0 <= x < 0x1_0000_0000

  /** tpmutil.Handle: the persistent handle of the signing key in the TPM. */
  type Handle = uint32

  /** TpmTokenConfig. */
  datatype Config = Config(tpm: string, email: string, audience: string, tpmHandle: uint32, keyId: string)

  /** The failures of construction and of `Token()`, one per error return. */
  datatype Error =
    | ConfigInvalid
    | OpenFailed
    | MarshalHeaderFailed
    | MarshalClaimSetFailed
    | SignFailed

  type Nanos = n: int | 0 <= n < 1_000_000_000

  /** A time.Time as the source uses it: Unix seconds and the nanoseconds
      within that second. */
  datatype Instant = Instant(unix: int, nanos: Nanos)

  /** time.Hour, in seconds. */
  const Hour := 3600

  /** t.Add(d) for a whole number of seconds d. */
  function Add(t: Instant, seconds: int): (r: Instant)
    ensures r.unix - t.unix == seconds && r.nanos == t.nanos
    ensures seconds >= 0 ==> r.unix >= t.unix
  {
    Instant(t.unix + seconds, t.nanos)
  }

  /** oauth2.Token: the bearer string, its type and its expiry. */
  datatype OAuthToken = OAuthToken(accessToken: string, tokenType: string, expiry: Instant)

  /** encoding/json.Marshal on the two jws structures: the JSON bytes, or
      None where marshalling fails. */
  datatype Marshaler = Marshaler(header: Header -> Option<seq<byte>>, claimSet: ClaimSet -> Option<seq<byte>>)

  /** A SHA-256 digest. */
  type Digest = d: seq<byte> | |d| == 32 witness seq(32, _ => 0 as bv8)

  /** The header of every token: RS256, JWT and the configured key id. */
  function TpmHeader(keyId: string): (h: Header)
    ensures h.algorithm == "RS256" && h.typ == "JWT" && h.keyId == keyId
  {
    Header("RS256", "JWT", keyId)
  }

  /** The claim set: the service account is issuer and subject. */
  function TpmClaimSet(email: string, audience: string, iat: Instant, exp: Instant): (c: ClaimSet)
    ensures c.iss == email && c.sub == email && c.aud == audience
    ensures c.iat == iat.unix && c.exp == exp.unix
    ensures exp == Add(iat, Hour) ==> c.exp - c.iat == 3600
  {
    ClaimSet(email, email, audience, iat.unix, exp.unix)
  }

  /** A sync.Mutex; only whether it is held is modelled. */
  class Mutex {
    ghost var locked: bool

    constructor()
      ensures !locked
    {
      locked := false;
    }

    method Lock()
      requires !locked
      modifies this
      ensures locked
    {
      locked := true;
    }

    method Unlock()
      requires locked
      modifies this
      ensures !locked
    {
      locked := false;
    }
  }

  /** What happens on the TPM during one `Token()` call, in order. */
  datatype Event = Opened | SignRequested(handle: Handle, digest: Digest) | Closed

  /** The TPM device at `path`.  Whether opening and closing it succeed and
      what it answers to a signing request (RSASSA with SHA-256 under a
      persistent key handle; None for an error) are fixed when it is built. */
  class Tpm {
    const path: string
    const opens: bool
    const closes: bool
    const signer: (Handle, Digest) -> Option<seq<byte>>
    var isOpen: bool
    ghost var log: seq<Event>

    constructor(path: string, opens: bool, closes: bool, signer: (Handle, Digest) -> Option<seq<byte>>)
      ensures this.path == path && this.opens == opens && this.closes == closes && this.signer == signer
      ensures !isOpen && log == []
    {
      this.path, this.opens, this.closes, this.signer := path, opens, closes, signer;
      isOpen, log := false, [];
    }

    /** tpm2.OpenTPM(path). */
    method Open() returns (ok: bool)
      requires !isOpen
      modifies this
      ensures ok == opens && isOpen == opens
      ensures log == old(log) + (if opens then [Opened] else [])
    {
      ok := opens;
      if ok {
        isOpen, log := true, log + [Opened];
      }
    }

    /** tpm2.Sign(rwc, handle, "", digest, RSASSA/SHA-256): the RSA signature. */
    method Sign(handle: Handle, digest: Digest) returns (sig: Option<seq<byte>>)
      requires isOpen
      modifies this
      ensures isOpen && sig == signer(handle, digest)
      ensures log == old(log) + [SignRequested(handle, digest)]
    {
      sig := signer(handle, digest);
      log := log + [SignRequested(handle, digest)];
    }

    /** rwc.Close(); `ok` is false when it reports an error. */
    method Close() returns (ok: bool)
      requires isOpen
      modifies this
      ensures !isOpen && ok == closes
      ensures log == old(log) + [Closed]
    {
      ok := closes;
      isOpen, log := false, log + [Closed];
    }
  }

  /** tpmTokenSource. */
  class TpmTokenSource {
    const refreshMutex: Mutex
    const tpm: string
    const email: string
    const audience: string
    const tpmHandle: Handle
    const keyId: string

    /** The configuration the source was built from. */
    function Fields(): (c: Config)
    {
      Config(tpm, email, audience, tpmHandle, keyId)
    }

    /** The struct literal: every field copied from the configuration, and
        a fresh, unlocked mutex. */
    constructor(c: Config)
      ensures Fields() == c
      ensures fresh(refreshMutex) && !refreshMutex.locked
    {
      refreshMutex := new Mutex();
      tpm, email, audience, tpmHandle, keyId := c.tpm, c.email, c.audience, c.tpmHandle, c.keyId;
    }

    /** The two deferred calls, in Go's last-in first-out order: close the
        TPM, discarding its error, then unlock. */
    method Release(dev: Tpm)
      requires dev.isOpen && refreshMutex.locked
      modifies dev, refreshMutex
      ensures !dev.isOpen && !refreshMutex.locked
      ensures dev.log == old(dev.log) + [Closed]
    {
      var _ := dev.Close();
      refreshMutex.Unlock();
    }

    /** Token(): the outcome is `TokenResult` whatever closing the TPM
        reports; the TPM is closed and the mutex released on every return,
        and the TPM sees the events of `SessionTrace`. */
    method Token(dev: Tpm, now: Instant, json: Marshaler, sha256: seq<byte> -> Digest)
      returns (tok: Option<OAuthToken>, err: Option<Error>)
      requires dev.path == tpm
      requires !refreshMutex.locked && !dev.isOpen
      modifies refreshMutex, dev
      ensures !refreshMutex.locked && !dev.isOpen
      ensures dev.log == old(dev.log) + SessionTrace(this, dev, now, json, sha256)
      ensures tok.Some? <==> err.None?
      ensures match TokenResult(this, dev, now, json, sha256)
        case Success(t) => tok == Some(t)
        case Failure(e) => err == Some(e)
    {
      refreshMutex.Lock();
      var ok := dev.Open();
      if !ok {
        refreshMutex.Unlock();
        return None, Some(OpenFailed);
      }
      var iat := now;
      var exp := Add(iat, Hour);
      var hdr := json.header(TpmHeader(keyId));
      if hdr.None? {
        Release(dev);
        return None, Some(MarshalHeaderFailed);
      }
      var cs := json.claimSet(TpmClaimSet(email, audience, iat, exp));
      if cs.None? {
        Release(dev);
        return None, Some(MarshalClaimSetFailed);
      }
      var j := SigningInput(hdr.value, cs.value);
      var digest := sha256(AsciiBytes(j));
      var sig := dev.Sign(tpmHandle, digest);
      if sig.None? {
        Release(dev);
        return None, Some(SignFailed);
      }
      var msg := CompactToken(j, sig.value);
      Release(dev);
      return Some(OAuthToken(msg, "Bearer", exp)), None;
    }
  }

  /** TpmTokenSource(tokenConfig): rejects a configuration with an empty
      device path, a zero key handle, an empty e-mail or an empty audience;
      the key id may be empty. */
  method NewTpmTokenSource(c: Config) returns (ts: TpmTokenSource?, err: Option<Error>)
    ensures err.Some? <==> c.tpm == "" || c.tpmHandle == 0 || c.email == "" || c.audience == ""
    ensures err.Some? ==> err == Some(ConfigInvalid) && ts == null
    ensures err.None? ==> ts != null && fresh(ts) && fresh(ts.refreshMutex)
    ensures err.None? ==> ts.Fields() == c && !ts.refreshMutex.locked
  {
    if c.tpm == "" || c.tpmHandle == 0 || c.email == "" || c.audience == "" {
      return null, Some(ConfigInvalid);
    }
    ts := new TpmTokenSource(c);
    err := None;
  }

  /** The signing input of google/tpm.go:114, or the marshalling error that
      stops `Token()` before it. */
  function SignedInput(ts: TpmTokenSource, now: Instant, json: Marshaler): (r: Result<string, Error>)
    ensures var hdr := json.header(Header("RS256", "JWT", ts.keyId));
      var cs := json.claimSet(ClaimSet(ts.email, ts.email, ts.audience, now.unix, now.unix + 3600));
      && (r == Failure(MarshalHeaderFailed) <==> hdr.None?)
      && (r == Failure(MarshalClaimSetFailed) <==> hdr.Some? && cs.None?)
      && (r.Success? <==> hdr.Some? && cs.Some?)
      && (r.Success? ==> IsAscii(r.value))
      && (r.Success? ==> Split(r.value, Separator) == [Encode(URLEncoding, hdr.value), Encode(URLEncoding, cs.value)])
  {
    match json.header(TpmHeader(ts.keyId))
    case None => Failure(MarshalHeaderFailed)
    case Some(hdr) =>
      match json.claimSet(TpmClaimSet(ts.email, ts.audience, now, Add(now, Hour)))
      case None => Failure(MarshalClaimSetFailed)
      case Some(cs) => Success(SigningInput(hdr, cs))
  }

  /** The outcome of `Token()` with the TPM `dev`, the clock reading `now`,
      the JSON encoder `json` and the hash `sha256`. */
  function TokenResult(ts: TpmTokenSource, dev: Tpm, now: Instant, json: Marshaler, sha256: seq<byte> -> Digest)
    : (r: Result<OAuthToken, Error>)
    ensures r.Success? <==>
      && dev.opens
      && SignedInput(ts, now, json).Success?
      && dev.signer(ts.tpmHandle, sha256(AsciiBytes(SignedInput(ts, now, json).value))).Some?
    ensures r.Success? ==>
      && r.value.tokenType == "Bearer"
      && r.value.expiry.unix == now.unix + 3600 && r.value.expiry.nanos == now.nanos
      && |SignedInput(ts, now, json).value| < |r.value.accessToken|
      && r.value.accessToken[..|SignedInput(ts, now, json).value|] == SignedInput(ts, now, json).value
    ensures r.Failure? ==> r.error != ConfigInvalid
  {
    if !dev.opens then Failure(OpenFailed)
    else
      match SignedInput(ts, now, json)
      case Failure(e) => Failure(e)
      case Success(j) =>
        match dev.signer(ts.tpmHandle, sha256(AsciiBytes(j)))
        case None => Failure(SignFailed)
        case Some(sig) => Success(OAuthToken(CompactToken(j, sig), "Bearer", Add(now, Hour)))
  }

  /** What the TPM sees during `Token()`. */
  function SessionTrace(ts: TpmTokenSource, dev: Tpm, now: Instant, json: Marshaler, sha256: seq<byte> -> Digest)
    : (t: seq<Event>)
    ensures t == [] <==> !dev.opens
    ensures t != [] ==> 2 <= |t| <= 3 && t[0] == Opened && t[|t| - 1] == Closed
    ensures |t| == 3 ==>
      && SignedInput(ts, now, json).Success?
      && t[1] == SignRequested(ts.tpmHandle, sha256(AsciiBytes(SignedInput(ts, now, json).value)))
  {
    if !dev.opens then []
    else
      [Opened]
      + (match SignedInput(ts, now, json)
         case Success(j) => [SignRequested(ts.tpmHandle, sha256(AsciiBytes(j)))]
         case Failure(_) => [])
      + [Closed]
  }

  /** A token that `Token()` returns is a bearer token of three dot-separated
      segments: the first decodes to the JSON of the fixed header, the second
      to the JSON of the claim set with the e-mail as issuer and subject, the
      configured audience, `iat` the clock reading and `exp` one hour later in
      whole seconds, which is also the token's expiry; the third decodes to
      the TPM's signature over the SHA-256 of the first two joined by a dot. */
  lemma IssuedToken(ts: TpmTokenSource, dev: Tpm, now: Instant, json: Marshaler, sha256: seq<byte> -> Digest)
    requires TokenResult(ts, dev, now, json, sha256).Success?
    ensures var t := TokenResult(ts, dev, now, json, sha256).value;
      var segs := Split(t.accessToken, Separator);
      && t.tokenType == "Bearer"
      && |segs| == 3
      && Decode(URLEncoding, segs[0]) == json.header(Header("RS256", "JWT", ts.keyId))
      && Decode(URLEncoding, segs[1]) == json.claimSet(ClaimSet(ts.email, ts.email, ts.audience, now.unix, t.expiry.unix))
      && t.expiry.unix - now.unix == 3600 && t.expiry.nanos == now.nanos
      && IsAscii(segs[0] + [Separator] + segs[1])
      && Decode(RawStdEncoding, segs[2]) == dev.signer(ts.tpmHandle, sha256(AsciiBytes(segs[0] + [Separator] + segs[1])))
  {
    var hdr := json.header(TpmHeader(ts.keyId)).value;
    var cs := json.claimSet(TpmClaimSet(ts.email, ts.audience, now, Add(now, Hour))).value;
    var j := SigningInput(hdr, cs);
    var sig := dev.signer(ts.tpmHandle, sha256(AsciiBytes(j))).value;
    TokenSegments(hdr, cs, sig);
  }

  /** Every failure names the first step of `Token()` that failed. */
  lemma FailedToken(ts: TpmTokenSource, dev: Tpm, now: Instant, json: Marshaler, sha256: seq<byte> -> Digest)
    ensures var r := TokenResult(ts, dev, now, json, sha256);
      var hdr := json.header(Header("RS256", "JWT", ts.keyId));
      var cs := json.claimSet(ClaimSet(ts.email, ts.email, ts.audience, now.unix, now.unix + 3600));
      && (r == Failure(OpenFailed) <==> !dev.opens)
      && (r == Failure(MarshalHeaderFailed) <==> dev.opens && hdr.None?)
      && (r == Failure(MarshalClaimSetFailed) <==> dev.opens && hdr.Some? && cs.None?)
      && (r == Failure(SignFailed) <==>
            && dev.opens && hdr.Some? && cs.Some?
            && dev.signer(ts.tpmHandle, sha256(AsciiBytes(SigningInput(hdr.value, cs.value)))).None?)
      && (r.Failure? ==> r.error != ConfigInvalid)
  {
  }

  /** Once the TPM has opened it is closed exactly once, as the last event,
      and it is asked to sign exactly once, in between, when both JSON
      structures were marshalled; if it does not open nothing happens on it. */
  lemma SessionBracketed(ts: TpmTokenSource, dev: Tpm, now: Instant, json: Marshaler, sha256: seq<byte> -> Digest)
    ensures var t := SessionTrace(ts, dev, now, json, sha256);
      && (t == [] <==> !dev.opens)
      && (t != [] ==> 2 <= |t| <= 3 && t[0] == Opened && t[|t| - 1] == Closed)
      && (t != [] ==> multiset(t)[Opened] == 1 && multiset(t)[Closed] == 1)
      && (forall i :: 0 < i < |t| - 1 ==> t[i].SignRequested?)
      && (|t| == 3 <==> dev.opens && SignedInput(ts, now, json).Success?)
      && (|t| == 3 ==>
            t[1] == SignRequested(ts.tpmHandle, sha256(AsciiBytes(SignedInput(ts, now, json).value))))
      && (TokenResult(ts, dev, now, json, sha256).Success? ==> |t| == 3)
  {
  }

  /** What closing the TPM reports changes neither the outcome nor what the
      TPM sees. */
  lemma CloseErrorIgnored(ts: TpmTokenSource, d1: Tpm, d2: Tpm, now: Instant, json: Marshaler, sha256: seq<byte> -> Digest)
    requires d1.opens == d2.opens && d1.signer == d2.signer
    ensures TokenResult(ts, d1, now, json, sha256) == TokenResult(ts, d2, now, json, sha256)
    ensures SessionTrace(ts, d1, now, json, sha256) == SessionTrace(ts, d2, now, json, sha256)
  {
  }
}
