/**
 * Signed, timestamped cookies. A cookie value is the base64 of the payload,
 * the issue time in whole seconds and an HMAC signature, joined by `|`.
 * Setting signs with the first installed secret; reading accepts a
 * signature made by any of them. HMAC-SHA1 and base64 are parameters of the
 * model (`Codec`), as is the clock.
 */
module SecureCookies {

  import opened Wrappers
  import opened Strings
  import opened Numbers
  import opened Http
  import opened ApiErrors
  import Auth

  /** The hash and encoding the cookies rely on: `hmac(secret, message)` as a hex digest, and base64 both ways. */
  datatype Codec = Codec(hmac: (string, string) -> string, encode: string -> string, decode: string -> Option<string>)

  const SecondsPerDay: int := 86400

  /** `int(x)` on a float: truncation toward zero. */
  function Trunc(x: real): (t: int)
    ensures x >= 0.0 ==> t as real <= x < (t + 1) as real
    ensures x < 0.0 ==> (t - 1) as real < x <= t as real
  {
    if x >= 0.0 then x.Floor else -((-x).Floor)
  }

  /** One signature per secret, in the secrets' order. */
  function Signatures(secrets: seq<string>, hmac: (string, string) -> string, message: string): (r: seq<string>)
    ensures |r| == |secrets|
    ensures forall i :: 0 <= i < |secrets| ==> r[i] == hmac(secrets[i], message)
  {
    seq(|secrets|, i requires 0 <= i < |secrets| => hmac(secrets[i], message))
  }

  /** `_cookie_signature`: `None` when no secrets are installed (iterating them raises). */
  method CookieSignature(cfg: Auth.AuthConfig, hmac: (string, string) -> string, parts: seq<string>)
    returns (r: Option<seq<string>>)
    ensures cfg.secrets.None? <==> r.None?
    ensures r.Some? ==> r.value == Signatures(cfg.secrets.value, hmac, Concat(parts))
  {
    if cfg.secrets.None? {
      return None;
    }
    var secrets := cfg.secrets.value;
    var sigs: seq<string> := [];
    var i := 0;
    while i < |secrets|
      invariant 0 <= i <= |secrets|
      invariant |sigs| == i
      invariant forall j :: 0 <= j < i ==> sigs[j] == hmac(secrets[j], Concat(parts))
    {
      sigs := sigs + [hmac(secrets[i], Concat(parts))];
      i := i + 1;
    }
    return Some(sigs);
  }

  /** The cookie value `set_secure_cookie` builds for `payload` issued at second `issued`. */
  function SignedValue(secret: string, codec: Codec, payload: string, issued: int): string
  {
    var b := codec.encode(payload);
    var ts := IntString(issued);
    Join([b, ts, codec.hmac(secret, Concat([b, ts]))], '|')
  }

  /** What `get_secure_cookie` gives back. */
  datatype CookieRead =
    | NoCookie
    | Valid(payload: string)
    | Refused(kind: ErrorKind)
    | Raised

  /** Whether a cookie issued at `issued` is past its lifetime at time `now`. */
  predicate IsExpired(issued: int, now: real, days: int)
  {
    (issued as real) < now - (days * SecondsPerDay) as real
  }

  /**
   * `get_secure_cookie`: an absent or empty cookie, or one without exactly
   * three fields, reads as nothing; a signature no secret produces for the
   * first two fields is refused as invalid; a validly signed cookie is
   * refused as expired past its lifetime and otherwise decodes to its
   * payload. An unparsable timestamp, undecodable payload or missing secrets
   * raise.
   */
  function ReadCookie(cookies: map<string, string>, name: string, secrets: Option<seq<string>>, codec: Codec,
                      now: real, days: int): CookieRead
  {
    if name !in cookies || cookies[name] == "" then NoCookie
    else
      var parts := Split(cookies[name], '|');
      if |parts| != 3 then NoCookie
      else if secrets.None? then Raised
      else if parts[2] !in Signatures(secrets.value, codec.hmac, Concat([parts[0], parts[1]])) then
        Refused(InvalidSecureCookie(name, parts[2]))
      else match ParseInt(parts[1])
        case None => Raised
        case Some(issued) =>
          if IsExpired(issued, now, days) then Refused(ExpiredSecureCookie(name))
          else match codec.decode(parts[0])
            case None => Raised
            case Some(payload) => Valid(payload)
  }

  /** The request after a read: a refused cookie constructs (and counts) its error. */
  function ReadState(st: RequestState, r: CookieRead): RequestState
  {
    if r.Refused? then AfterError(st, Describe(r.kind), Status(r.kind)) else st
  }

  method GetSecureCookie(cfg: Auth.AuthConfig, req: Request, name: string, codec: Codec, now: real, days: int)
    returns (r: CookieRead)
    modifies req
    ensures r == ReadCookie(req.receivedCookies, name, cfg.secrets, codec, now, days)
    ensures req.State() == ReadState(old(req.State()), r)
  {
    if name !in req.receivedCookies || req.receivedCookies[name] == "" {
      return NoCookie;
    }
    var parts := Split(req.receivedCookies[name], '|');
    if |parts| != 3 {
      return NoCookie;
    }
    var sigs := CookieSignature(cfg, codec.hmac, [parts[0], parts[1]]);
    if sigs.None? {
      return Raised;
    }
    var i := 0;
    while i < |sigs.value|
      invariant 0 <= i <= |sigs.value|
      invariant forall j :: 0 <= j < i ==> sigs.value[j] != parts[2]
    {
      if sigs.value[i] == parts[2] {
        var ts := ParseInt(parts[1]);
        if ts.None? {
          return Raised;
        }
        if IsExpired(ts.value, now, days) {
          var _ := Raise(req, ExpiredSecureCookie(name));
          return Refused(ExpiredSecureCookie(name));
        }
        var payload := codec.decode(parts[0]);
        if payload.None? {
          return Raised;
        }
        return Valid(payload.value);
      }
      i := i + 1;
    }
    var _ := Raise(req, InvalidSecureCookie(name, parts[2]));
    return Refused(InvalidSecureCookie(name, parts[2]));
  }

  /**
   * `set_secure_cookie`: signs the payload with the first secret and the
   * current second, and adds the cookie. Raises (and adds nothing) when no
   * secret is installed. The expiry date text is a parameter.
   */
  method SetSecureCookie(cfg: Auth.AuthConfig, req: Request, name: string, payload: string, codec: Codec,
                         now: real, expires: string, path: string) returns (raised: bool)
    modifies req
    ensures raised <==> cfg.secrets.None? || |cfg.secrets.value| == 0
    ensures raised ==> req.State() == old(req.State())
    ensures !raised ==> req.State() == old(req.State()).(cookies := old(req.cookies) +
      [Cookie(name, SignedValue(cfg.secrets.value[0], codec, payload, Trunc(now)), expires, path)])
  {
    var ts := IntString(Trunc(now));
    var b := codec.encode(payload);
    var sigs := CookieSignature(cfg, codec.hmac, [b, ts]);
    if sigs.None? || |sigs.value| == 0 {
      return true;
    }
    req.AddCookie(Cookie(name, Join([b, ts, sigs.value[0]], '|'), expires, path));
    return false;
  }

  lemma NoBarInInt(n: int)
    ensures '|' !in IntString(n)
  {
    var d := NatString(if n < 0 then -n else n);
    assert forall k :: 0 <= k < |d| ==> d[k] != '|';
  }

  /**
   * A cookie signed with any installed secret reads back as its payload
   * while within its lifetime and is refused as expired after it, provided
   * base64 decodes what it encoded and neither it nor the signature
   * contains `|`.
   */
  lemma CookieRoundTrip(secret: string, secrets: seq<string>, codec: Codec, cookies: map<string, string>,
                        name: string, payload: string, issued: int, now: real, days: int)
    requires secret in secrets
    requires name in cookies && cookies[name] == SignedValue(secret, codec, payload, issued)
    requires codec.decode(codec.encode(payload)) == Some(payload)
    requires '|' !in codec.encode(payload)
    requires '|' !in codec.hmac(secret, Concat([codec.encode(payload), IntString(issued)]))
    ensures ReadCookie(cookies, name, Some(secrets), codec, now, days) ==
      if IsExpired(issued, now, days) then Refused(ExpiredSecureCookie(name)) else Valid(payload)
  {
    var b := codec.encode(payload);
    var ts := IntString(issued);
    var sig := codec.hmac(secret, Concat([b, ts]));
    SignedParts(secret, codec, payload, issued);
    assert [b, ts, sig][2] == sig && [b, ts, sig][0] == b && [b, ts, sig][1] == ts;
    ParseIntString(issued);
    var i :| 0 <= i < |secrets| && secrets[i] == secret;
    assert Signatures(secrets, codec.hmac, Concat([b, ts]))[i] == sig;
  }

  /** The signed value splits back into its three fields and is never empty. */
  lemma SignedParts(secret: string, codec: Codec, payload: string, issued: int)
    requires '|' !in codec.encode(payload)
    requires '|' !in codec.hmac(secret, Concat([codec.encode(payload), IntString(issued)]))
    ensures var b := codec.encode(payload);
      var ts := IntString(issued);
      Split(SignedValue(secret, codec, payload, issued), '|') == [b, ts, codec.hmac(secret, Concat([b, ts]))] &&
      SignedValue(secret, codec, payload, issued) != ""
  {
    var b := codec.encode(payload);
    var ts := IntString(issued);
    var parts := [b, ts, codec.hmac(secret, Concat([b, ts]))];
    NoBarInInt(issued);
    SplitJoin(parts, '|');
    assert |Split("", '|')| == 1;
  }
}
