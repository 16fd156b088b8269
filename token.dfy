/** The HS256 token service (internal/adapters/token/jwt_service.go): which claims
    it signs, and how it turns the claims of a parsed token back into a payload.
    The JWT package itself (HMAC signing, header and signature checks, the
    library's own expiry check) is not looked into: it is the pair of functions
    in `JwtLibrary`. */
module Token {
  import opened Domain

  /** A claim as the JSON decoder hands it back: a string, a number, or anything else. */
  datatype ClaimValue = Str(s: string) | Num(n: int) | OtherJson

  type Claims = map<string, ClaimValue>

  /** What the parser reports: an error, or a token with its validity and claims. */
  datatype Parsed = ParseError | Parsed(valid: bool, claims: Claims)

  /** The JWT package: `sign(alg, claims, key)` and `parse(token, key)`. */
  datatype JwtLibrary = JwtLibrary(
    sign: (string, Claims, string) -> Option<string>,
    parse: (string, string) -> Parsed)

  const HS256: string := "HS256"

  /** The service's configuration: signing secret and access-token lifetime (nanoseconds). */
  datatype Service = Service(secretKey: string, accessTTL: int, lib: JwtLibrary)

  /** `time.Time.Unix()`: whole seconds, rounded down. */
  function UnixSeconds(t: int): int
  {
    t / NanosPerSecond
  }

  function GeneratedClaims(userID: string, role: Role, iat: int, exp: int): Claims
  {
    map["sub" := Str(userID), "role" := Str(role), "exp" := Num(exp), "iat" := Num(iat)]
  }

  /** A signed token with the issue and expiry times it carries (Unix seconds).
      The service itself returns only the token and the expiry; the issue time is
      returned here as well because the login use case reads one. */
  datatype Issued = Issued(token: string, issuedAt: int, expiresAt: int)

  /** `Generate` at clock reading `now`: signs `sub`, `role`, `iat` and `exp` with
      HS256 under the configured secret; `exp` is `now + accessTTL` in seconds. */
  function Generate(svc: Service, userID: string, role: Role, now: int): (r: Result<Issued>)
    ensures r.Ok? ==>
      && r.value.issuedAt == UnixSeconds(now)
      && r.value.expiresAt == UnixSeconds(now + svc.accessTTL)
      && svc.lib.sign(HS256, GeneratedClaims(userID, role, r.value.issuedAt, r.value.expiresAt), svc.secretKey)
         == Some(r.value.token)
    ensures r.Err? <==>
      svc.lib.sign(HS256, GeneratedClaims(userID, role, UnixSeconds(now), UnixSeconds(now + svc.accessTTL)), svc.secretKey).None?
  {
    var iat := UnixSeconds(now);
    var exp := UnixSeconds(now + svc.accessTTL);
    match svc.lib.sign(HS256, GeneratedClaims(userID, role, iat, exp), svc.secretKey)
    case None => Err(Failure("signing failed"))
    case Some(signed) => Ok(Issued(signed, iat, exp))
  }

  /** The expiry is the issue time plus the lifetime, in whole seconds; a lifetime
      that is not a whole number of seconds can add one more second. */
  lemma GenerateExpiry(svc: Service, userID: string, role: Role, now: int)
    requires svc.accessTTL >= 0
    requires Generate(svc, userID, role, now).Ok?
    ensures var g := Generate(svc, userID, role, now).value;
      g.issuedAt + svc.accessTTL / NanosPerSecond <= g.expiresAt <= g.issuedAt + svc.accessTTL / NanosPerSecond + 1
    ensures var g := Generate(svc, userID, role, now).value;
      svc.accessTTL % NanosPerSecond == 0 ==> g.expiresAt == g.issuedAt + svc.accessTTL / NanosPerSecond
  {
    var N := NanosPerSecond;
    var a, b := now / N, svc.accessTTL / N;
    assert N * a <= now < N * a + N;
    assert N * b <= svc.accessTTL < N * b + N;
    var e := (now + svc.accessTTL) / N;
    assert N * e <= now + svc.accessTTL < N * e + N;
    assert a + b <= e <= a + b + 1;
    if svc.accessTTL % N == 0 {
      assert svc.accessTTL == N * b;
      assert e == a + b;
    }
  }

  predicate HasString(claims: Claims, key: string)
  {
    key in claims && claims[key].Str?
  }

  predicate HasNumber(claims: Claims, key: string)
  {
    key in claims && claims[key].Num?
  }

  /** `validatePayload`: `sub` must be a string, then `role` a string, then `exp`
      a number; the first check that fails names its claim. */
  function ValidatePayload(claims: Claims): (err: Option<Error>)
    ensures err.None? <==> HasString(claims, "sub") && HasString(claims, "role") && HasNumber(claims, "exp")
    ensures err == Some(Failure("missing sub claim")) <==> !HasString(claims, "sub")
    ensures err == Some(Failure("missing role claim")) <==> HasString(claims, "sub") && !HasString(claims, "role")
    ensures err == Some(Failure("missing exp claim")) <==>
      HasString(claims, "sub") && HasString(claims, "role") && !HasNumber(claims, "exp")
  {
    if !HasString(claims, "sub") then Some(Failure("missing sub claim"))
    else if !HasString(claims, "role") then Some(Failure("missing role claim"))
    else if !HasNumber(claims, "exp") then Some(Failure("missing exp claim"))
    else None
  }

  /** `Validate`: the parser always gets the configured secret as key, whatever
      algorithm the token declares; a parse error or an invalid token is one
      opaque error, a bad claim set the error of `validatePayload`. The payload
      carries `sub`, `role` and `exp`, no e-mail and no issue time. */
  function Validate(svc: Service, token: string): (r: Result<TokenPayload>)
    ensures var p := svc.lib.parse(token, svc.secretKey);
      r.Ok? <==> p.Parsed? && p.valid && ValidatePayload(p.claims).None?
    ensures var p := svc.lib.parse(token, svc.secretKey);
      (p.ParseError? || !p.valid) ==> r == Err(Failure("invalid token"))
    ensures var p := svc.lib.parse(token, svc.secretKey);
      r.Ok? ==> r.value == TokenPayload(p.claims["sub"].s, "", p.claims["role"].s, 0, p.claims["exp"].n)
  {
    match svc.lib.parse(token, svc.secretKey)
    case ParseError => Err(Failure("invalid token"))
    case Parsed(valid, claims) =>
      if !valid then Err(Failure("invalid token"))
      else match ValidatePayload(claims)
        case Some(e) => Err(e)
        case None => Ok(TokenPayload(claims["sub"].s, "", claims["role"].s, 0, claims["exp"].n))
  }

  /** Round trip: when the parser accepts a token that `Generate` signed and gives
      back the claims that were signed, `Validate` returns the subject, the role and
      the expiry `Generate` reported. */
  lemma GenerateValidateRoundTrip(svc: Service, userID: string, role: Role, now: int)
    requires Generate(svc, userID, role, now).Ok?
    requires var g := Generate(svc, userID, role, now).value;
      svc.lib.parse(g.token, svc.secretKey) == Parsed(true, GeneratedClaims(userID, role, g.issuedAt, g.expiresAt))
    ensures var g := Generate(svc, userID, role, now).value;
      Validate(svc, g.token) == Ok(TokenPayload(userID, "", role, 0, g.expiresAt))
  {
  }
}
