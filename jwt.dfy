/**
 * The session token (src/util/jwt.rs): a JWT whose claims map names the user
 * (`sub`), the time it was issued (`iat`) and the time it expires (`exp`),
 * ninety days later.
 *
 * The HMAC-SHA256 signature and the token's compact text form belong to the
 * hmac and jwt crates, which are not part of this model: a signed token is
 * the claims together with the secret that signed them, and verifying with a
 * secret succeeds exactly when it is that secret, as an unforgeable MAC
 * promises. Times are integer seconds, written and read by the `formatTime`
 * and `parseTime` parameters that stand for chrono's RFC 3339 rendering and
 * parsing; the clock is the parameter `now`.
 */
module Jwt {
  import opened Common
  import opened Errors

  const ExpirationDays: nat := 90
  const SecondsPerDay: nat := 86400
  /** `Duration::days(JWT_EXPIRATION_DAYS)` in seconds. */
  const Lifetime: nat := ExpirationDays * SecondsPerDay

  const UserClaim := "sub"
  const IssuedClaim := "iat"
  const ExpirationClaim := "exp"

  type Claims = map<string, string>

  /** A token: the claims and the secret whose MAC it carries. */
  datatype SignedToken = SignedToken(claims: Claims, signer: string)

  /** `claims.sign_with_key(&key)` with the key made from `secret`. */
  function SignWithKey(secret: string, claims: Claims): SignedToken {
    SignedToken(claims, secret)
  }

  /**
   * `extract_claims` (src/util/jwt.rs:31-34): the claims of a token whose
   * signature the secret's key verifies.
   */
  function ExtractClaims(secret: string, token: SignedToken): (r: Result<Claims, Error>)
    ensures r.Ok? <==> token.signer == secret
    ensures r.Ok? ==> r.value == token.claims
  {
    if token.signer == secret then Ok(token.claims) else Err(JwtSignatureError)
  }

  /** The claims `sign_jwt` signs for `userId` at time `now`. */
  function SessionClaims(userId: string, now: int, formatTime: int -> string): Claims {
    map[UserClaim := userId, IssuedClaim := formatTime(now), ExpirationClaim := formatTime(now + Lifetime)]
  }

  /**
   * `sign_jwt` (src/util/jwt.rs:15-28): the claims map is built by three
   * inserts, then signed.
   */
  method SignJwt(secret: string, userId: string, now: int, formatTime: int -> string) returns (token: SignedToken)
    ensures token.claims.Keys == {UserClaim, IssuedClaim, ExpirationClaim}
    ensures token.claims[UserClaim] == userId
    ensures token.claims[IssuedClaim] == formatTime(now)
    ensures token.claims[ExpirationClaim] == formatTime(now + Lifetime)
    ensures token == SignWithKey(secret, SessionClaims(userId, now, formatTime))
  {
    var claims: Claims := map[];
    claims := claims[UserClaim := userId];
    claims := claims[IssuedClaim := formatTime(now)];
    claims := claims[ExpirationClaim := formatTime(now + Lifetime)];
    token := SignWithKey(secret, claims);
  }

  /**
   * `verify_jwt` (src/util/jwt.rs:37-55): the signature first, then the
   * expiry, then the subject. A token that expires exactly now is still
   * accepted.
   */
  function VerifyJwt(secret: string, token: SignedToken, now: int, parseTime: string -> Option<int>): (r: Result<string, Error>)
    ensures ExtractClaims(secret, token).Err? ==> r == Err(JwtSignatureError)
    ensures ExtractClaims(secret, token).Ok? && ExpirationClaim !in token.claims ==> r == Err(InvalidJwt)
    ensures ExtractClaims(secret, token).Ok? && ExpirationClaim in token.claims
            && parseTime(token.claims[ExpirationClaim]).None? ==>
      r == Err(ChronoParseError(token.claims[ExpirationClaim]))
    ensures token.signer == secret && ExpirationClaim in token.claims
            && parseTime(token.claims[ExpirationClaim]).Some? && parseTime(token.claims[ExpirationClaim]).value < now ==>
      r == Err(JwtExpired)
    ensures token.signer == secret && ExpirationClaim in token.claims
            && parseTime(token.claims[ExpirationClaim]).Some? && now <= parseTime(token.claims[ExpirationClaim]).value
            && UserClaim !in token.claims ==>
      r == Err(InvalidJwt)
    ensures r.Ok? <==>
      && token.signer == secret
      && ExpirationClaim in token.claims && UserClaim in token.claims
      && parseTime(token.claims[ExpirationClaim]).Some?
      && now <= parseTime(token.claims[ExpirationClaim]).value
    ensures r.Ok? ==> r.value == token.claims[UserClaim]
  {
    var claims :- ExtractClaims(secret, token);
    if ExpirationClaim !in claims then Err(InvalidJwt)
    else match parseTime(claims[ExpirationClaim])
      case None => Err(ChronoParseError(claims[ExpirationClaim]))
      case Some(expires) =>
        if expires < now then Err(JwtExpired)
        else if UserClaim !in claims then Err(InvalidJwt)
        else Ok(claims[UserClaim])
  }

  /**
   * The expiry is checked before the subject: an expired token that names no
   * user reports that it expired.
   */
  lemma {:induction false} ExpiryBeforeSubject(secret: string, claims: Claims, now: int, parseTime: string -> Option<int>)
    requires ExpirationClaim in claims && UserClaim !in claims
    requires parseTime(claims[ExpirationClaim]).Some? && parseTime(claims[ExpirationClaim]).value < now
    ensures VerifyJwt(secret, SignWithKey(secret, claims), now, parseTime) == Err(JwtExpired)
  {
    assert ExtractClaims(secret, SignWithKey(secret, claims)) == Ok(claims);
  }

  /**
   * Round trip: a token signed at `issued` verifies with the same secret to
   * the user it was signed for until ninety days later, and from then on
   * reports that it expired; any other secret is refused.
   */
  lemma {:induction false} SignThenVerify(secret: string, other: string, userId: string, issued: int, now: int,
                                          parseTime: string -> Option<int>, formatTime: int -> string)
    requires parseTime(formatTime(issued + Lifetime)) == Some(issued + Lifetime)
    requires other != secret
    ensures now <= issued + Lifetime ==>
      VerifyJwt(secret, SignWithKey(secret, SessionClaims(userId, issued, formatTime)), now, parseTime) == Ok(userId)
    ensures now > issued + Lifetime ==>
      VerifyJwt(secret, SignWithKey(secret, SessionClaims(userId, issued, formatTime)), now, parseTime) == Err(JwtExpired)
    ensures VerifyJwt(other, SignWithKey(secret, SessionClaims(userId, issued, formatTime)), now, parseTime)
      == Err(JwtSignatureError)
  {
    var claims := SessionClaims(userId, issued, formatTime);
    assert claims[ExpirationClaim] == formatTime(issued + Lifetime);
    assert claims[UserClaim] == userId;
    assert ExtractClaims(secret, SignWithKey(secret, claims)) == Ok(claims);
  }
}
