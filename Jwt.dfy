/**
 * The token codec of JwtUtil: HS256-signed JWS compact tokens (section 7.1 of RFC 7515,
 * section 3.2 of RFC 7518) with the `sub`, `iat` and `exp` claims of RFC 7519 and, on
 * access tokens, a `roles` claim.
 *
 * Signing, base64url and JSON happen inside the JWT library and are not modelled: a token
 * is the value of its claims plus one flag, `authentic`, that says whether its signature
 * verifies under the service's key. Times, `iat` and `exp` included, are milliseconds since
 * the epoch; the library writes `iat` and `exp` as whole seconds, which this model does
 * not, so two tokens that differ here only below the second are one string there.
 */
module Jwt {
  import opened Wrappers

  const INT32_MIN: int := -0x8000_0000
  const INT32_MODULUS: int := 0x1_0000_0000

  /** Java `int` multiplication: the exact product wrapped into [-2^31, 2^31). */
  function JavaIntMul(a: int, b: int): (r: int)
    ensures INT32_MIN <= r < INT32_MIN + INT32_MODULUS
    ensures INT32_MIN <= a * b < INT32_MIN + INT32_MODULUS ==> r == a * b
  {
    (a * b - INT32_MIN) % INT32_MODULUS + INT32_MIN
  }

  /** `15 * 60 * 1000`, evaluated in `int` arithmetic and then widened to `long`. */
  const ACCESS_TOKEN_EXPIRATION: int := JavaIntMul(JavaIntMul(15, 60), 1000)

  /** `7 * 24 * 60 * 60 * 1000`, evaluated in `int` arithmetic and then widened to `long`. */
  const REFRESH_TOKEN_EXPIRATION: int :=
    JavaIntMul(JavaIntMul(JavaIntMul(JavaIntMul(7, 24), 60), 60), 1000)

  /** A signed token, seen through its claims. `roles == None` means the claim is absent. */
  datatype Token = Token(sub: string, roles: Option<set<string>>, iat: int, exp: int, authentic: bool)

  /** Why the parser rejects a token: a signature that does not verify, or an elapsed `exp`. */
  datatype JwtError = SignatureInvalid | Expired

  /**
   * The library parser `parseClaimsJws` at clock reading `now`: it verifies the signature
   * first and checks the expiry afterwards; a token is expired only once the current time
   * is after `exp`, so at the instant `exp` itself it still parses.
   */
  function Parse(token: Token, now: int): Result<Token, JwtError>
  {
    if !token.authentic then Err(SignatureInvalid)
    else if token.exp < now then Err(Expired)
    else Ok(token)
  }

  /** `generateAccessToken`: both reads of the clock are the one value `now`. */
  function GenerateAccessToken(username: string, roles: set<string>, now: int): Token
  {
    Token(username, Some(roles), now, now + ACCESS_TOKEN_EXPIRATION, true)
  }

  /** `generateRefreshToken`: no roles claim. */
  function GenerateRefreshToken(username: string, now: int): Token
  {
    Token(username, None, now, now + REFRESH_TOKEN_EXPIRATION, true)
  }

  /** `extractUsername`: the subject of a token that parses; the parser's error otherwise. */
  function ExtractUsername(token: Token, now: int): (r: Result<string, JwtError>)
    ensures r.Ok? <==> token.authentic && now <= token.exp
    ensures r.Ok? ==> r.value == token.sub
    ensures r.Err? ==> (r.error == SignatureInvalid <==> !token.authentic)
  {
    match Parse(token, now)
    case Ok(claims) => Ok(claims.sub)
    case Err(e) => Err(e)
  }

  /**
   * `extractRoles`: the roles claim as a set of strings; an absent claim gives the empty
   * set. It fails exactly where `extractUsername` fails, with the same error.
   */
  function ExtractRoles(token: Token, now: int): (r: Result<set<string>, JwtError>)
    ensures r.Err? <==> ExtractUsername(token, now).Err?
    ensures r.Err? ==> r.error == ExtractUsername(token, now).error
    ensures r.Ok? && token.roles.Some? ==> r.value == token.roles.value
    ensures r.Ok? && token.roles.None? ==> r.value == {}
  {
    match Parse(token, now)
    case Ok(claims) =>
      Ok(match claims.roles
         case Some(rs) => rs
         case None => {})
    case Err(e) => Err(e)
  }

  /** `validateToken`: catches every parser error and answers with a boolean. */
  function ValidateToken(token: Token, now: int): (valid: bool)
    ensures valid <==> ExtractUsername(token, now).Ok?
    ensures valid <==> token.authentic && now <= token.exp
  {
    match Parse(token, now)
    case Ok(_) => true
    case Err(_) => false
  }

  /** `getRefreshTokenExpiration`: the refresh lifetime in milliseconds, seven days. */
  function RefreshTokenExpiration(): (ms: int)
    ensures ms == 7 * 24 * 60 * 60 * 1000
  {
    REFRESH_TOKEN_EXPIRATION
  }

  /** Neither lifetime overflows `int`; the refresh token outlives the access token. */
  lemma LifetimeConstants()
    ensures ACCESS_TOKEN_EXPIRATION == 15 * 60 * 1000 == 900000
    ensures REFRESH_TOKEN_EXPIRATION == 7 * 24 * 60 * 60 * 1000 == 604800000
    ensures ACCESS_TOKEN_EXPIRATION < REFRESH_TOKEN_EXPIRATION
  {
  }

  /**
   * An access token carries its subject and its roles back out for as long as it lives,
   * and it lives exactly until issue time plus fifteen minutes, that instant included.
   */
  lemma AccessTokenRoundTrip(username: string, roles: set<string>, issued: int, now: int)
    ensures ValidateToken(GenerateAccessToken(username, roles, issued), now) <==> now <= issued + 900000
    ensures now <= issued + 900000 ==>
      ExtractUsername(GenerateAccessToken(username, roles, issued), now) == Ok(username) &&
      ExtractRoles(GenerateAccessToken(username, roles, issued), now) == Ok(roles)
    ensures now > issued + 900000 ==>
      ExtractUsername(GenerateAccessToken(username, roles, issued), now) == Err(Expired)
  {
  }

  /**
   * A refresh token carries its subject back out for seven days, has no roles claim,
   * and so yields the empty role set.
   */
  lemma RefreshTokenRoundTrip(username: string, issued: int, now: int)
    ensures GenerateRefreshToken(username, issued).roles.None?
    ensures ValidateToken(GenerateRefreshToken(username, issued), now) <==> now <= issued + 604800000
    ensures now <= issued + 604800000 ==>
      ExtractUsername(GenerateRefreshToken(username, issued), now) == Ok(username) &&
      ExtractRoles(GenerateRefreshToken(username, issued), now) == Ok({})
    ensures now > issued + 604800000 ==>
      ExtractUsername(GenerateRefreshToken(username, issued), now) == Err(Expired)
  {
  }

  /** A token whose signature does not verify is rejected whatever its claims say. */
  lemma ForgedTokenRejected(token: Token, now: int)
    requires !token.authentic
    ensures ExtractUsername(token, now) == Err(SignatureInvalid)
    ensures ExtractRoles(token, now) == Err(SignatureInvalid)
    ensures !ValidateToken(token, now)
  {
  }

  /** An access token and a refresh token are never the same token. */
  lemma AccessAndRefreshDiffer(u1: string, roles: set<string>, t1: int, u2: string, t2: int)
    ensures GenerateAccessToken(u1, roles, t1) != GenerateRefreshToken(u2, t2)
  {
  }

  /** Two refresh tokens for one user are equal exactly when they were issued at the same instant. */
  lemma RefreshTokensDifferByIssueTime(username: string, t1: int, t2: int)
    ensures GenerateRefreshToken(username, t1) == GenerateRefreshToken(username, t2) <==> t1 == t2
  {
  }
}
