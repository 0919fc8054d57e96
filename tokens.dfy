/**
 * Token claim construction and signing (middleware/generateTokens.go). Signing and
 * verification belong to the JWT library and are parameters here: a `Signer` stands for
 * `jwt.NewWithClaims(method, claims).SignedString(key)` and a `Verifier` for
 * `jwt.ParseWithClaims` with the key function the gate passes it.
 */
module Tokens {
  import opened Base
  import opened Models

  /**
   * The claims of both token kinds: the subject id ("sub"), the username, the admin
   * flag and the registered "exp" claim (section 4.1.4 of RFC 7519), in Unix seconds.
   */
  datatype Claims = Claims(userID: nat, username: string, isAdmin: bool, expiresAt: int)

  /** The JWS algorithms a token header can name; the generators use HS256 (section 3.2 of RFC 7518). */
  datatype SigningMethod = HS256 | HS384 | HS512 | RS256 | ES256 | NoneAlg

  predicate IsHMAC(m: SigningMethod) { m == HS256 || m == HS384 || m == HS512 }

  datatype SignResult = Signed(token: string) | SignFailed(reason: string)

  /** `SignedString`: the compact serialisation of `claims` signed with `key` under a method. */
  type Signer = (SigningMethod, Claims, string) -> SignResult

  /**
   * The bits of the JWT library's `ValidationError.Errors`. A token signed with a
   * non-HMAC method is refused by the gate's key function, which the library reports as
   * `Unverifiable`.
   */
  datatype ValidationFlag = Malformed | Unverifiable | SignatureInvalid | Expired | NotValidYet | ClaimsInvalid

  /**
   * What `ParseWithClaims` gives back: no error, with the decoded claims and the token's
   * `Valid` flag, or a validation error carrying its set of flags.
   */
  datatype Verification = Verified(claims: Claims, valid: bool) | Rejected(errors: set<ValidationFlag>)

  /** `ParseWithClaims(token, &Claims{}, keyFunc)` with the key named by the key function, at a given time. */
  type Verifier = (string, string, int) -> Verification

  /** Access tokens live one hour and refresh tokens thirty days (in seconds). */
  const AccessLifetime: int := 3600
  const RefreshLifetime: int := 30 * 24 * 3600

  const AccessSecretKey := "ACCESS_SECRET_KEY"
  const RefreshSecretKey := "REFRESH_SECRET_KEY"

  datatype TokenError = SecretUnset(key: string) | SigningFailed(reason: string)

  /** The Go result `(signedToken, err)`. */
  datatype TokenResult = TokenResult(token: string, err: Option<TokenError>)

  /** The claims both generators build for `user`, differing only in their expiry. */
  function UserClaims(user: User, expiresAt: int): Claims
  {
    Claims(user.id, user.username, user.isAdmin, expiresAt)
  }

  /** Read the secret under `secretKey`, refuse an empty one, and sign `claims` with HS256. */
  function SignWithSecret(claims: Claims, secretKey: string, env: Env, sign: Signer): TokenResult
  {
    var secret := Getenv(env, secretKey);
    if secret == "" then TokenResult("", Some(SecretUnset(secretKey)))
    else
      match sign(HS256, claims, secret)
      case SignFailed(reason) => TokenResult("", Some(SigningFailed(reason)))
      case Signed(token) => TokenResult(token, None)
  }

  /** `GenerateToken`: an access token for `user`, issued at `now`. */
  function GenerateToken(user: User, now: int, env: Env, sign: Signer): (r: TokenResult)
    ensures Getenv(env, AccessSecretKey) == "" ==> r == TokenResult("", Some(SecretUnset(AccessSecretKey)))
    ensures r.err.Some? ==> r.token == ""
    ensures r.err.None? <==>
      Getenv(env, AccessSecretKey) != "" &&
      sign(HS256, Claims(user.id, user.username, user.isAdmin, now + 3600), Getenv(env, AccessSecretKey)).Signed?
    ensures r.err.None? ==>
      Signed(r.token) == sign(HS256, Claims(user.id, user.username, user.isAdmin, now + 3600), Getenv(env, AccessSecretKey))
  {
    SignWithSecret(UserClaims(user, now + AccessLifetime), AccessSecretKey, env, sign)
  }

  /** `GenerateRefreshToken`: a refresh token for `user`, issued at `now`. */
  function GenerateRefreshToken(user: User, now: int, env: Env, sign: Signer): (r: TokenResult)
    ensures Getenv(env, RefreshSecretKey) == "" ==> r == TokenResult("", Some(SecretUnset(RefreshSecretKey)))
    ensures r.err.Some? ==> r.token == ""
    ensures r.err.None? <==>
      Getenv(env, RefreshSecretKey) != "" &&
      sign(HS256, Claims(user.id, user.username, user.isAdmin, now + 2592000), Getenv(env, RefreshSecretKey)).Signed?
    ensures r.err.None? ==>
      Signed(r.token) == sign(HS256, Claims(user.id, user.username, user.isAdmin, now + 2592000), Getenv(env, RefreshSecretKey))
  {
    SignWithSecret(UserClaims(user, now + RefreshLifetime), RefreshSecretKey, env, sign)
  }

  /** With an empty secret the signer is never consulted: any two signers give the same result. */
  lemma EmptySecretSignsNothing(user: User, now: int, env: Env, sign1: Signer, sign2: Signer)
    ensures Getenv(env, AccessSecretKey) == "" ==>
      GenerateToken(user, now, env, sign1) == GenerateToken(user, now, env, sign2)
    ensures Getenv(env, RefreshSecretKey) == "" ==>
      GenerateRefreshToken(user, now, env, sign1) == GenerateRefreshToken(user, now, env, sign2)
  {
  }

  /**
   * The two generators sign the same identity claims, and only the expiry and the secret
   * differ: each generator signs with its own secret.
   */
  lemma GeneratorsDifferOnlyInExpiryAndSecret(user: User, now: int, env: Env, sign: Signer)
    requires GenerateToken(user, now, env, sign).err.None?
    requires GenerateRefreshToken(user, now, env, sign).err.None?
    ensures exists access: Claims, refresh: Claims ::
      && Signed(GenerateToken(user, now, env, sign).token) == sign(HS256, access, Getenv(env, AccessSecretKey))
      && Signed(GenerateRefreshToken(user, now, env, sign).token) == sign(HS256, refresh, Getenv(env, RefreshSecretKey))
      && access.(expiresAt := 0) == refresh.(expiresAt := 0)
      && refresh.expiresAt - access.expiresAt == RefreshLifetime - AccessLifetime
      && access.userID == user.id && access.username == user.username && access.isAdmin == user.isAdmin
  {
    var access := UserClaims(user, now + AccessLifetime);
    var refresh := UserClaims(user, now + RefreshLifetime);
    assert access.(expiresAt := 0) == refresh.(expiresAt := 0);
  }
}
