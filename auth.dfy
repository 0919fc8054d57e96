/**
 * The authentication gate (middleware/auth.go): pick the access token, verify it, and
 * on an expiry-only failure fall back to the refresh token; end by continuing with the
 * identity written into the request context, or by aborting with one JSON error.
 */
module Auth {
  import opened Base
  import opened Http
  import opened Models
  import opened Tokens
  import opened Cookies

  const BearerPrefix := "Bearer "

  /**
   * The access token: the `access_token` cookie whenever the request has one (even an
   * empty one); otherwise the `Authorization` header with its "Bearer " prefix removed
   * once (section 2.1 of RFC 6750); otherwise "".
   */
  function SelectToken(req: Request): (t: string)
    ensures "access_token" in req.cookies ==> t == req.cookies["access_token"]
    ensures "access_token" !in req.cookies && HasPrefix(Header(req, "Authorization"), BearerPrefix) ==>
      Header(req, "Authorization") == BearerPrefix + t
    ensures "access_token" !in req.cookies && !HasPrefix(Header(req, "Authorization"), BearerPrefix) ==> t == ""
  {
    if "access_token" in req.cookies then req.cookies["access_token"]
    else
      var header := Header(req, "Authorization");
      if HasPrefix(header, BearerPrefix) then header[|BearerPrefix|..] else ""
  }

  /** The outcome of verifying the selected access token under ACCESS_SECRET_KEY. */
  function AccessCheck(req: Request, env: Env, now: int, verify: Verifier): Verification
  {
    verify(SelectToken(req), Getenv(env, AccessSecretKey), now)
  }

  /** The refresh token cookie passes verification under REFRESH_SECRET_KEY. */
  predicate RefreshAccepted(req: Request, env: Env, now: int, verify: Verifier)
  {
    "refresh_token" in req.cookies &&
    verify(req.cookies["refresh_token"], Getenv(env, RefreshSecretKey), now).Verified?
  }

  /** The claims of an accepted refresh token. */
  function RefreshClaims(req: Request, env: Env, now: int, verify: Verifier): Claims
    requires RefreshAccepted(req, env, now, verify)
  {
    verify(req.cookies["refresh_token"], Getenv(env, RefreshSecretKey), now).claims
  }

  /** `ctx.Set("userID", id)` then `ctx.Set("isAdmin", isAdmin)`. */
  function WithIdentity(ctx: Context, id: CtxValue, isAdmin: bool): (r: Context)
    ensures r.Keys == ctx.Keys + {"userID", "isAdmin"}
    ensures r["userID"] == id && r["isAdmin"] == Flag(isAdmin)
  {
    ctx["userID" := id]["isAdmin" := Flag(isAdmin)]
  }

  /** The fresh `access_token` cookie the refresh path sets: one hour, path "/", gin's default SameSite. */
  function RefreshedCookie(token: string, settings: CookieSettings): Cookie
  {
    Cookie("access_token", token, 3600 * 1, "/", settings.domain, settings.secure, settings.httpOnly, DefaultMode)
  }

  /**
   * The refresh path, entered only when the access token failed with exactly "expired".
   * As written (`fromClaims` false) it mints the new access token for a zero-valued user
   * and stores that user's `ID`, a Go `int`; with `fromClaims` it uses the identity of the
   * verified refresh claims, whose `UserID` is a `uint`.
   */
  function Refresh(req: Request, ctx: Context, env: Env, now: int, verify: Verifier, sign: Signer,
                   fromClaims: bool): (r: Step)
    ensures !r.Panic?
    ensures !RefreshAccepted(req, env, now, verify) ==> r.Abort? && r.status == 401
    // with an accepted refresh token: 500 when minting fails, the process ends when the
    // cookie settings fail, and otherwise one fresh access cookie with the configured attributes
    ensures RefreshAccepted(req, env, now, verify) ==>
      var user := if fromClaims then ClaimsUser(RefreshClaims(req, env, now, verify)) else ZeroUser;
      var minted := GenerateToken(user, now, env, sign);
      var settings := GetCookieSettings(env);
      && (minted.err.Some? ==> r == Abort(500, "Could not generate token"))
      && (minted.err.None? && settings.err.Some? ==> r.Fatal?)
      && (minted.err.None? && settings.err.None? ==>
            r.Next? && r.cookies == [Cookie("access_token", minted.token, 3600, "/", settings.domain,
                                            settings.secure, settings.httpOnly, DefaultMode)])
    ensures r.Abort? ==> r.status == 401 || (r.status == 500 && r.error == "Could not generate token")
    ensures r.Fatal? ==> GetCookieSettings(env).err.Some?
    ensures r.Next? ==> RefreshAccepted(req, env, now, verify)
    ensures r.Next? && !fromClaims ==> r.ctx == WithIdentity(ctx, IntId(0), false)
    ensures r.Next? && fromClaims ==>
      var claims := RefreshClaims(req, env, now, verify);
      r.ctx == WithIdentity(ctx, UintId(claims.userID), claims.isAdmin)
  {
    if "refresh_token" !in req.cookies then Abort(401, "Refresh token not provided")
    else
      match verify(req.cookies["refresh_token"], Getenv(env, RefreshSecretKey), now)
      case Rejected(_) => Abort(401, "Invalid refresh token")
      case Verified(refreshClaims, _) =>
        var user := if fromClaims then ClaimsUser(refreshClaims) else ZeroUser;
        var minted := GenerateToken(user, now, env, sign);
        if minted.err.Some? then Abort(500, "Could not generate token")
        else
          var settings := GetCookieSettings(env);
          if settings.err.Some? then Fatal("Failed to parse environment variables")
          else
            var id := if fromClaims then UintId(refreshClaims.userID) else IntId(user.id);
            Next(WithIdentity(ctx, id, user.isAdmin), [RefreshedCookie(minted.token, settings)])
  }

  /** The gate's decision procedure; `fromClaims` chooses how the refresh path picks its user. */
  function Authenticate(req: Request, ctx: Context, env: Env, now: int, verify: Verifier, sign: Signer,
                        fromClaims: bool): (r: Step)
    ensures !r.Panic?
    ensures SelectToken(req) == "" <==> r == Abort(401, "Access token not provided")
    ensures SelectToken(req) != "" && AccessCheck(req, env, now, verify).Rejected? &&
            AccessCheck(req, env, now, verify).errors == {Expired} ==>
      r == Refresh(req, ctx, env, now, verify, sign, fromClaims)
    ensures r.Abort? ==> r.status == 401 || (r.status == 500 && r.error == "Could not generate token")
    ensures r.Fatal? ==> GetCookieSettings(env).err.Some?
  {
    var token := SelectToken(req);
    if token == "" then Abort(401, "Access token not provided")
    else
      match verify(token, Getenv(env, AccessSecretKey), now)
      case Rejected(errors) =>
        if errors == {Expired} then Refresh(req, ctx, env, now, verify, sign, fromClaims)
        else Abort(401, "Invalid or expired token")
      case Verified(claims, valid) =>
        if valid then Next(WithIdentity(ctx, UintId(claims.userID), claims.isAdmin), [])
        else Abort(401, "Invalid token claims")
  }

  /** `AuthMiddleware`, as written. */
  function AuthMiddleware(req: Request, ctx: Context, env: Env, now: int, verify: Verifier, sign: Signer): (r: Step)
    ensures !r.Panic?
    ensures SelectToken(req) == "" <==> r == Abort(401, "Access token not provided")
    // a verified, valid access token continues with exactly its claims' identity
    ensures SelectToken(req) != "" && AccessCheck(req, env, now, verify).Verified? ==>
      var v := AccessCheck(req, env, now, verify);
      r == if v.valid then Next(WithIdentity(ctx, UintId(v.claims.userID), v.claims.isAdmin), []) else Abort(401, "Invalid token claims")
    // any failure other than exactly "expired" is refused
    ensures SelectToken(req) != "" && AccessCheck(req, env, now, verify).Rejected? &&
            AccessCheck(req, env, now, verify).errors != {Expired} ==>
      r == Abort(401, "Invalid or expired token")
    // an expiry-only failure falls back to the refresh token: 401 without an accepted one;
    // otherwise 500 when minting for the zero user fails, the process ends when the cookie
    // settings fail, and else the request continues as (int 0, not admin) with a fresh cookie
    ensures SelectToken(req) != "" && AccessCheck(req, env, now, verify).Rejected? &&
            AccessCheck(req, env, now, verify).errors == {Expired} ==>
      var minted := GenerateToken(ZeroUser, now, env, sign);
      var settings := GetCookieSettings(env);
      && (!RefreshAccepted(req, env, now, verify) ==> r.Abort? && r.status == 401)
      && (RefreshAccepted(req, env, now, verify) && minted.err.Some? ==> r == Abort(500, "Could not generate token"))
      && (RefreshAccepted(req, env, now, verify) && minted.err.None? && settings.err.Some? ==> r.Fatal?)
      && (RefreshAccepted(req, env, now, verify) && minted.err.None? && settings.err.None? ==>
            r == Next(WithIdentity(ctx, IntId(0), false),
                      [Cookie("access_token", minted.token, 3600, "/", settings.domain,
                              settings.secure, settings.httpOnly, DefaultMode)]))
    // continuing without a verified access token needs an expiry-only failure and an accepted refresh token
    ensures r.Next? && AccessCheck(req, env, now, verify).Rejected? ==>
      && AccessCheck(req, env, now, verify).errors == {Expired}
      && RefreshAccepted(req, env, now, verify)
    ensures r.Abort? ==> r.status == 401 || (r.status == 500 && r.error == "Could not generate token")
    ensures r.Fatal? ==> GetCookieSettings(env).err.Some?
    // the caller id is stored as a uint after a verified access token, as an int after a refresh
    ensures r.Next? ==>
      && r.ctx.Keys == ctx.Keys + {"userID", "isAdmin"} && r.ctx["isAdmin"].Flag?
      && (r.ctx["userID"].UintId? <==> AccessCheck(req, env, now, verify).Verified?)
      && (r.ctx["userID"].IntId? <==> AccessCheck(req, env, now, verify).Rejected?)
  {
    Authenticate(req, ctx, env, now, verify, sign, false)
  }

  /** A present `access_token` cookie, even an empty one, hides the Authorization header. */
  lemma CookieShadowsHeader(req: Request, headers: map<string, string>)
    requires "access_token" in req.cookies
    ensures SelectToken(req.(headers := headers)) == SelectToken(req)
    ensures req.cookies["access_token"] == "" ==>
      forall ctx, env, now, verify, sign ::
        AuthMiddleware(req.(headers := headers), ctx, env, now, verify, sign) == Abort(401, "Access token not provided")
  {
  }

  /** The "Bearer " prefix is removed once only. */
  lemma BearerPrefixRemovedOnce()
    ensures SelectToken(Request("GET", map[], map["Authorization" := "Bearer Bearer abc"])) == "Bearer abc"
    ensures SelectToken(Request("GET", map[], map["Authorization" := "bearer abc"])) == ""
  {
    var h := "Bearer Bearer abc";
    assert h == BearerPrefix + "Bearer abc";
    assert h[..|BearerPrefix|] == BearerPrefix;
    assert !HasPrefix("bearer abc", BearerPrefix) by {
      assert "bearer abc"[0] != BearerPrefix[0];
    }
  }

  /**
   * "Expired" is matched by equality on the error bits, not by a bit test: an expired
   * token whose signature also fails (or that is unverifiable, as a non-HMAC token is)
   * is refused outright and never reaches the refresh path.
   */
  lemma ExpiredMatchIsExact(req: Request, ctx: Context, env: Env, now: int, verify: Verifier, sign: Signer,
                            other: ValidationFlag)
    requires SelectToken(req) != ""
    requires other != Expired
    requires AccessCheck(req, env, now, verify) == Rejected({Expired, other})
    ensures AuthMiddleware(req, ctx, env, now, verify, sign) == Abort(401, "Invalid or expired token")
  {
    assert other in {Expired, other};
  }

  /** Every refresh-path refusal is a 401 with its own message, and only an expiry-only failure gets there. */
  lemma RefreshPathOutcomes(req: Request, ctx: Context, env: Env, now: int, verify: Verifier, sign: Signer)
    requires SelectToken(req) != ""
    requires AccessCheck(req, env, now, verify) == Rejected({Expired})
    ensures "refresh_token" !in req.cookies ==>
      AuthMiddleware(req, ctx, env, now, verify, sign) == Abort(401, "Refresh token not provided")
    ensures "refresh_token" in req.cookies && !RefreshAccepted(req, env, now, verify) ==>
      AuthMiddleware(req, ctx, env, now, verify, sign) == Abort(401, "Invalid refresh token")
  {
  }

  /**
   * The refresh path, as written, mints the new token from a zero-valued user: whatever
   * identity the verified refresh token carries, the request continues as user 0
   * without admin rights, holding a token signed over that empty identity.
   */
  lemma RefreshForgetsIdentity(req: Request, ctx: Context, env: Env, now: int, verify: Verifier, sign: Signer)
    requires SelectToken(req) != ""
    requires AccessCheck(req, env, now, verify) == Rejected({Expired})
    requires RefreshAccepted(req, env, now, verify)
    requires GenerateToken(ZeroUser, now, env, sign).err.None?
    requires GetCookieSettings(env).err.None?
    ensures var r := AuthMiddleware(req, ctx, env, now, verify, sign);
      && r.Next?
      && r.ctx == WithIdentity(ctx, IntId(0), false)
      && |r.cookies| == 1
      && Signed(r.cookies[0].value) == sign(HS256, Claims(0, "", false, now + 3600), Getenv(env, AccessSecretKey))
  {
  }

  /** Concretely: a verified refresh token of admin user 7 continues as non-admin user 0. */
  lemma RefreshForgetsAdmin(req: Request, ctx: Context, env: Env, now: int, verify: Verifier, sign: Signer)
    requires SelectToken(req) != ""
    requires AccessCheck(req, env, now, verify) == Rejected({Expired})
    requires "refresh_token" in req.cookies
    requires verify(req.cookies["refresh_token"], Getenv(env, RefreshSecretKey), now) == Verified(Claims(7, "root", true, now + 60), true)
    requires GenerateToken(ZeroUser, now, env, sign).err.None?
    requires GetCookieSettings(env).err.None?
    ensures AuthMiddleware(req, ctx, env, now, verify, sign).ctx["userID"] == IntId(0)
    ensures AuthMiddleware(req, ctx, env, now, verify, sign).ctx["isAdmin"] == Flag(false)
  {
    RefreshForgetsIdentity(req, ctx, env, now, verify, sign);
  }

  /** The user a refresh should mint for: the one its verified claims name. */
  function ClaimsUser(refreshClaims: Claims): User
  {
    User(refreshClaims.userID, refreshClaims.username, "", "", refreshClaims.isAdmin, 0, 0)
  }

  /** The gate with the refresh path taking its identity from the verified refresh claims. */
  function AuthMiddlewareRefreshFromClaims(req: Request, ctx: Context, env: Env, now: int, verify: Verifier, sign: Signer): (r: Step)
    ensures SelectToken(req) != "" && AccessCheck(req, env, now, verify).Verified? ==>
      r == AuthMiddleware(req, ctx, env, now, verify, sign)
    ensures r.Next? ==> "userID" in r.ctx && r.ctx["userID"].UintId?
  {
    Authenticate(req, ctx, env, now, verify, sign, true)
  }

  /**
   * With the refresh path minting from the refresh claims, a successful refresh continues
   * as the user the refresh token names, with a new access token signed over that user.
   */
  lemma RefreshKeepsIdentity(req: Request, ctx: Context, env: Env, now: int, verify: Verifier, sign: Signer)
    requires SelectToken(req) != ""
    requires AccessCheck(req, env, now, verify) == Rejected({Expired})
    requires RefreshAccepted(req, env, now, verify)
    requires var c := verify(req.cookies["refresh_token"], Getenv(env, RefreshSecretKey), now).claims;
      GenerateToken(ClaimsUser(c), now, env, sign).err.None?
    requires GetCookieSettings(env).err.None?
    ensures var c := verify(req.cookies["refresh_token"], Getenv(env, RefreshSecretKey), now).claims;
      var r := AuthMiddlewareRefreshFromClaims(req, ctx, env, now, verify, sign);
      && r.Next?
      && r.ctx == WithIdentity(ctx, UintId(c.userID), c.isAdmin)
      && |r.cookies| == 1
      && Signed(r.cookies[0].value) == sign(HS256, Claims(c.userID, c.username, c.isAdmin, now + 3600), Getenv(env, AccessSecretKey))
  {
  }
}
