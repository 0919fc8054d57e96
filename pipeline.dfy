/**
 * The gates chained: authentication first, then the admin gate, as routes/place.go
 * chains them; the ownership gate after authentication, the order the design intends
 * for it (no route registers `ActivityOwner`); and the login handler's cookies presented
 * back to the authentication gate.
 */
module Pipeline {
  import opened Base
  import opened Http
  import opened Models
  import opened Tokens
  import opened Cookies
  import opened Auth
  import opened AdminGate
  import opened ActivityOwnerGate
  import opened Database
  import opened UserController

  /**
   * Behind the authentication gate, the admin gate never answers 401: it lets the
   * request through exactly when the access token's claims say admin, and a session
   * that was silently refreshed is always refused with 403.
   */
  lemma AdminRouteAfterAuth(req: Request, ctx: Context, env: Env, now: int, verify: Verifier, sign: Signer)
    requires AuthMiddleware(req, ctx, env, now, verify, sign).Next?
    ensures var admitted := RequireAdmin(AuthMiddleware(req, ctx, env, now, verify, sign).ctx);
      && admitted != Abort(401, "Authentication required")
      && (AccessCheck(req, env, now, verify).Verified? ==>
            (admitted.Next? <==> AccessCheck(req, env, now, verify).claims.isAdmin))
      && (AccessCheck(req, env, now, verify).Rejected? ==> admitted == Abort(403, "Admin access required"))
  {
  }

  /**
   * With the refresh path taking its identity from the refresh claims, a refreshed admin
   * session passes the admin gate.
   */
  lemma AdminRouteAfterClaimsRefresh(req: Request, ctx: Context, env: Env, now: int, verify: Verifier, sign: Signer)
    requires SelectToken(req) != ""
    requires AccessCheck(req, env, now, verify) == Rejected({Expired})
    requires RefreshAccepted(req, env, now, verify)
    requires var c := verify(req.cookies["refresh_token"], Getenv(env, RefreshSecretKey), now).claims;
      c.isAdmin && GenerateToken(ClaimsUser(c), now, env, sign).err.None?
    requires GetCookieSettings(env).err.None?
    ensures RequireAdmin(AuthMiddlewareRefreshFromClaims(req, ctx, env, now, verify, sign).ctx).Next?
  {
    RefreshKeepsIdentity(req, ctx, env, now, verify, sign);
  }

  /**
   * Placed behind the authentication gate, the ownership gate never answers 401; after a
   * verified access token it never fails its type assertion on the caller's id.
   */
  lemma OwnerRouteAfterAuth(req: Request, ctx: Context, env: Env, now: int, verify: Verifier, sign: Signer,
                            activityId: string, places: map<nat, Place>, users: map<nat, User>, readsFail: bool)
    requires AuthMiddleware(req, ctx, env, now, verify, sign).Next?
    ensures var r := ActivityOwner(AuthMiddleware(req, ctx, env, now, verify, sign).ctx, activityId, places, users, readsFail);
      && r != Abort(401, "User not authenticated")
      && (AccessCheck(req, env, now, verify).Verified? ==> !r.Panic?)
  {
  }

  /**
   * A session continued by the refresh path carries its caller id as a Go `int`, so an
   * ownership gate placed after it fails its `uint` assertion as soon as the activity is found.
   */
  lemma RefreshedSessionPanicsAtOwnerGate(req: Request, ctx: Context, env: Env, now: int, verify: Verifier,
                                          sign: Signer, activityId: string, places: map<nat, Place>,
                                          users: map<nat, User>)
    requires AuthMiddleware(req, ctx, env, now, verify, sign).Next?
    requires AccessCheck(req, env, now, verify).Rejected?
    requires IsStoredKey(places, ParseId(activityId))
    ensures ActivityOwner(AuthMiddleware(req, ctx, env, now, verify, sign).ctx, activityId, places, users, false).Panic?
  {
  }

  /** With the refresh path storing the refresh claims' `uint` id, the ownership gate never panics. */
  lemma OwnerRouteAfterClaimsRefresh(req: Request, ctx: Context, env: Env, now: int, verify: Verifier, sign: Signer,
                                     activityId: string, places: map<nat, Place>, users: map<nat, User>,
                                     readsFail: bool)
    requires AuthMiddlewareRefreshFromClaims(req, ctx, env, now, verify, sign).Next?
    ensures var r := ActivityOwner(AuthMiddlewareRefreshFromClaims(req, ctx, env, now, verify, sign).ctx,
                                   activityId, places, users, readsFail);
      !r.Panic? && r != Abort(401, "User not authenticated")
  {
  }

  /** The cookies a browser sends back after a response set them (later cookies of the same name win). */
  function CookieJar(cookies: seq<Cookie>): map<string, string>
  {
    if cookies == [] then map[]
    else CookieJar(cookies[..|cookies| - 1])[cookies[|cookies| - 1].name := cookies[|cookies| - 1].value]
  }

  /**
   * A successful login, presented back to the authentication gate: when the JWT
   * library accepts the (non-empty) access token it issued, the request continues as the user who
   * logged in, with that user's admin flag.
   */
  lemma LoginThenAuthenticate(db: UserTable, email: string, password: string, env: Env, now: int, later: int,
                              compare: PasswordCheck, sign: Signer, verify: Verifier,
                              headers: map<string, string>, ctx: Context)
    requires LoginUser(db, Some(LoginRequest(email, password)), env, now, compare, sign).Reply?
    requires LoginUser(db, Some(LoginRequest(email, password)), env, now, compare, sign).status == 200
    requires var u := LoginCandidate(db, email);
      GenerateToken(u, now, env, sign).token != "" &&
      verify(GenerateToken(u, now, env, sign).token, Getenv(env, AccessSecretKey), later) ==
        Verified(Claims(u.id, u.username, u.isAdmin, now + 3600), true)
    ensures var u := LoginCandidate(db, email);
      var jar := CookieJar(LoginUser(db, Some(LoginRequest(email, password)), env, now, compare, sign).cookies);
      var r := AuthMiddleware(Request("GET", jar, headers), ctx, env, later, verify, sign);
      r == Next(WithIdentity(ctx, UintId(u.id), u.isAdmin), [])
  {
    var u := LoginCandidate(db, email);
    var cookies := LoginUser(db, Some(LoginRequest(email, password)), env, now, compare, sign).cookies;
    var jar := CookieJar(cookies);
    assert |cookies| == 2 && cookies[0].name == "access_token" && cookies[1].name == "refresh_token";
    var first := cookies[..1];
    assert first[..0] == [];
    assert CookieJar(first) == map["access_token" := cookies[0].value];
    assert cookies[..|cookies| - 1] == first;
    assert jar == CookieJar(first)["refresh_token" := cookies[1].value];
    assert jar["access_token"] == GenerateToken(u, now, env, sign).token;
    assert SelectToken(Request("GET", jar, headers)) == GenerateToken(u, now, env, sign).token;
  }
}
