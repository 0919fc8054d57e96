/**
 * The outcome logic of the user handlers (controllers/user.go): which status and JSON
 * body each request gets, which cookies it sets, and what signup writes to the user
 * table. bcrypt and the token signer are parameters.
 */
module UserController {
  import opened Base
  import opened Http
  import opened Models
  import opened Tokens
  import opened Cookies
  import opened Database

  /** The JSON bodies the handlers send; none of them carries a password. */
  datatype Body =
    | Error(error: string)
    | Message(message: string)
    | WithUser(message: string, user: PublicUser)
    | Profile(user: PublicUser)
    | NoBody

  /** A response, or `log.Fatalf` ending the process before one is written. */
  datatype Reply = Reply(status: nat, body: Body, cookies: seq<Cookie>) | Exit(reason: string)

  /** The login payload; a field missing from the JSON arrives as "". */
  datatype LoginRequest = LoginRequest(email: string, password: string)

  /** bcrypt's `CompareHashAndPassword(hash, password) == nil`. */
  type PasswordCheck = (string, string) -> bool

  /** bcrypt's `GenerateFromPassword`; `None` is its error. */
  type PasswordHasher = string -> Option<string>

  /** Two cookies of one session: same path, domain and flags, SameSite Lax. */
  function SessionCookie(name: string, value: string, maxAge: int, settings: CookieSettings): Cookie
  {
    Cookie(name, value, maxAge, "/", settings.domain, settings.secure, settings.httpOnly, LaxMode)
  }

  /** The row login checks: the first with that email, or the zero user when there is none or the query fails. */
  function LoginCandidate(db: UserTable, email: string): User
    reads db
  {
    match db.FirstWhere((u: User) => u.email == email)
    case Found(u) => u
    case _ => ZeroUser
  }

  /**
   * `LoginUser`. `payload` is `None` when the body is not valid JSON; both fields are
   * `binding:"required"`, so an empty one is refused too.
   */
  function LoginUser(db: UserTable, payload: Option<LoginRequest>, env: Env, now: int,
                     compare: PasswordCheck, sign: Signer): (r: Reply)
    reads db
    ensures payload.None? || payload.value.email == "" || payload.value.password == "" <==>
      r.Reply? && r.status == 400
    ensures r.Reply? && r.status == 400 ==> r.body.Error? && HasPrefix(r.body.error, "Invalid input: ") && r.cookies == []
    ensures payload.Some? && payload.value.email != "" && payload.value.password != "" ==>
      (r == Reply(401, Error("Invalid email"), []) <==> LoginCandidate(db, payload.value.email).id == 0)
    ensures r == Reply(401, Error("Invalid email or password"), []) ==>
      var u := LoginCandidate(db, payload.value.email);
      u.id != 0 && !compare(u.password, payload.value.password)
    ensures r.Exit? ==> GetCookieSettings(env).err.Some?
    // success: the user is the first row with that email, its password checked, and two session cookies set
    ensures r.Reply? && r.status == 200 ==>
      var u := LoginCandidate(db, payload.value.email);
      var settings := GetCookieSettings(env);
      && u.id != 0 && u.email == payload.value.email && compare(u.password, payload.value.password)
      && r.body == WithUser("Login successful", Public(u))
      && settings.err.None?
      && r.cookies == [
           SessionCookie("access_token", GenerateToken(u, now, env, sign).token, 3600, settings),
           SessionCookie("refresh_token", GenerateRefreshToken(u, now, env, sign).token, 2592000, settings)]
      && GenerateToken(u, now, env, sign).err.None? && GenerateRefreshToken(u, now, env, sign).err.None?
    // a stored user with the right password: 200 unless a token or the cookie settings fail
    ensures payload.Some? && payload.value.email != "" && payload.value.password != "" ==>
      var u := LoginCandidate(db, payload.value.email);
      var access := GenerateToken(u, now, env, sign);
      var refresh := GenerateRefreshToken(u, now, env, sign);
      u.id != 0 && compare(u.password, payload.value.password) ==>
        && (access.err.Some? ==> r == Reply(500, Error("Could not generate token"), []))
        && (access.err.None? && refresh.err.Some? ==> r == Reply(500, Error("Could not generate refresh token"), []))
        && (access.err.None? && refresh.err.None? ==>
              if GetCookieSettings(env).err.Some? then r.Exit? else r.Reply? && r.status == 200)
    ensures r.Reply? ==> r.status in {200, 400, 401, 500}
  {
    if payload.None? then Reply(400, Error("Invalid input: malformed JSON body"), [])
    else if payload.value.email == "" || payload.value.password == "" then
      Reply(400, Error("Invalid input: email and password are required"), [])
    else
      var request := payload.value;
      var user := LoginCandidate(db, request.email);
      if user.id == 0 then Reply(401, Error("Invalid email"), [])
      else if !compare(user.password, request.password) then Reply(401, Error("Invalid email or password"), [])
      else
        var access := GenerateToken(user, now, env, sign);
        if access.err.Some? then Reply(500, Error("Could not generate token"), [])
        else
          var refresh := GenerateRefreshToken(user, now, env, sign);
          if refresh.err.Some? then Reply(500, Error("Could not generate refresh token"), [])
          else
            var settings := GetCookieSettings(env);
            if settings.err.Some? then Exit("Failed to parse environment variables")
            else
              Reply(200, WithUser("Login successful", Public(user)), [
                SessionCookie("access_token", access.token, 3600 * 1, settings),
                SessionCookie("refresh_token", refresh.token, 3600 * 24 * 30, settings)])
  }

  /**
   * An unknown email and a wrong password are told apart: the two 401 messages differ,
   * so a caller learns whether an email is registered.
   */
  lemma LoginRevealsUnknownEmail(db: UserTable, email: string, password: string, env: Env, now: int,
                                 compare: PasswordCheck, sign: Signer)
    requires email != "" && password != ""
    ensures var r := LoginUser(db, Some(LoginRequest(email, password)), env, now, compare, sign);
      LoginCandidate(db, email).id == 0 ==> r == Reply(401, Error("Invalid email"), [])
    ensures var r := LoginUser(db, Some(LoginRequest(email, password)), env, now, compare, sign);
      var u := LoginCandidate(db, email);
      u.id != 0 && !compare(u.password, password) ==> r == Reply(401, Error("Invalid email or password"), [])
    ensures "Invalid email" != "Invalid email or password"
  {
  }

  /** The keys of the rows with a given email. */
  ghost function EmailKeys(rows: map<nat, User>, email: string): set<nat>
  {
    set k | k in rows && rows[k].email == email
  }

  /** The row signup stores: the payload with the password replaced by its hash and both times set to now. */
  function StoredSignup(payload: User, id: nat, hashed: string, now: int): User
  {
    payload.(id := id, password := hashed, createdAt := now, updatedAt := now)
  }

  /**
   * `SignupUser`. `payload` is the bound JSON user (`None` when binding fails). An
   * existing user with the same email or username does not stop the insert: only a
   * failing query does.
   */
  method SignupUser(db: UserTable, verb: string, payload: Option<User>, now: int, hash: PasswordHasher)
    returns (r: Reply)
    requires db.Valid()
    modifies db
    ensures db.Valid() && r.Reply? && r.cookies == []
    ensures verb == "OPTIONS" ==> r == Reply(200, NoBody, [])
    ensures r.status != 201 ==> db.rows == old(db.rows)
    // the serial counter advances when an insert without an id reaches a writable table
    ensures db.nextId ==
      if verb != "OPTIONS" && payload.Some? && !db.readsFail && hash(payload.value.password).Some? &&
         payload.value.id == 0 && !db.writesFail
      then old(db.nextId) + 1 else old(db.nextId)
    ensures verb != "OPTIONS" && payload.None? ==> r.status == 400
    ensures verb != "OPTIONS" && payload.Some? && db.readsFail ==> r == Reply(500, Error("Database error"), [])
    ensures verb != "OPTIONS" && payload.Some? && !db.readsFail && hash(payload.value.password).None? ==>
      r == Reply(500, Error("Failed to hash password"), [])
    // a refused write or a taken key fails the insert
    ensures verb != "OPTIONS" && payload.Some? && !db.readsFail && hash(payload.value.password).Some? &&
            (db.writesFail || (if payload.value.id == 0 then old(db.nextId) else payload.value.id) in old(db.rows)) ==>
      r == Reply(500, Error("Failed to create user"), [])
    // when the query, the hash and the insert all succeed, the user is created, duplicate or not
    ensures verb != "OPTIONS" && payload.Some? && !db.readsFail && !db.writesFail &&
            hash(payload.value.password).Some? &&
            (if payload.value.id == 0 then old(db.nextId) else payload.value.id) !in old(db.rows) ==>
      r.status == 201
    // what is stored: the hash, never the plaintext, and the payload's admin flag as given
    ensures r.status == 201 ==>
      && verb != "OPTIONS" && payload.Some? && hash(payload.value.password).Some?
      && !db.readsFail && !db.writesFail
      && r.body.WithUser? && r.body.message == "User created successfully"
      && var id := r.body.user.id;
         var stored := StoredSignup(payload.value, id, hash(payload.value.password).value, now);
         && id !in old(db.rows)
         && db.rows == old(db.rows)[id := stored]
         && r.body.user == Public(stored)
         && stored.isAdmin == payload.value.isAdmin
         && EmailKeys(db.rows, payload.value.email) == EmailKeys(old(db.rows), payload.value.email) + {id}
  {
    if verb == "OPTIONS" {
      return Reply(200, NoBody, []);
    }
    if payload.None? {
      return Reply(400, Error("Invalid input: malformed JSON body"), []);
    }
    var user := payload.value;

    var existing := db.FirstWhere((u: User) => u.email == user.email || u.username == user.username);
    if existing.Failed? {
      return Reply(500, Error("Database error"), []);
    }
    // a Found row falls through to the insert, exactly like NotFound

    var hashed := hash(user.password);
    if hashed.None? {
      return Reply(500, Error("Failed to hash password"), []);
    }
    user := user.(password := hashed.value);
    user := user.(createdAt := now);
    user := user.(updatedAt := now);

    var saved, err := db.Create(user);
    if err.Some? {
      return Reply(500, Error("Failed to create user"), []);
    }
    assert saved == StoredSignup(payload.value, saved.id, hashed.value, now);
    r := Reply(201, WithUser("User created successfully", Public(saved)), []);
  }

  /** No two rows share an email. */
  ghost predicate UniqueEmails(rows: map<nat, User>)
  {
    forall k1, k2 :: k1 in rows && k2 in rows && rows[k1].email == rows[k2].email ==> k1 == k2
  }

  /** Some stored row has the payload's email or its username: the condition of the lookup at signup. */
  predicate Clashes(rows: map<nat, User>, user: User)
  {
    exists k :: k in rows && (rows[k].email == user.email || rows[k].username == user.username)
  }

  /**
   * Signup as evidently intended: an existing user with the same email or username is
   * answered with 409 and nothing is written, so emails stay unique.
   */
  method SignupUserRejectingDuplicates(db: UserTable, verb: string, payload: Option<User>, now: int,
                                       hash: PasswordHasher)
    returns (r: Reply)
    requires db.Valid()
    modifies db
    ensures db.Valid() && r.Reply? && r.cookies == []
    ensures r.status != 201 ==> db.rows == old(db.rows)
    ensures db.nextId == old(db.nextId) || (r.status != 409 && db.nextId == old(db.nextId) + 1)
    ensures UniqueEmails(old(db.rows)) ==> UniqueEmails(db.rows)
    ensures verb == "OPTIONS" ==> r == Reply(200, NoBody, [])
    ensures verb != "OPTIONS" && payload.None? ==> r.status == 400
    ensures verb != "OPTIONS" && payload.Some? && db.readsFail ==> r == Reply(500, Error("Database error"), [])
    ensures verb != "OPTIONS" && payload.Some? && !db.readsFail && EmailKeys(old(db.rows), payload.value.email) != {} ==>
      r == Reply(409, Error("User already exists"), [])
    // 409 exactly when a stored row has the email or the username
    ensures verb != "OPTIONS" && payload.Some? && !db.readsFail ==>
      (r == Reply(409, Error("User already exists"), []) <==> Clashes(old(db.rows), payload.value))
    ensures verb != "OPTIONS" && payload.Some? && !db.readsFail && !Clashes(old(db.rows), payload.value) &&
            hash(payload.value.password).None? ==>
      r == Reply(500, Error("Failed to hash password"), [])
    ensures verb != "OPTIONS" && payload.Some? && !db.readsFail && !Clashes(old(db.rows), payload.value) &&
            hash(payload.value.password).Some? &&
            (db.writesFail || (if payload.value.id == 0 then old(db.nextId) else payload.value.id) in old(db.rows)) ==>
      r == Reply(500, Error("Failed to create user"), [])
    ensures verb != "OPTIONS" && payload.Some? && !db.readsFail && !Clashes(old(db.rows), payload.value) &&
            hash(payload.value.password).Some? && !db.writesFail &&
            (if payload.value.id == 0 then old(db.nextId) else payload.value.id) !in old(db.rows) ==>
      r.status == 201
    ensures r.status == 201 ==>
      && payload.Some? && hash(payload.value.password).Some?
      && !db.readsFail && !db.writesFail && !Clashes(old(db.rows), payload.value)
      && EmailKeys(old(db.rows), payload.value.email) == {}
      && r.body.WithUser?
      && db.rows == old(db.rows)[r.body.user.id :=
           StoredSignup(payload.value, r.body.user.id, hash(payload.value.password).value, now)]
  {
    if verb == "OPTIONS" {
      return Reply(200, NoBody, []);
    }
    if payload.None? {
      return Reply(400, Error("Invalid input: malformed JSON body"), []);
    }
    var user := payload.value;

    var existing := db.FirstWhere((u: User) => u.email == user.email || u.username == user.username);
    if existing.Failed? {
      return Reply(500, Error("Database error"), []);
    }
    if existing.Found? {
      return Reply(409, Error("User already exists"), []);
    }
    assert EmailKeys(db.rows, user.email) == {} by {
      assert forall k :: k in db.rows ==> db.rows[k].email != user.email;
    }

    var hashed := hash(user.password);
    if hashed.None? {
      return Reply(500, Error("Failed to hash password"), []);
    }
    user := user.(password := hashed.value, createdAt := now, updatedAt := now);

    var saved, err := db.Create(user);
    if err.Some? {
      return Reply(500, Error("Failed to create user"), []);
    }
    assert forall k :: k in old(db.rows) ==> old(db.rows)[k].email != saved.email;
    r := Reply(201, WithUser("User created successfully", Public(saved)), []);
  }

  /** The cookie logout writes over a session cookie: empty, already expired (section 5.2.2 of RFC 6265), not secure, not http-only. */
  function ExpiredCookie(name: string, domain: string): Cookie
  {
    Cookie(name, "", -1, "/", domain, false, false, LaxMode)
  }

  /** `LogoutUser`. A failure to resolve the logout domain is fatal to the process. */
  function LogoutUser(env: Env): (r: Reply)
    ensures r.Exit? <==> GetLogoutCookieSettings(env).err.Some?
    ensures r.Reply? ==>
      && r.status == 200 && r.body == Message("Logged out")
      && |r.cookies| == 2
      && r.cookies[0].name == "access_token" && r.cookies[1].name == "refresh_token"
      && forall i :: 0 <= i < 2 ==>
           && r.cookies[i].value == "" && r.cookies[i].maxAge < 0 && r.cookies[i].path == "/"
           && r.cookies[i].domain == GetLogoutCookieSettings(env).domain && r.cookies[i].domain != ""
           && !r.cookies[i].secure && !r.cookies[i].httpOnly && r.cookies[i].sameSite == LaxMode
  {
    var settings := GetLogoutCookieSettings(env);
    if settings.err.Some? then Exit("Failed to parse environment variables")
    else Reply(200, Message("Logged out"), [ExpiredCookie("access_token", settings.domain),
                                            ExpiredCookie("refresh_token", settings.domain)])
  }

  /**
   * When ENV and GO_ENV name the same deployment, logout expires exactly the cookies a
   * login set: same names, same path, same domain.
   */
  lemma LogoutExpiresLoginCookies(db: UserTable, payload: Option<LoginRequest>, env: Env, now: int,
                                  compare: PasswordCheck, sign: Signer)
    requires Getenv(env, "ENV") == Getenv(env, "GO_ENV")
    requires LoginUser(db, payload, env, now, compare, sign).Reply?
    requires LoginUser(db, payload, env, now, compare, sign).status == 200
    requires LogoutUser(env).Reply?
    ensures var login := LoginUser(db, payload, env, now, compare, sign).cookies;
      var logout := LogoutUser(env).cookies;
      forall i :: 0 <= i < 2 ==>
        && logout[i].name == login[i].name && logout[i].path == login[i].path
        && logout[i].domain == login[i].domain && logout[i].maxAge < 0 < login[i].maxAge
  {
    assert SettingsKeys(env).domain == LogoutOriginKey(env);
  }

  /**
   * `GetProfile`: any caller past the authentication gate may read any user's public
   * fields; every query failure reads as "not found".
   */
  function GetProfile(db: UserTable, verb: string, idParam: string): (r: Reply)
    reads db
    ensures r.Reply? && r.cookies == []
    ensures verb == "OPTIONS" ==> r == Reply(200, NoBody, [])
    ensures verb != "OPTIONS" && idParam == "" ==> r == Reply(400, Error("User ID is required"), [])
    ensures verb != "OPTIONS" && idParam != "" ==>
      if !db.readsFail && IsStoredKey(db.rows, ParseId(idParam))
      then r == Reply(200, Profile(Public(db.rows[ParseId(idParam).value as nat])), [])
      else r == Reply(404, Error("User not found"), [])
  {
    if verb == "OPTIONS" then Reply(200, NoBody, [])
    else if idParam == "" then Reply(400, Error("User ID is required"), [])
    else
      match FindByText(db.rows, idParam, db.readsFail)
      case Found(user) => Reply(200, Profile(Public(user)), [])
      case _ => Reply(404, Error("User not found"), [])
  }
}
