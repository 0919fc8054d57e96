# Fitness-locator backend: authentication and authorisation core

This project is a Dafny model of the part of the fitness-locator backend (a Go/gin REST
service over PostgreSQL) that decides who a request comes from and what it may do:

- the cookie-policy resolver that reads the session cookie attributes from the environment
  and cuts a bare domain out of a configured origin (`middleware/cookies.go`);
- the access and refresh token generators (`middleware/generateTokens.go`);
- the authentication gate, with its refresh-on-expiry path (`middleware/auth.go`);
- the admin-only gate and the ownership-or-admin gate (`middleware/adminAuth.go`,
  `middleware/activityOwner.go`);
- the signup, login, logout and profile handlers (`controllers/user.go`);
- the admin-account seeding at start-up (`database/postgresql.go`).

Middleware stages are functions from a request, a request context and an environment to
a `Step`: continue (`Next`) with the context entries and cookies the stage set, abort with
a status and a JSON error, end the process (`log.Fatalf`), or panic on a failed type
assertion. Handlers return a `Reply` with its status, JSON body and cookies. The user
table is a class, `Database.UserTable`, whose rows map and serial counter are updated in
place by gorm's `Create` and `Save`. Signup and the admin seeding are methods over it.
Library code the core calls is passed in as a parameter:

- JWT signing (`Tokens.Signer`) and parsing (`Tokens.Verifier`);
- bcrypt hashing (`UserController.PasswordHasher`) and comparison (`UserController.PasswordCheck`);
- the clock (`now`, in Unix seconds);
- the process environment (`Base.Env`).

Where the code and the service's design notes disagree, the model follows the code:

- login answers an unknown email with "Invalid email" and a wrong password with "Invalid
  email or password", so the two cases can be told apart;
- signup stores the `isAdmin` flag from the request body;
- the refresh path signs its new access token over a zero-valued user, not over the
  refresh token's claims (see Findings);
- signup does not refuse an existing email or username (see Findings).

Modules: `Base` (option, environment), `Http` (cookies, requests, context, stage outcome),
`Models` (records and gorm's `First`), `Cookies`, `Tokens`, `Auth`, `ActivityOwnerGate`,
`AdminGate`, `Database`, `UserController`, and `Pipeline`. `Pipeline` holds the
authentication gate followed by the admin gate, as routes/place.go:23 chains them; the
ownership gate placed after the authentication gate; and a login's cookies presented
back to the authentication gate. `ActivityOwner` is defined but no route registers it.
The authentication-then-ownership chain is the order the design intends for it, not a
chain the routes build.

## Model

| member | source | states |
|---|---|---|
| Http.ParseId | middleware/activityOwner.go:20-24 | an `id` path parameter, compared with a `bigint` key, reads as a number only inside the `bigint` range |
| Http.DecimalRoundTrip | middleware/activityOwner.go:24 | the digits of a number's decimal spelling read back as that number |
| Http.ParseIdReadsNumber | middleware/activityOwner.go:24 | white space, an optional "+" or "-" and a run of digits read as the signed value of the digits when it is a `bigint`, and fail otherwise |
| Http.ParseIdRoundTrip | middleware/activityOwner.go:24 | every `bigint` reads back from its spelling |
| Http.ParseIdOutOfRange | middleware/activityOwner.go:24 | a number past the `bigint` range makes the query fail |
| Http.ParseIdAcceptsOnlyNumberText | middleware/activityOwner.go:24 | text that reads as a number holds only white space, signs and digits |
| Http.ParseIdSignExamples | middleware/activityOwner.go:24 | "+5" reads as 5 and "-5" as -5 |
| Http.ParseIdPaddingExample | middleware/activityOwner.go:24 | " 42" followed by a newline reads as 42 |
| Http.ParseIdRejectsTrailingText | middleware/activityOwner.go:24 | "12abc" makes the query fail |
| Models.FirstKeyWhere | database/postgresql.go:62 | gorm `First` picks a key: none exactly when no row matches; otherwise a matching key no larger than any other matching key |
| Models.FirstWhere | controllers/user.go:45 | fails exactly when the database refuses the read; otherwise NotFound exactly when no row matches, and a found row is the matching row with the lowest key |
| Models.FindById | middleware/activityOwner.go:36 | lookup by primary key: found exactly when the database answers and the key is stored, and then it is that key's row |
| Models.FindByText | middleware/activityOwner.go:24 | lookup by the text of an id: fails exactly when the read is refused or the text is not a `bigint`; found exactly when the number read is a stored key, and then it is that key's row |
| Cookies.Index | middleware/cookies.go:73-78 | `strings.Index`: a result is an occurrence with no earlier occurrence; None means no occurrence anywhere |
| Cookies.Contains | middleware/cookies.go:73 | `strings.Contains` holds exactly when the pattern occurs at some position |
| Cookies.BeforeFirst | middleware/cookies.go:78-79 | `strings.Split(s, sep)[0]`: all of `s` when it has no `sep`; otherwise the prefix of `s` that ends where the first `sep` starts |
| Cookies.AfterFirst | middleware/cookies.go:74-75 | `strings.Split(s, sep)[1]`: the slice of `s` from just after the first `sep` that ends at the next `sep` or at the end of `s`, with no `sep` starting inside it |
| Cookies.ExtractDomain | middleware/cookies.go:72-82 | the extracted domain contains neither ":" nor "//", and a string with neither is returned unchanged |
| Cookies.ExtractDomainIdempotent | middleware/cookies.go:72-82 | extracting from an extracted domain changes nothing |
| Cookies.ExtractDomainOfOrigin | middleware/cookies.go:72-82 | for `scheme//host:port`, `scheme//host`, `host:port` and `host`, the result is exactly the host |
| Cookies.ExtractDomainExample | middleware/cookies.go:72-82 | "http://localhost:8081" gives "localhost" |
| Cookies.ParseBool | middleware/cookies.go:20-35 | every string outside the twelve accepted spellings is a syntax error; "true" answers start with 1, t or T and "false" answers with 0, f or F |
| Cookies.GetCookieSettings | middleware/cookies.go:10-42 | GO_ENV "development" selects the DEV_* keys, anything else the PROD_* keys; success exactly when both flags parse, and then the domain is the extracted origin and the flags are the parsed values; an error returns the zero values and names the first flag value that failed (secure, then http-only) |
| Cookies.CookieSettingsReadOnlySelectedKeys | middleware/cookies.go:10-42 | the result depends only on whether GO_ENV is "development" and on the three selected variables |
| Cookies.UnsetDomainIsNotAnError | middleware/cookies.go:18-29 | with valid flags, an unset domain variable gives domain "" and no error |
| Cookies.GetLogoutCookieSettings | middleware/cookies.go:44-70 | ENV (not GO_ENV) selects the key; errors for an unset ENV, for an unset origin, and for an origin with an empty domain; on success the domain is the extracted origin |
| Cookies.LoginAndLogoutKeysCanDiffer | middleware/cookies.go:11-57 | with GO_ENV "development" and ENV "production", login cookies use DEV_DOMAIN and logout uses PROD_DOMAIN |
| Tokens.GenerateToken | middleware/generateTokens.go:20-43 | an empty ACCESS_SECRET_KEY gives ("", error) without signing; otherwise success exactly when HS256 signing of (id, username, isAdmin, now + 3600) succeeds, and the token is that signature; every error comes with "" |
| Tokens.GenerateRefreshToken | middleware/generateTokens.go:45-68 | the same with REFRESH_SECRET_KEY and an expiry of now + 2592000 (30 days) |
| Tokens.EmptySecretSignsNothing | middleware/generateTokens.go:30-34 | with an empty secret, the result does not depend on the signer |
| Tokens.GeneratorsDifferOnlyInExpiryAndSecret | middleware/generateTokens.go:20-68 | both tokens sign the same identity claims; they differ only in the expiry (by 30 days minus 1 hour) and in the secret |
| Auth.SelectToken | middleware/auth.go:17-26 | a present `access_token` cookie wins, even an empty one; otherwise a "Bearer " header with the prefix removed; otherwise "" |
| Auth.AuthMiddleware | middleware/auth.go:15-98 | never panics; 401 "Access token not provided" exactly when no token is selected; a verified token continues with its claims' identity stored as a `uint`, or gets 401 if not valid; any failure other than exactly "expired" gets 401; an expiry-only failure falls back to the refresh token: 401 without an accepted one, otherwise 500 "Could not generate token" exactly when minting for the zero user fails, the process ends when the cookie settings then fail, and otherwise the request continues as (`int` 0, not admin) with one access cookie for 3600 s, path "/", and the configured domain, secure and http-only flags; aborts are 401, or that 500; it ends the process only when the cookie settings fail |
| Auth.Authenticate | middleware/auth.go:15-98 | the decision shared by the gate as written and the corrected gate: never panics; 401 "Access token not provided" exactly when no token is selected; an expiry-only failure is decided by the refresh path; aborts are 401 or 500 "Could not generate token"; the process ends only when the cookie settings fail |
| Auth.Refresh | middleware/auth.go:43-80 | the refresh path never panics; 401 without an accepted refresh token; with one, 500 "Could not generate token" exactly when minting fails, the process ends when the cookie settings then fail, and otherwise it continues with one access cookie for 3600 s, path "/", the minted token and the configured domain, secure and http-only flags; as written it mints for and continues as the zero user (`int` id 0, not admin), and with the identity taken from the claims it continues as the refresh token's `uint` id and admin flag |
| Auth.CookieShadowsHeader | middleware/auth.go:19-26 | with an `access_token` cookie present, the Authorization header is ignored, and an empty cookie is answered "Access token not provided" |
| Auth.BearerPrefixRemovedOnce | middleware/auth.go:23-24 | "Bearer Bearer abc" yields "Bearer abc"; a lower-case "bearer" yields no token |
| Auth.ExpiredMatchIsExact | middleware/auth.go:42 | an expired token that carries any other validation error is refused with 401 and never refreshed |
| Auth.RefreshPathOutcomes | middleware/auth.go:43-60 | on the refresh path, a missing refresh cookie and a refused refresh token each get their own 401 |
| Auth.RefreshForgetsIdentity | middleware/auth.go:62-79 | a successful refresh continues as user 0 without admin rights, and the new token is signed over the empty identity |
| Auth.RefreshForgetsAdmin | middleware/auth.go:62-79 | a verified refresh token of admin user 7 continues as the non-admin caller with `int` id 0 |
| Auth.AuthMiddlewareRefreshFromClaims | middleware/auth.go:15-98 | the corrected gate decides exactly as the original whenever the access token verifies |
| Auth.RefreshKeepsIdentity | middleware/auth.go:50-79 | with the corrected refresh path, a successful refresh continues as the refresh token's user and admin flag, with a new token signed over that identity |
| ActivityOwnerGate.ActivityOwner | middleware/activityOwner.go:11-51 | continues exactly when the caller's `uint` id is set, the activity is found and the caller owns it or is an admin in the user table; 401 exactly when no userID is set; 404 for a missing activity; 500 when the activity query fails; a non-owner gets 403 when its stored record is not an admin and 500 when it has none, and a 403 happens only then; panics exactly when the activity is found and userID is not a `uint`; nothing is added to the context |
| ActivityOwnerGate.OwnerNeedsNoUserLookup | middleware/activityOwner.go:34-49 | the owner is let through whatever the user table holds |
| ActivityOwnerGate.AdminRightComesFromStore | middleware/activityOwner.go:35-46 | the context's isAdmin entry never changes the decision: admin rights come from the stored user record |
| AdminGate.RequireAdmin | middleware/adminAuth.go:10-31 | continues exactly when isAdmin is the boolean true; 401 exactly when isAdmin is absent; 403 exactly when it is present and not true; the context is passed on unchanged |
| AdminGate.RequireAdminReadsOnlyFlag | middleware/adminAuth.go:12-27 | two contexts that agree on isAdmin get the same decision |
| Database.UserTable.Create | database/postgresql.go:65 | an insert succeeds exactly when writes are allowed and the id (the next serial id for id 0) is free; it stores the row under that id; a failure changes nothing and reports the refused write or the taken key; the counter advances for every id-0 insert that reaches a writable table |
| Database.UserTable.Save | database/postgresql.go:72 | a save of a stored row overwrites that key when writes are allowed and changes nothing otherwise |
| Database.SetupAdminUser | database/postgresql.go:46-81 | fatal exactly when hashing fails; succeeds exactly when hashing, the lookup and the write succeed (and, when it must create, the next serial key is free); a refused read or write, or a taken key, is the returned error; a failure leaves the rows unchanged; the serial counter advances exactly when an insert reaches a writable table, even with a taken key; with no admin-email row, one admin row is created under a fresh key; otherwise the first such row gets username "admin", the new hash and the admin flag, and no row is added; rows with other emails are untouched |
| UserController.LoginUser | controllers/user.go:84-156 | 400 exactly for a malformed body or an empty field; "Invalid email" exactly when the lookup yields no user (no row has the email, or the query failed, which the handler ignores); "Invalid email or password" only for a stored user whose password does not match; 200 only for the first row with that email whose password matches, with its public fields and two Lax cookies (an access token for 3600 s and a refresh token for 2592000 s) on the configured domain; ends the process only when the cookie settings fail; conversely a stored user with the right password gets 200, or 500 "Could not generate token" / "Could not generate refresh token" when a generator fails, or the process ends when the cookie settings fail |
| UserController.LoginRevealsUnknownEmail | controllers/user.go:96-106 | an unknown email and a wrong password get different 401 messages |
| UserController.SignupUser | controllers/user.go:28-78 | OPTIONS gives an empty 200; a malformed body gives 400; a refused query gives 500 "Database error"; a failed hash gives 500 "Failed to hash password"; a refused write or a taken key gives 500 "Failed to create user"; with the query, the hash and the insert succeeding, the user is created (201) even if the email already exists, and a 201 needs a readable and writable table; the stored row holds the hash, not the plaintext, the payload's admin flag and the current time; only a 201 changes the table |
| UserController.SignupUserRejectingDuplicates | controllers/user.go:44-53 | the corrected signup: OPTIONS, a malformed body and a refused query are answered as by the original; 409 exactly when a stored row has the email or the username, and then nothing is written; without such a row, a failed hash, a refused write or a taken key each get their 500, and otherwise the user is created (201); a 201 happens only for a new email and username; it preserves unique emails |
| UserController.LogoutUser | controllers/user.go:166-201 | ends the process exactly when the logout domain cannot be resolved; otherwise 200 "Logged out" with the access and refresh cookies emptied and expired, on the logout domain, path "/", not secure, not http-only, SameSite Lax |
| UserController.LogoutExpiresLoginCookies | controllers/user.go:125-145 | when ENV and GO_ENV agree, logout expires cookies with the same names, path and domain as the ones login set |
| UserController.GetProfile | controllers/user.go:203-227 | OPTIONS gives an empty 200; 400 for an empty id; 200 with the public fields of the row whose key the id reads as; 404 whenever the id is not a `bigint`, names no stored key, or the query fails |
| Pipeline.AdminRouteAfterAuth | routes/place.go:22-23 | behind the authentication gate, the admin gate never answers 401; it admits exactly the verified tokens whose claims say admin, and refuses every refreshed session with 403 |
| Pipeline.AdminRouteAfterClaimsRefresh | routes/place.go:22-23 | with the corrected refresh path, a refreshed admin session passes the admin gate |
| Pipeline.OwnerRouteAfterAuth | middleware/activityOwner.go:13-34 | placed behind the authentication gate (the intended chain, which no route registers), the ownership gate never answers 401, and after a verified access token it never panics on the caller's id |
| Pipeline.RefreshedSessionPanicsAtOwnerGate | middleware/activityOwner.go:34 | a session continued by the refresh path holds an `int` caller id, so an ownership gate placed after the authentication gate panics once the activity is found |
| Pipeline.OwnerRouteAfterClaimsRefresh | middleware/activityOwner.go:13-34 | with the corrected refresh path, an ownership gate placed after the authentication gate never panics and never answers 401 |
| Pipeline.LoginThenAuthenticate | controllers/user.go:125-135 | the access cookie of a successful login, sent back and accepted by the JWT library, makes the authentication gate continue as the user who logged in, with that user's admin flag |

## Left out

- Route registration is not modelled. `Pipeline` chains the authentication gate with the
  admin gate as routes/place.go does, and with the ownership gate in the order the design
  intends, although no route registers `ActivityOwner`.
- JWT encoding, HMAC signing and claim validation belong to the JWT library. They are the
  `Signer` and `Verifier` parameters, so properties of the library (that a token verifies
  only under the secret that signed it, that it carries the claims it was signed over, and
  that a token whose header names a non-HMAC method is refused) are not proved here. The
  refusal of non-HMAC methods reaches the gate as the `Unverifiable` flag.
- bcrypt is the `PasswordHasher` and `PasswordCheck` parameters. Its salting, cost and
  72-byte limit are not modelled.
- Time: `time.Now` is the `now` parameter, in whole seconds, and the sub-second truncation
  of `jwt.NewNumericDate` is not modelled. The created and updated times signup writes are
  `now`. gorm's automatic timestamps, soft-delete column and the admin row's zero times
  are not modelled.
- Integer widths: `models.User.ID` is an `int` and `Claims.UserID` a `uint`. Both are `nat`
  in the records here, so a negative or overflowing id is not modelled. The Go type of the
  id stored in the request context is kept (`IntId` or `UintId`), because the ownership
  gate's type assertion depends on it. `middleware/generateTokens.go:22` and `:47` assign
  the `int` `User.ID` to the `uint` `UserID` field without a conversion, which Go refuses
  to compile; the model reads them as converting the value.
- The database is the `UserTable` class and the place map. A refused read or write is a
  flag; connection handling (`ConnectToDB`, `GetDB`, the db middleware) is not modelled.
  An id path parameter is read the way PostgreSQL reads `bigint` text: white space around
  an optional sign and digits, within the `bigint` range.
- Database.UserTable.Save: requires a non-zero id. The core only saves a row it has just
  read, so gorm's insert-on-zero-id branch of `Save` is not modelled.
- Gin: cookie URL-escaping, header-name canonicalisation and the text of the JSON binder's
  error (only its "Invalid input: " prefix is kept) are not modelled. A handler that
  returns without writing (an OPTIONS request) is the empty 200 gin sends for it.
- `log.Fatalf` is the `Fatal` step or the `Exit` reply. The JSON response the logout
  handler would write after it is unreachable and is not modelled.
- Logging, the CORS set-up, route registration beyond the gate order, and the
  activities, gym, place and home controllers are not part of this model.
- Http.ParseId: the underscores between digits and the `0x`, `0o` and `0b` prefixes that
  PostgreSQL 16 also accepts in integer text are not modelled, nor any parsing the
  database driver does before the text reaches the server.
- Cookies.BeforeFirst and Cookies.AfterFirst: model `strings.Split` for a non-empty
  separator only, which is all `extractDomain` uses ("//" and ":").
- UserController.SignupUser: does not state the exact 400 body text for a failed bind,
  only its status.

## Findings

| source | as written | input that shows it | evidently intended | confidence | as-written member | corrected member |
|---|---|---|---|---|---|---|
| middleware/auth.go:62-79 | on an expired access token and a valid refresh token, the new access token and the context identity come from a zero-valued `models.User` | a refresh token verified as `Claims(7, "root", true, …)` with an access token rejected only as expired: the request continues as user 0 with isAdmin false, and the admin gate then refuses it with 403 | mint the new token for, and set the context from, the user the refresh token names | high, not executed | Auth.RefreshForgetsAdmin | Auth.RefreshKeepsIdentity |
| controllers/user.go:44-67 | the lookup of an existing user by email or username only stops signup when the query fails; a found user falls through to the insert | signing up twice with the same email on a writable table: both calls answer 201 and the table holds two rows with that email | answer 409 and store nothing when a user with that email or username exists | high, not executed | UserController.SignupUser | UserController.SignupUserRejectingDuplicates |
| middleware/activityOwner.go:34 | the ownership gate asserts the context's userID is a `uint`, but the refresh path stores `user.ID`, a Go `int` (middleware/auth.go:77, models/user.go:8) | no route registers `ActivityOwner`; placed after the authentication gate, as the design orders the gates, a request whose access token is expired and whose refresh token is valid, for an activity that exists, makes the assertion panic and gin answers a bare 500 | store the caller id with one type on every path, the `uint` of the claims | low, not executed; the panic is latent because the gate is defined but never registered, and the package as shown does not compile (middleware/generateTokens.go:22), so the declared types may not be the ones deployed | Pipeline.RefreshedSessionPanicsAtOwnerGate | Pipeline.OwnerRouteAfterClaimsRefresh |
