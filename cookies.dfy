/**
 * The cookie-policy resolver (middleware/cookies.go): the domain, secure and http-only
 * attributes of the session cookies, read from the environment, and `extractDomain`,
 * which cuts a bare host out of a configured origin such as "http://localhost:8081".
 */
module Cookies {
  import opened Base

  // ---- The Go string operations `extractDomain` is built from -------------------------

  /** `pat` occurs in `s` starting at position `j`. */
  predicate OccursAt(s: string, pat: string, j: nat)
  {
    j + |pat| <= |s| && forall k :: 0 <= k < |pat| ==> s[j + k] == pat[k]
  }

  lemma OccursShift(s: string, pat: string, j: nat)
    requires s != []
    ensures OccursAt(s, pat, j + 1) <==> OccursAt(s[1..], pat, j)
  {
  }

  /** `strings.Index`: the position of the first occurrence of `pat` in `s`. */
  function Index(s: string, pat: string): (r: Option<nat>)
    ensures r.Some? ==> OccursAt(s, pat, r.value)
    ensures r.Some? ==> forall j: nat :: j < r.value ==> !OccursAt(s, pat, j)
    ensures r.None? ==> forall j: nat :: !OccursAt(s, pat, j)
    decreases |s|
  {
    if |s| < |pat| then None
    else if OccursAt(s, pat, 0) then Some(0)
    else
      match Index(s[1..], pat)
      case None =>
        assert forall j: nat :: !OccursAt(s, pat, j) by {
          forall j: nat ensures !OccursAt(s, pat, j) {
            if j > 0 { OccursShift(s, pat, j - 1); }
          }
        }
        None
      case Some(i) =>
        OccursShift(s, pat, i);
        assert forall j: nat :: j < i + 1 ==> !OccursAt(s, pat, j) by {
          forall j: nat | j < i + 1 ensures !OccursAt(s, pat, j) {
            if j > 0 { OccursShift(s, pat, j - 1); }
          }
        }
        Some(i + 1)
  }

  /** `strings.Contains`. */
  function Contains(s: string, pat: string): (b: bool)
    ensures b <==> exists j: nat :: OccursAt(s, pat, j)
  {
    Index(s, pat).Some?
  }

  /** An occurrence in a prefix is an occurrence in the whole string. */
  lemma {:induction false} PrefixOccurrence(s: string, r: string, sep: string)
    requires |r| <= |s| && r == s[..|r|]
    ensures forall j: nat :: OccursAt(r, sep, j) ==> OccursAt(s, sep, j)
  {
    forall j: nat | OccursAt(r, sep, j) ensures OccursAt(s, sep, j) {
      forall k | 0 <= k < |sep| ensures s[j + k] == sep[k] {
        assert r[j + k] == s[j + k];
      }
    }
  }

  /** `pat` occurs in `s[start..]` at `j` exactly when it occurs in `s` at `start + j`. */
  lemma {:induction false} OccursInSuffix(s: string, pat: string, start: nat, j: nat)
    requires start <= |s|
    ensures OccursAt(s[start..], pat, j) <==> OccursAt(s, pat, start + j)
  {
    if OccursAt(s, pat, start + j) {
      forall k | 0 <= k < |pat| ensures s[start..][j + k] == pat[k] {
        assert s[start..][j + k] == s[start + (j + k)];
      }
    }
  }

  /**
   * `strings.Split(s, sep)[0]` for a non-empty `sep`: all of `s` when it has no `sep`,
   * otherwise the text before the first `sep`.
   */
  function BeforeFirst(s: string, sep: string): (r: string)
    requires sep != []
    ensures |r| <= |s| && r == s[..|r|]
    ensures !Contains(s, sep) ==> r == s
    ensures Contains(s, sep) ==> OccursAt(s, sep, |r|) && forall j: nat :: j < |r| ==> !OccursAt(s, sep, j)
    ensures !Contains(r, sep)
  {
    match Index(s, sep)
    case None => s
    case Some(i) =>
      var r := s[..i];
      PrefixOccurrence(s, r, sep);
      r
  }

  /**
   * `r` is the text of `s` from `start` up to the next `sep` or the end: no `sep` starts
   * inside it, and one starts right after it unless it reaches the end of `s`.
   */
  predicate SegmentAt(s: string, sep: string, start: nat, r: string)
  {
    && start + |r| <= |s| && r == s[start..start + |r|]
    && (start + |r| == |s| || OccursAt(s, sep, start + |r|))
    && forall j: nat :: start <= j < start + |r| ==> !OccursAt(s, sep, j)
  }

  lemma {:induction false} SegmentFrom(s: string, sep: string, start: nat)
    requires sep != [] && start <= |s|
    ensures SegmentAt(s, sep, start, BeforeFirst(s[start..], sep))
  {
    var r := BeforeFirst(s[start..], sep);
    if Contains(s[start..], sep) {
      OccursInSuffix(s, sep, start, |r|);
    }
    forall j: nat | start <= j < start + |r| ensures !OccursAt(s, sep, j) {
      OccursInSuffix(s, sep, start, j - start);
    }
  }

  /**
   * `strings.Split(s, sep)[1]` when `s` contains a non-empty `sep`: the segment that starts
   * just after the first `sep`.
   */
  function AfterFirst(s: string, sep: string): (r: string)
    requires sep != [] && Contains(s, sep)
    ensures SegmentAt(s, sep, Index(s, sep).value + |sep|, r)
    ensures !Contains(r, sep)
  {
    var start := Index(s, sep).value + |sep|;
    SegmentFrom(s, sep, start);
    BeforeFirst(s[start..], sep)
  }

  /** No character of `s` is `c`. */
  predicate Lacks(s: string, c: char)
  {
    forall i :: 0 <= i < |s| ==> s[i] != c
  }

  lemma {:induction false} LacksFirstCharNoOccurrence(s: string, sep: string)
    requires sep != [] && Lacks(s, sep[0])
    ensures !Contains(s, sep)
  {
    forall j: nat | OccursAt(s, sep, j) ensures false {
    }
  }

  /** When `a` has no character that starts `sep`, the first `sep` in `a + sep + b` is the one after `a`. */
  lemma {:induction false} IndexAfterPrefix(a: string, sep: string, b: string)
    requires sep != [] && Lacks(a, sep[0])
    ensures Index(a + sep + b, sep) == Some(|a|)
  {
    var s := a + sep + b;
    assert forall k :: 0 <= k < |sep| ==> s[|a| + k] == sep[k];
    assert OccursAt(s, sep, |a|);
    forall j: nat | j < |a| ensures !OccursAt(s, sep, j) {
      assert s[j + 0] == a[j];
    }
  }

  // ---- extractDomain -------------------------------------------------------------------

  /**
   * `extractDomain`: keep what follows the first "//" (up to a second "//"), then keep
   * what precedes the first ":".
   */
  function ExtractDomain(fullOrigin: string): (r: string)
    ensures !Contains(r, ":") && !Contains(r, "//")
    ensures !Contains(fullOrigin, "//") && !Contains(fullOrigin, ":") ==> r == fullOrigin
  {
    var afterScheme := if Contains(fullOrigin, "//") then AfterFirst(fullOrigin, "//") else fullOrigin;
    var host := if Contains(afterScheme, ":") then BeforeFirst(afterScheme, ":") else afterScheme;
    PrefixOccurrence(afterScheme, host, "//");
    host
  }

  /** Stripping is idempotent: a domain that has been extracted extracts to itself. */
  lemma ExtractDomainIdempotent(s: string)
    ensures ExtractDomain(ExtractDomain(s)) == ExtractDomain(s)
  {
  }

  /**
   * For an origin `scheme//host:port` (scheme without '/', host without '/' or ':',
   * port without '/'), the extracted domain is exactly the host; likewise without
   * the port, or without the scheme.
   */
  lemma {:induction false} ExtractDomainOfOrigin(scheme: string, host: string, port: string)
    requires Lacks(scheme, '/') && Lacks(host, '/') && Lacks(host, ':') && Lacks(port, '/')
    ensures ExtractDomain(scheme + "//" + host + ":" + port) == host
    ensures ExtractDomain(scheme + "//" + host) == host
    ensures ExtractDomain(host + ":" + port) == host
    ensures ExtractDomain(host) == host
  {
    LacksFirstCharNoOccurrence(host, "//");
    LacksFirstCharNoOccurrence(host, ":");
    var withPort := host + ":" + port;
    assert Lacks(withPort, '/');
    LacksFirstCharNoOccurrence(withPort, "//");
    IndexAfterPrefix(host, ":", port);
    assert withPort[..|host|] == host;

    IndexAfterPrefix(scheme, "//", withPort);
    assert scheme + "//" + host + ":" + port == scheme + "//" + withPort;
    assert (scheme + "//" + withPort)[|scheme| + 2..] == withPort;

    IndexAfterPrefix(scheme, "//", host);
    assert (scheme + "//" + host)[|scheme| + 2..] == host;
  }

  /** The development origin of the examples gives "localhost". */
  lemma ExtractDomainExample()
    ensures ExtractDomain("http://localhost:8081") == "localhost"
  {
    assert "http://localhost:8081" == "http:" + "//" + "localhost" + ":" + "8081";
    ExtractDomainOfOrigin("http:", "localhost", "8081");
  }

  // ---- strconv.ParseBool -----------------------------------------------------------------

  /** `strconv.ParseBool`: its fixed table of accepted spellings; anything else is a syntax error. */
  function ParseBool(s: string): (r: Option<bool>)
    ensures s == "" ==> r.None?
    ensures r.None? <==>
      s !in {"1", "t", "T", "TRUE", "true", "True", "0", "f", "F", "FALSE", "false", "False"}
    ensures r == Some(true) ==> s[0] in {'1', 't', 'T'}
    ensures r == Some(false) ==> s[0] in {'0', 'f', 'F'}
  {
    if s in {"1", "t", "T", "TRUE", "true", "True"} then Some(true)
    else if s in {"0", "f", "F", "FALSE", "false", "False"} then Some(false)
    else None
  }

  // ---- GetCookieSettings / GetLogoutCookieSettings --------------------------------------

  /** The environment keys for the domain and the two flags of one deployment. */
  datatype CookieKeys = CookieKeys(domain: string, secure: string, httpOnly: string)

  const DevKeys := CookieKeys("DEV_DOMAIN", "DEV_SECURE_COOKIE", "DEV_HTTP_ONLY_COOKIE")
  const ProdKeys := CookieKeys("PROD_DOMAIN", "PROD_SECURE_COOKIE", "PROD_HTTP_ONLY_COOKIE")

  /** GO_ENV "development" selects the DEV_* keys; every other value, unset included, the PROD_* keys. */
  function SettingsKeys(env: Env): CookieKeys
  {
    if Getenv(env, "GO_ENV") == "development" then DevKeys else ProdKeys
  }

  datatype ConfigError =
    | InvalidSyntax(value: string)  // strconv.ParseBool rejected `value`
    | Unset(key: string)            // a required variable is empty or unset
    | NoDomain(origin: string)      // extractDomain gave "" for `origin`

  /** The Go result `(domain, secure, httpOnly, err)`. */
  datatype CookieSettings = CookieSettings(domain: string, secure: bool, httpOnly: bool, err: Option<ConfigError>)

  /** `GetCookieSettings`. */
  function GetCookieSettings(env: Env): (r: CookieSettings)
    ensures r.err.Some? ==> r.domain == "" && !r.secure && !r.httpOnly
    ensures r.err.None? <==>
      ParseBool(Getenv(env, SettingsKeys(env).secure)).Some? &&
      ParseBool(Getenv(env, SettingsKeys(env).httpOnly)).Some?
    ensures r.err.None? ==>
      && r.domain == ExtractDomain(Getenv(env, SettingsKeys(env).domain))
      && ParseBool(Getenv(env, SettingsKeys(env).secure)) == Some(r.secure)
      && ParseBool(Getenv(env, SettingsKeys(env).httpOnly)) == Some(r.httpOnly)
    ensures ParseBool(Getenv(env, SettingsKeys(env).secure)).None? ==>
      r.err == Some(InvalidSyntax(Getenv(env, SettingsKeys(env).secure)))
    ensures ParseBool(Getenv(env, SettingsKeys(env).secure)).Some? &&
            ParseBool(Getenv(env, SettingsKeys(env).httpOnly)).None? ==>
      r.err == Some(InvalidSyntax(Getenv(env, SettingsKeys(env).httpOnly)))
  {
    var keys := SettingsKeys(env);
    var domain := ExtractDomain(Getenv(env, keys.domain));
    match ParseBool(Getenv(env, keys.secure))
    case None => CookieSettings("", false, false, Some(InvalidSyntax(Getenv(env, keys.secure))))
    case Some(secure) =>
      match ParseBool(Getenv(env, keys.httpOnly))
      case None => CookieSettings("", false, false, Some(InvalidSyntax(Getenv(env, keys.httpOnly))))
      case Some(httpOnly) => CookieSettings(domain, secure, httpOnly, None)
  }

  /** Only GO_ENV's "development"-ness and the three selected keys matter. */
  lemma CookieSettingsReadOnlySelectedKeys(env1: Env, env2: Env)
    requires (Getenv(env1, "GO_ENV") == "development") == (Getenv(env2, "GO_ENV") == "development")
    requires var k := SettingsKeys(env1);
      Getenv(env1, k.domain) == Getenv(env2, k.domain) &&
      Getenv(env1, k.secure) == Getenv(env2, k.secure) &&
      Getenv(env1, k.httpOnly) == Getenv(env2, k.httpOnly)
    ensures GetCookieSettings(env1) == GetCookieSettings(env2)
  {
  }

  /** A missing domain is never an error: with valid flags, an unset domain yields "". */
  lemma UnsetDomainIsNotAnError(env: Env)
    requires SettingsKeys(env).domain !in env
    requires ParseBool(Getenv(env, SettingsKeys(env).secure)).Some?
    requires ParseBool(Getenv(env, SettingsKeys(env).httpOnly)).Some?
    ensures GetCookieSettings(env).err.None? && GetCookieSettings(env).domain == ""
  {
  }

  /** `GetLogoutCookieSettings` selects on ENV (not GO_ENV). */
  function LogoutOriginKey(env: Env): string
  {
    if Getenv(env, "ENV") == "development" then "DEV_DOMAIN" else "PROD_DOMAIN"
  }

  /** The Go result `(domain, err)` of `GetLogoutCookieSettings`. */
  datatype LogoutDomain = LogoutDomain(domain: string, err: Option<ConfigError>)

  /** `GetLogoutCookieSettings`. */
  function GetLogoutCookieSettings(env: Env): (r: LogoutDomain)
    ensures r.err.Some? ==> r.domain == ""
    ensures r.err.None? <==>
      Getenv(env, "ENV") != "" &&
      Getenv(env, LogoutOriginKey(env)) != "" &&
      ExtractDomain(Getenv(env, LogoutOriginKey(env))) != ""
    ensures r.err.None? ==> r.domain == ExtractDomain(Getenv(env, LogoutOriginKey(env)))
    ensures Getenv(env, "ENV") == "" ==> r.err == Some(Unset("ENV"))
    ensures Getenv(env, "ENV") != "" && Getenv(env, LogoutOriginKey(env)) == "" ==>
      r.err == Some(Unset(LogoutOriginKey(env)))
  {
    var envName := Getenv(env, "ENV");
    if envName == "" then LogoutDomain("", Some(Unset("ENV")))
    else
      var key := if envName == "development" then "DEV_DOMAIN" else "PROD_DOMAIN";
      var origin := Getenv(env, key);
      if origin == "" then LogoutDomain("", Some(Unset(key)))
      else
        var domain := ExtractDomain(origin);
        if domain == "" then LogoutDomain("", Some(NoDomain(origin)))
        else LogoutDomain(domain, None)
  }

  /**
   * The two resolvers key off different variables: with GO_ENV "development" and ENV
   * "production", login cookies take their domain from DEV_DOMAIN and logout clears the
   * one in PROD_DOMAIN.
   */
  lemma LoginAndLogoutKeysCanDiffer(env: Env)
    requires Getenv(env, "GO_ENV") == "development" && Getenv(env, "ENV") == "production"
    ensures SettingsKeys(env).domain == "DEV_DOMAIN" && LogoutOriginKey(env) == "PROD_DOMAIN"
  {
  }
}
