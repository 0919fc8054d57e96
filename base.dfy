/** Small shared vocabulary: optional values, the process environment and a string prefix test. */
module Base {

  datatype Option<+T> = None | Some(value: T)

  /** The process environment, as `os.Getenv` sees it. */
  type Env = map<string, string>

  /** `os.Getenv`: the value of `key`, or "" when it is unset. */
  function Getenv(env: Env, key: string): string
  {
    if key in env then env[key] else ""
  }

  /** `strings.HasPrefix`. */
  predicate HasPrefix(s: string, prefix: string)
  {
    |prefix| <= |s| && s[..|prefix|] == prefix
  }
}
