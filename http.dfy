/** The slice of the HTTP boundary (gin's request context) that the gates and handlers use. */
module Http {
  import opened Base

  /** The SameSite mode gin puts on a cookie: its default, or Lax after `SetSameSite(Lax)`. */
  datatype SameSite = DefaultMode | LaxMode

  /** One `Set-Cookie` written by `ctx.SetCookie(name, value, maxAge, path, domain, secure, httpOnly)`. */
  datatype Cookie = Cookie(
    name: string,
    value: string,
    maxAge: int,
    path: string,
    domain: string,
    secure: bool,
    httpOnly: bool,
    sameSite: SameSite)

  /** An inbound request: its HTTP method (verb), the cookies it carries and its headers. */
  datatype Request = Request(verb: string, cookies: map<string, string>, headers: map<string, string>)

  /** `ctx.GetHeader`: the header's value, or "" when it is absent. */
  function Header(req: Request, name: string): string
  {
    if name in req.headers then req.headers[name] else ""
  }

  /**
   * A value stored in gin's request context with `ctx.Set`, keeping its Go type: the
   * gates read it back with a type assertion, which fails on a value of another type.
   */
  datatype CtxValue = IntId(i: int) | UintId(n: nat) | Flag(b: bool)

  /** The request-scoped context, keyed like gin's (`"userID"`, `"isAdmin"`). */
  type Context = map<string, CtxValue>

  /**
   * What one middleware stage does with a request: call `ctx.Next()` with an enriched
   * context and the cookies it set, or `ctx.Abort()` after one JSON error. `Fatal` is
   * `log.Fatalf` (the process exits); `Panic` is a failed type assertion, which gin's
   * recovery middleware turns into a bare 500.
   */
  datatype Step =
    | Next(ctx: Context, cookies: seq<Cookie>)
    | Abort(status: nat, error: string)
    | Fatal(reason: string)
    | Panic(reason: string)

  predicate IsDigit(c: char) { '0' <= c <= '9' }

  predicate AllDigits(s: string)
  {
    forall i :: 0 <= i < |s| ==> IsDigit(s[i])
  }

  /** C's `isspace` in the default locale: space, tab, newline, vertical tab, form feed, carriage return. */
  predicate IsSpace(c: char) { c == ' ' || '\t' <= c <= '\r' }

  predicate AllSpace(s: string)
  {
    forall i :: 0 <= i < |s| ==> IsSpace(s[i])
  }

  /** The value of a string of decimal digits, most significant first. */
  function DecimalValue(s: string): (r: Option<nat>)
    ensures r.Some? <==> AllDigits(s)
  {
    if s == [] then Some(0)
    else
      match DecimalValue(s[..|s| - 1])
      case None => None
      case Some(high) =>
        if IsDigit(s[|s| - 1]) then Some(high * 10 + (s[|s| - 1] as int - '0' as int)) else None
  }

  function DigitChar(d: nat): (c: char)
    requires d < 10
    ensures IsDigit(c) && c as int - '0' as int == d
  {
    ('0' as int + d) as char
  }

  /** The decimal spelling of `n`, without leading zeros (`strconv.Itoa`). */
  function DecimalString(n: nat): (s: string)
    ensures s != [] && AllDigits(s)
    decreases n
  {
    if n < 10 then [DigitChar(n)] else DecimalString(n / 10) + [DigitChar(n % 10)]
  }

  /** Reading back the decimal spelling of a number gives that number. */
  lemma {:induction false} DecimalRoundTrip(n: nat)
    ensures DecimalValue(DecimalString(n)) == Some(n)
    decreases n
  {
    var s := DecimalString(n);
    if n < 10 {
      assert s[..|s| - 1] == [];
    } else {
      DecimalRoundTrip(n / 10);
      assert s[..|s| - 1] == DecimalString(n / 10);
    }
  }

  /** The spelling of a possibly negative number. */
  function IntString(n: int): string
  {
    if n < 0 then "-" + DecimalString(-n) else DecimalString(n)
  }

  /** The range of PostgreSQL's `bigint`, the column type of the primary keys. */
  const MinBigint: int := -0x8000_0000_0000_0000
  const MaxBigint: int := 0x7FFF_FFFF_FFFF_FFFF

  /** `s` without its leading white space. */
  function TrimLeft(s: string): (r: string)
    ensures |r| <= |s| && r == s[|s| - |r|..]
    ensures forall i :: 0 <= i < |s| - |r| ==> IsSpace(s[i])
    ensures r == [] || !IsSpace(r[0])
  {
    if s != [] && IsSpace(s[0]) then
      var r := TrimLeft(s[1..]);
      assert forall i :: 1 <= i < |s| - |r| ==> s[i] == s[1..][i - 1];
      r
    else s
  }

  /** `s` without its trailing white space. */
  function TrimRight(s: string): (r: string)
    ensures |r| <= |s| && r == s[..|r|]
    ensures forall i :: |r| <= i < |s| ==> IsSpace(s[i])
    ensures r == [] || !IsSpace(r[|r| - 1])
  {
    if s != [] && IsSpace(s[|s| - 1]) then TrimRight(s[..|s| - 1]) else s
  }

  /** `t` starts with a sign character. */
  predicate HasSign(t: string) { t != [] && (t[0] == '+' || t[0] == '-') }

  /** `t` without its sign character, if it has one. */
  function Magnitude(t: string): (r: string)
    ensures HasSign(t) ==> r == t[1..]
    ensures !HasSign(t) ==> r == t
  {
    if HasSign(t) then t[1..] else t
  }

  /** An optional sign followed by one or more digits, within the `bigint` range. */
  function SignedValue(t: string): (r: Option<int>)
    ensures r.Some? ==> MinBigint <= r.value <= MaxBigint
  {
    var digits := Magnitude(t);
    if digits == [] then None
    else
      match DecimalValue(digits)
      case None => None
      case Some(v) =>
        var n := if t[0] == '-' then -(v as int) else v as int;
        if MinBigint <= n <= MaxBigint then Some(n) else None
  }

  /**
   * How PostgreSQL reads the text of an `id` path parameter compared with a `bigint`
   * column: white space around an optional sign and a non-empty run of digits, within
   * the `bigint` range, is that number; anything else makes the query fail.
   */
  function ParseId(s: string): (r: Option<int>)
    ensures r.Some? ==> MinBigint <= r.value <= MaxBigint
  {
    SignedValue(TrimLeft(TrimRight(s)))
  }

  lemma {:induction false} TrimLeftSpaces(pre: string, m: string)
    requires AllSpace(pre) && m != [] && !IsSpace(m[0])
    ensures TrimLeft(pre + m) == m
    decreases |pre|
  {
    if pre != [] {
      assert (pre + m)[0] == pre[0];
      assert (pre + m)[1..] == pre[1..] + m;
      TrimLeftSpaces(pre[1..], m);
    } else {
      assert pre + m == m;
    }
  }

  lemma {:induction false} TrimRightSpaces(m: string, post: string)
    requires AllSpace(post) && m != [] && !IsSpace(m[|m| - 1])
    ensures TrimRight(m + post) == m
    decreases |post|
  {
    if post != [] {
      assert (m + post)[..|m + post| - 1] == m + post[..|post| - 1];
      TrimRightSpaces(m, post[..|post| - 1]);
    } else {
      assert m + post == m;
    }
  }

  /** The sign and the digits of `sign + digits`, taken apart again. */
  lemma {:induction false} SignedParts(sign: string, digits: string)
    requires sign == "" || sign == "+" || sign == "-"
    requires digits != [] && AllDigits(digits)
    ensures Magnitude(sign + digits) == digits
    ensures (sign + digits)[0] == '-' <==> sign == "-"
  {
    if sign == "" {
      assert sign + digits == digits;
      assert IsDigit(digits[0]);
    } else {
      assert (sign + digits)[1..] == digits;
    }
  }

  /** An optional sign and a run of digits read as the signed value of the digits, when it is a `bigint`. */
  lemma {:induction false} SignedValueOfDigits(sign: string, digits: string)
    requires sign == "" || sign == "+" || sign == "-"
    requires digits != [] && AllDigits(digits)
    ensures var v := DecimalValue(digits).value;
      var n := if sign == "-" then -(v as int) else v as int;
      SignedValue(sign + digits) == if MinBigint <= n <= MaxBigint then Some(n) else None
  {
    SignedParts(sign, digits);
  }

  /**
   * Any amount of white space around an optional sign and a run of digits reads as the
   * signed value of the digits, when it is in the `bigint` range.
   */
  lemma {:induction false} ParseIdReadsNumber(pre: string, sign: string, digits: string, post: string)
    requires AllSpace(pre) && AllSpace(post)
    requires sign == "" || sign == "+" || sign == "-"
    requires digits != [] && AllDigits(digits)
    ensures var v := DecimalValue(digits).value;
      var n := if sign == "-" then -(v as int) else v as int;
      ParseId(pre + sign + digits + post) == if MinBigint <= n <= MaxBigint then Some(n) else None
  {
    var m := sign + digits;
    assert pre + sign + digits + post == (pre + m) + post;
    assert (pre + m)[|pre + m| - 1] == digits[|digits| - 1];
    TrimRightSpaces(pre + m, post);
    assert m[0] == if sign == "" then digits[0] else sign[0];
    TrimLeftSpaces(pre, m);
    SignedValueOfDigits(sign, digits);
  }

  /** Without padding: an optional sign and a run of digits. */
  lemma {:induction false} ParseIdOfSignedDigits(sign: string, digits: string)
    requires sign == "" || sign == "+" || sign == "-"
    requires digits != [] && AllDigits(digits)
    ensures var v := DecimalValue(digits).value;
      var n := if sign == "-" then -(v as int) else v as int;
      ParseId(sign + digits) == if MinBigint <= n <= MaxBigint then Some(n) else None
  {
    var t := sign + digits;
    assert t[|t| - 1] == digits[|digits| - 1];
    assert TrimRight(t) == t;
    assert t[0] == if sign == "" then digits[0] else sign[0];
    assert TrimLeft(t) == t;
    SignedValueOfDigits(sign, digits);
  }

  /** Every `bigint` reads back from its spelling. */
  lemma {:induction false} ParseIdRoundTrip(n: int)
    requires MinBigint <= n <= MaxBigint
    ensures ParseId(IntString(n)) == Some(n)
  {
    if n < 0 {
      var m: nat := -n;
      var ds := DecimalString(m);
      DecimalRoundTrip(m);
      assert IntString(n) == "-" + ds;
      ParseIdOfSignedDigits("-", ds);
    } else {
      var ds := DecimalString(n);
      DecimalRoundTrip(n);
      assert IntString(n) == "" + ds;
      ParseIdOfSignedDigits("", ds);
    }
  }

  /** A number past the `bigint` range makes the query fail. */
  lemma {:induction false} ParseIdOutOfRange(n: nat)
    requires n > MaxBigint
    ensures ParseId(DecimalString(n)).None?
  {
    DecimalRoundTrip(n);
    assert "" + DecimalString(n) == DecimalString(n);
    ParseIdOfSignedDigits("", DecimalString(n));
  }

  /** Every character of `s` is a digit, a sign character or white space. */
  predicate NumberText(s: string)
  {
    forall i :: 0 <= i < |s| ==> IsDigit(s[i]) || IsSpace(s[i]) || s[i] == '+' || s[i] == '-'
  }

  lemma {:induction false} SignedValueText(t: string)
    requires SignedValue(t).Some?
    ensures NumberText(t)
  {
    var digits := Magnitude(t);
    assert AllDigits(digits);
    forall i | 0 <= i < |t| && !(HasSign(t) && i == 0) ensures IsDigit(t[i]) {
      assert digits[if HasSign(t) then i - 1 else i] == t[i];
    }
  }

  lemma {:induction false} TrimLeftText(s: string)
    requires NumberText(TrimLeft(s))
    ensures NumberText(s)
  {
    var r := TrimLeft(s);
    forall i | |s| - |r| <= i < |s| ensures r[i - (|s| - |r|)] == s[i] {
    }
  }

  lemma {:induction false} TrimRightText(s: string)
    requires NumberText(TrimRight(s))
    ensures NumberText(s)
  {
    var r := TrimRight(s);
    forall i | 0 <= i < |r| ensures r[i] == s[i] {
    }
  }

  /** Text that reads as a number holds only white space, sign characters and digits. */
  lemma {:induction false} ParseIdAcceptsOnlyNumberText(s: string)
    requires ParseId(s).Some?
    ensures forall i :: 0 <= i < |s| ==> IsDigit(s[i]) || IsSpace(s[i]) || s[i] == '+' || s[i] == '-'
  {
    SignedValueText(TrimLeft(TrimRight(s)));
    TrimLeftText(TrimRight(s));
    TrimRightText(s);
  }

  /** Signs are accepted. */
  lemma ParseIdSignExamples()
    ensures ParseId("+5") == Some(5)
    ensures ParseId("-5") == Some(-5)
  {
    assert DecimalValue("5") == Some(5);
    assert "+" + "5" == "+5";
    ParseIdOfSignedDigits("+", "5");
    assert "-" + "5" == "-5";
    ParseIdOfSignedDigits("-", "5");
  }

  /** White space around the number is accepted. */
  lemma ParseIdPaddingExample()
    ensures ParseId(" 42\n") == Some(42)
  {
    assert DecimalValue("42") == Some(42);
    assert " " + "" + "42" + "\n" == " 42\n";
    ParseIdReadsNumber(" ", "", "42", "\n");
  }

  /** Letters after the digits make the query fail. */
  lemma ParseIdRejectsTrailingText()
    ensures ParseId("12abc").None?
  {
  }
}
