/** Configuration lookups of shared/env/env.go: read a variable and fall
    back to a default when it is empty, unset or does not parse. Integers
    follow strconv.ParseInt in base 10 with a 64-bit range and booleans
    strconv.ParseBool; time.ParseDuration is a parameter. */
module Env {
  import opened Errors

  /** The process environment; a variable that is not set has no entry. */
  type Environment = map<string, string>

  /** os.Getenv: the variable's value, "" when it is not set. */
  function Getenv(env: Environment, key: string): (v: string)
    ensures key !in env ==> v == ""
    ensures key in env ==> v == env[key]
  {
    if key in env then env[key] else ""
  }

  /** GetString: the default iff the variable is empty or unset. */
  function GetString(env: Environment, key: string, default: string): (r: string)
    ensures Getenv(env, key) == "" ==> r == default
    ensures Getenv(env, key) != "" ==> r == Getenv(env, key)
  {
    var value := Getenv(env, key);
    if value == "" then default else value
  }

  // ----- strconv.ParseInt(s, 10, 64) -----

  const MinInt64: int := -0x8000_0000_0000_0000
  const MaxInt64: int := 0x7fff_ffff_ffff_ffff

  predicate IsDigit(c: char) { '0' <= c <= '9' }

  predicate AllDigits(s: string) { forall i :: 0 <= i < |s| ==> IsDigit(s[i]) }

  function DigitValue(c: char): (d: nat)
    requires IsDigit(c)
    ensures d < 10
  {
    c as int - '0' as int
  }

  function DigitChar(d: nat): (c: char)
    requires d < 10
    ensures IsDigit(c) && DigitValue(c) == d
  {
    ('0' as int + d) as char
  }

  /** The number a string of decimal digits denotes (leading zeros allowed). */
  function DigitsValue(s: string): nat
    requires AllDigits(s)
    decreases |s|
  {
    if |s| == 0 then 0 else DigitsValue(s[..|s| - 1]) * 10 + DigitValue(s[|s| - 1])
  }

  /** The shortest decimal digits of `n`. */
  function Digits(n: nat): (s: string)
    ensures |s| >= 1 && AllDigits(s)
    decreases n
  {
    if n < 10 then [DigitChar(n)] else Digits(n / 10) + [DigitChar(n % 10)]
  }

  /** Reading back the digits of `n` gives `n`. */
  lemma {:induction false} DigitsRoundTrip(n: nat)
    ensures DigitsValue(Digits(n)) == n
    decreases n
  {
    var s := Digits(n);
    if n >= 10 {
      assert s[..|s| - 1] == Digits(n / 10);
      DigitsRoundTrip(n / 10);
    }
  }

  /** A string without its leading sign, if it has one. */
  function Magnitude(s: string): (m: string)
    ensures |m| <= |s|
  {
    if |s| > 0 && (s[0] == '+' || s[0] == '-') then s[1..] else s
  }

  /** The value of an optionally signed run of digits. */
  function SignedValue(s: string): int
    requires AllDigits(Magnitude(s))
  {
    var magnitude: int := DigitsValue(Magnitude(s));
    if |s| > 0 && s[0] == '-' then -magnitude else magnitude
  }

  /** strconv.ParseInt(s, 10, 64): an optional sign followed by at least one
      decimal digit, denoting a value in the 64-bit range; anything else
      (including underscores, spaces and an empty string) is an error. */
  function ParseInt(s: string): (r: Option<int>)
    ensures r.Some? <==> |Magnitude(s)| > 0 && AllDigits(Magnitude(s)) && MinInt64 <= SignedValue(s) <= MaxInt64
    ensures r.Some? ==> AllDigits(Magnitude(s)) && r.value == SignedValue(s)
    ensures r.Some? ==> MinInt64 <= r.value <= MaxInt64
    ensures r.Some? ==> |s| >= 1 && (IsDigit(s[0]) || s[0] == '+' || s[0] == '-')
    ensures r.Some? && r.value < 0 ==> s[0] == '-'
  {
    if |s| == 0 then None
    else
      var signed := s[0] == '+' || s[0] == '-';
      var digits := if signed then s[1..] else s;
      if |digits| == 0 || !AllDigits(digits) then None
      else
        var magnitude: int := DigitsValue(digits);
        var v := if s[0] == '-' then 0 - magnitude else magnitude;
        if MinInt64 <= v <= MaxInt64 then Some(v) else None
  }

  /** strconv.FormatInt(n, 10). */
  function FormatInt(n: int): string {
    if n < 0 then "-" + Digits(-n) else Digits(n)
  }

  /** Every 64-bit integer survives formatting and parsing. */
  lemma ParseFormatInt(n: int)
    requires MinInt64 <= n <= MaxInt64
    ensures ParseInt(FormatInt(n)) == Some(n)
  {
    var s := FormatInt(n);
    if n < 0 {
      DigitsRoundTrip(-n);
      assert s[0] == '-';
      assert s[1..] == Digits(-n);
      assert DigitsValue(s[1..]) == -n;
    } else {
      DigitsRoundTrip(n);
      assert s == Digits(n);
      assert IsDigit(s[0]) && s[0] != '+' && s[0] != '-';
      assert DigitsValue(s) == n;
    }
  }

  /** GetInt: the default when the variable is empty, unset or not a
      base-10 64-bit integer; otherwise its value. */
  function GetInt(env: Environment, key: string, default: int): (r: int)
    ensures Getenv(env, key) == "" ==> r == default
    ensures Getenv(env, key) != "" && ParseInt(Getenv(env, key)).None? ==> r == default
    ensures ParseInt(Getenv(env, key)).Some? ==> r == ParseInt(Getenv(env, key)).value
    ensures MinInt64 <= default <= MaxInt64 ==> MinInt64 <= r <= MaxInt64
  {
    var value := Getenv(env, key);
    if value == "" then default
    else match ParseInt(value)
      case None => default
      case Some(v) => v
  }

  /** A variable holding a formatted 64-bit integer reads back as it. */
  lemma GetIntReadsFormatted(env: Environment, key: string, n: int, default: int)
    requires MinInt64 <= n <= MaxInt64
    ensures GetInt(env[key := FormatInt(n)], key, default) == n
  {
    ParseFormatInt(n);
  }

  // ----- strconv.ParseBool -----

  /** strconv.ParseBool: the twelve accepted spellings. */
  function ParseBool(s: string): (r: Option<bool>)
    ensures r == Some(true) <==> s in {"1", "t", "T", "TRUE", "true", "True"}
    ensures r == Some(false) <==> s in {"0", "f", "F", "FALSE", "false", "False"}
  {
    if s in {"1", "t", "T", "TRUE", "true", "True"} then Some(true)
    else if s in {"0", "f", "F", "FALSE", "false", "False"} then Some(false)
    else None
  }

  /** strconv.FormatBool. */
  function FormatBool(b: bool): string {
    if b then "true" else "false"
  }

  /** GetBool: the default when the variable is empty, unset or not a
      boolean spelling; otherwise its value. */
  function GetBool(env: Environment, key: string, default: bool): (r: bool)
    ensures ParseBool(Getenv(env, key)).None? ==> r == default
    ensures ParseBool(Getenv(env, key)).Some? ==> r == ParseBool(Getenv(env, key)).value
  {
    var value := Getenv(env, key);
    if value == "" then default
    else match ParseBool(value)
      case None => default
      case Some(b) => b
  }

  /** A variable holding a formatted boolean reads back as it. */
  lemma GetBoolReadsFormatted(env: Environment, key: string, b: bool, default: bool)
    ensures GetBool(env[key := FormatBool(b)], key, default) == b
  {
  }

  // ----- time.ParseDuration -----

  /** GetTimeDuration: `parse` stands for time.ParseDuration (`None` for a
      parse error); the default is used when the variable is empty, unset
      or does not parse. */
  function GetTimeDuration(env: Environment, key: string, default: int, parse: string -> Option<int>): (r: int)
    ensures Getenv(env, key) == "" ==> r == default
    ensures Getenv(env, key) != "" && parse(Getenv(env, key)).None? ==> r == default
    ensures Getenv(env, key) != "" && parse(Getenv(env, key)).Some? ==> r == parse(Getenv(env, key)).value
  {
    var value := Getenv(env, key);
    if value == "" then default
    else match parse(value)
      case None => default
      case Some(d) => d
  }

  /** Unset and empty variables are indistinguishable to every getter. */
  lemma UnsetIsEmpty(env: Environment, key: string, s: string, i: int, b: bool, d: int, parse: string -> Option<int>)
    ensures GetString(env - {key}, key, s) == GetString(env[key := ""], key, s) == s
    ensures GetInt(env - {key}, key, i) == GetInt(env[key := ""], key, i) == i
    ensures GetBool(env - {key}, key, b) == GetBool(env[key := ""], key, b) == b
    ensures GetTimeDuration(env - {key}, key, d, parse) == GetTimeDuration(env[key := ""], key, d, parse) == d
  {
  }
}
