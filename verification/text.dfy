/** Decimal rendering and parsing of numbers, as JavaScript performs them in
    template literals (`${n}`), `toString()`, `Number(s)` and
    `Number.parseInt(s, 10)`, and the quoted version tag `"<n>"` used as
    ETag and as the update precondition token. */
module Text {
  import opened Wrappers

  predicate IsDigit(c: char) {
    '0' <= c <= '9'
  }

  predicate AllDigits(s: string) {
    forall i :: 0 <= i < |s| ==> IsDigit(s[i])
  }

  function Pow10(k: nat): (r: nat)
    ensures r >= 1
  {
    if k == 0 then 1 else 10 * Pow10(k - 1)
  }

  function DigitChar(d: nat): (c: char)
    requires d < 10
    ensures IsDigit(c)
  {
    (48 + d) as char
  }

  function DigitValue(c: char): (d: nat)
    requires IsDigit(c)
    ensures d < 10
    ensures DigitChar(d) == c
  {
    c as int - 48
  }

  /** The decimal digits of `n` without leading zeros: `String(n)`. */
  function NatToString(n: nat): (s: string)
    ensures |s| > 0 && AllDigits(s)
    ensures s[0] == '0' <==> n == 0
  {
    if n < 10 then [DigitChar(n)] else NatToString(n / 10) + [DigitChar(n % 10)]
  }

  /** The value of a string of decimal digits (the empty string is 0). */
  function ParseDigits(s: string): (n: nat)
    requires AllDigits(s)
    ensures n < Pow10(|s|)
  {
    if |s| == 0 then 0 else ParseDigits(s[..|s| - 1]) * 10 + DigitValue(s[|s| - 1])
  }

  lemma {:induction false} Pow10Monotonic(a: nat, b: nat)
    requires a <= b
    ensures Pow10(a) <= Pow10(b)
    decreases b
  {
    if a < b {
      Pow10Monotonic(a, b - 1);
    }
  }

  /** Parsing undoes rendering. */
  lemma {:induction false} ParseNatToString(n: nat)
    ensures ParseDigits(NatToString(n)) == n
  {
    if n >= 10 {
      var s := NatToString(n);
      assert s[..|s| - 1] == NatToString(n / 10);
      ParseNatToString(n / 10);
    }
  }

  /** A digit string without a leading zero is at least 10^(length-1). */
  lemma {:induction false} LeadingDigitBound(s: string)
    requires |s| > 0 && AllDigits(s) && s[0] != '0'
    ensures ParseDigits(s) >= Pow10(|s| - 1)
  {
    if |s| > 1 {
      var p := s[..|s| - 1];
      assert p[0] == s[0];
      LeadingDigitBound(p);
    }
  }

  /** Rendering undoes parsing on canonical digit strings (no leading zero). */
  lemma {:induction false} NatToStringParse(s: string)
    requires |s| > 0 && AllDigits(s) && (s[0] != '0' || |s| == 1)
    ensures NatToString(ParseDigits(s)) == s
  {
    var n := ParseDigits(s);
    if |s| > 1 {
      var p := s[..|s| - 1];
      assert p[0] == s[0];
      LeadingDigitBound(p);
      NatToStringParse(p);
      assert n / 10 == ParseDigits(p);
      assert s == p + [s[|s| - 1]];
    } else {
      assert n == DigitValue(s[0]);
    }
  }

  /** `n` has at most `k` decimal digits exactly when it is below 10^k. */
  lemma NatToStringLength(n: nat, k: nat)
    requires k >= 1
    ensures |NatToString(n)| <= k <==> n < Pow10(k)
  {
    var s := NatToString(n);
    ParseNatToString(n);
    if |s| <= k {
      Pow10Monotonic(|s|, k);
    } else {
      LeadingDigitBound(s);
      Pow10Monotonic(k, |s| - 1);
    }
  }

  /** `String(i)` for an integer of either sign. */
  function IntToString(i: int): (s: string)
    ensures |s| > 0
  {
    if i < 0 then "-" + NatToString(-i) else NatToString(i)
  }

  /** The strings NestJS's `ParseIntPipe` accepts: `^-?\d+$`. The pipe also
      demands a finite value, which every such string has here because
      integers are unbounded. */
  predicate IsIntegerString(s: string) {
    if |s| > 0 && s[0] == '-' then |s| > 1 && AllDigits(s[1..]) else |s| > 0 && AllDigits(s)
  }

  /** The value `ParseIntPipe` passes on, `None` when it rejects the string. */
  function IntegerValue(s: string): (r: Option<int>)
    ensures r.Some? <==> IsIntegerString(s)
  {
    if !IsIntegerString(s) then None
    else if s[0] == '-' then Some(-(ParseDigits(s[1..]) as int))
    else Some(ParseDigits(s))
  }

  lemma IntegerValueOfIntToString(i: int)
    ensures IntegerValue(IntToString(i)) == Some(i)
  {
    var s := IntToString(i);
    if i < 0 {
      assert s[1..] == NatToString(-i);
      ParseNatToString(-i);
    } else {
      ParseNatToString(i);
    }
  }

  /** JavaScript's `Number(s)` on decimal integer forms: the empty string is
      0, an optional sign followed by digits is that integer. `None` stands
      for `NaN`. */
  function NumberValue(s: string): (r: Option<int>)
    ensures AllDigits(s) && |s| > 0 ==> r == Some(ParseDigits(s))
  {
    if s == "" then Some(0)
    else if s[0] == '+' then (if |s| > 1 && AllDigits(s[1..]) then Some(ParseDigits(s[1..])) else None)
    else IntegerValue(s)
  }

  /** The longest prefix of `s` made of digits. */
  function LeadingDigits(s: string): (p: string)
    ensures |p| <= |s| && p == s[..|p|] && AllDigits(p)
    ensures |p| < |s| ==> !IsDigit(s[|p|])
  {
    if |s| == 0 || !IsDigit(s[0]) then "" else [s[0]] + LeadingDigits(s[1..])
  }

  /** `s` without a leading `+` or `-`. */
  function Unsigned(s: string): string {
    if |s| > 0 && (s[0] == '+' || s[0] == '-') then s[1..] else s
  }

  /** `Number.parseInt(s, 10)`: an optional sign, then as many digits as
      follow; `None` (NaN) when no digit follows the sign. */
  function ParseIntPrefix(s: string): (r: Option<int>)
    ensures r.Some? <==> |Unsigned(s)| > 0 && IsDigit(Unsigned(s)[0])
  {
    var digits := LeadingDigits(Unsigned(s));
    if |digits| == 0 then None
    else if |s| > 0 && s[0] == '-' then Some(-(ParseDigits(digits) as int))
    else Some(ParseDigits(digits))
  }

  /** class-validator's `IsNumberString()`: `^[+-]?([0-9]*[.])?[0-9]+$`. */
  predicate IsNumberString(s: string) {
    var b := Unsigned(s);
    |b| > 0 &&
    (AllDigits(b) ||
     exists k :: 0 <= k < |b| - 1 && b[k] == '.' && AllDigits(b[..k]) && AllDigits(b[k + 1..]))
  }

  /** A number string yields a number under `parseInt` exactly when it does
      not start (after the sign) with the decimal point: `".5"` passes
      `IsNumberString` but parses to NaN. */
  lemma NumberStringParse(s: string)
    requires IsNumberString(s)
    ensures ParseIntPrefix(s).None? <==> Unsigned(s)[0] == '.'
  {
    var b := Unsigned(s);
    if !AllDigits(b) {
      var k :| 0 <= k < |b| - 1 && b[k] == '.' && AllDigits(b[..k]) && AllDigits(b[k + 1..]);
      if k > 0 {
        assert b[..k][0] == b[0];
      }
    }
  }

  function Quote(s: string): string {
    "\"" + s + "\""
  }

  /** The version token `"<version>"`: ETag value and update precondition. */
  function VersionTag(version: nat): string {
    Quote(NatToString(version))
  }

  /** The inverse of `VersionTag`: a double-quoted digit string. */
  function ParseVersionTag(t: string): (r: Option<nat>)
    ensures r.Some? ==> |t| >= 3 && t[0] == '"' && t[|t| - 1] == '"'
  {
    if |t| >= 3 && t[0] == '"' && t[|t| - 1] == '"' && AllDigits(t[1..|t| - 1])
    then Some(ParseDigits(t[1..|t| - 1]))
    else None
  }

  lemma VersionTagRoundTrip(version: nat)
    ensures ParseVersionTag(VersionTag(version)) == Some(version)
  {
    var t := VersionTag(version);
    assert t[1..|t| - 1] == NatToString(version);
    ParseNatToString(version);
  }

  /** Two version tags are equal exactly when the versions are. */
  lemma VersionTagInjective(v: nat, w: nat)
    ensures VersionTag(v) == VersionTag(w) <==> v == w
  {
    VersionTagRoundTrip(v);
    VersionTagRoundTrip(w);
  }
}
