/** The two integer conversions the client relies on: rendering a number as a decimal
    string (what string concatenation and template literals do to an integer) and
    `parseInt(s, 10)`. */
module Decimal {

  predicate IsDigit(c: char) {
    '0' <= c <= '9'
  }

  predicate AllDigits(s: string) {
    forall i :: 0 <= i < |s| ==> IsDigit(s[i])
  }

  function DigitChar(d: nat): (c: char)
    requires d < 10
    ensures IsDigit(c) && c as int - '0' as int == d
  {
    ('0' as int + d) as char
  }

  /** The decimal rendering of a natural number: digits only, and no leading zero. */
  function NatToString(n: nat): (s: string)
    ensures |s| >= 1 && AllDigits(s)
    ensures s[0] == '0' ==> n == 0
    decreases n
  {
    if n < 10 then [DigitChar(n)] else NatToString(n / 10) + [DigitChar(n % 10)]
  }

  /** The decimal rendering of an integer, with a leading '-' when it is negative. */
  function IntToString(i: int): (s: string)
    ensures |s| >= 1 && (s[0] == '-' <==> i < 0)
    ensures AllDigits(if i < 0 then s[1..] else s)
  {
    if i < 0 then "-" + NatToString(-i) else NatToString(i)
  }

  /** The value of a string of decimal digits, most significant first. */
  function DigitsValue(s: string): nat
    requires AllDigits(s)
    decreases |s|
  {
    if s == [] then 0 else DigitsValue(s[..|s| - 1]) * 10 + (s[|s| - 1] as int - '0' as int)
  }

  /** The longest prefix of `s` made of decimal digits. */
  function DigitPrefix(s: string): (p: string)
    ensures AllDigits(p)
  {
    if s != [] && IsDigit(s[0]) then [s[0]] + DigitPrefix(s[1..]) else []
  }

  /** The result of `parseInt`: an integer, or NaN when there is nothing to parse. */
  datatype ParsedInt = Int(value: int) | NaN

  /** `s` without its leading sign character, if it has one. */
  function Unsigned(s: string): string {
    if |s| > 0 && (s[0] == '-' || s[0] == '+') then s[1..] else s
  }

  /** `parseInt(s, 10)`: an optional sign, then the longest run of decimal digits;
      anything after that run is ignored, and NaN comes back when the run is empty. */
  function ParseInt(s: string): (r: ParsedInt)
    ensures r.NaN? <==> (Unsigned(s) == [] || !IsDigit(Unsigned(s)[0]))
  {
    var digits := DigitPrefix(Unsigned(s));
    if digits == [] then NaN
    else if |s| > 0 && s[0] == '-' then Int(-(DigitsValue(digits) as int))
    else Int(DigitsValue(digits))
  }

  lemma {:induction false} DigitsValueOfNatToString(n: nat)
    ensures DigitsValue(NatToString(n)) == n
    decreases n
  {
    if n >= 10 {
      var front := NatToString(n / 10);
      var s := front + [DigitChar(n % 10)];
      assert s[..|s| - 1] == front;
      DigitsValueOfNatToString(n / 10);
    }
  }

  /** A run of digits followed by something that does not start with a digit is exactly
      the digit prefix. */
  lemma {:induction false} DigitPrefixOfDigitsThen(s: string, t: string)
    requires AllDigits(s)
    requires t == [] || !IsDigit(t[0])
    ensures DigitPrefix(s + t) == s
    decreases |s|
  {
    if s != [] {
      assert (s + t)[1..] == s[1..] + t;
      DigitPrefixOfDigitsThen(s[1..], t);
    }
  }

  /** `parseInt` reads back the decimal rendering of every integer, also when the
      rendering is followed by characters that are not digits. */
  lemma ParseIntOfIntToString(i: int, t: string)
    requires t == [] || !IsDigit(t[0])
    ensures ParseInt(IntToString(i) + t) == Int(i)
  {
    if i < 0 {
      ParseNegative(-i, t);
      assert IntToString(i) + t == "-" + NatToString(-i) + t;
    } else {
      ParseNonNegative(i, t);
    }
  }

  /** `parseInt` of a run of digits followed by something that is not a digit. */
  lemma ParseIntOfRun(d: string, t: string)
    requires d != [] && AllDigits(d)
    requires t == [] || !IsDigit(t[0])
    ensures ParseInt(d + t) == Int(DigitsValue(d))
  {
    DigitPrefixOfDigitsThen(d, t);
    assert (d + t)[0] == d[0];
  }

  /** The same after a '-'. */
  lemma ParseIntOfNegativeRun(d: string, t: string)
    requires d != [] && AllDigits(d)
    requires t == [] || !IsDigit(t[0])
    ensures ParseInt("-" + d + t) == Int(-(DigitsValue(d) as int))
  {
    var s := "-" + d + t;
    assert s[0] == '-' && s[1..] == d + t;
    DigitPrefixOfDigitsThen(d, t);
  }

  lemma ParseNonNegative(n: nat, t: string)
    requires t == [] || !IsDigit(t[0])
    ensures ParseInt(NatToString(n) + t) == Int(n)
  {
    ParseIntOfRun(NatToString(n), t);
    DigitsValueOfNatToString(n);
  }

  lemma ParseNegative(n: nat, t: string)
    requires t == [] || !IsDigit(t[0])
    ensures ParseInt("-" + NatToString(n) + t) == Int(-(n as int))
  {
    ParseIntOfNegativeRun(NatToString(n), t);
    DigitsValueOfNatToString(n);
  }

  /** Distinct integers have distinct decimal renderings. */
  lemma IntToStringInjective(a: int, b: int)
    requires IntToString(a) == IntToString(b)
    ensures a == b
  {
    ParseIntOfIntToString(a, []);
    ParseIntOfIntToString(b, []);
    assert IntToString(a) + [] == IntToString(a);
    assert IntToString(b) + [] == IntToString(b);
  }
}
