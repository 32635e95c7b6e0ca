/**
 * Text helpers shared by the ledger: the tolerant integer parser `safe_stoi`
 * and the decimal rendering that `ostream << int` produces.
 */
module Text {

  const INT_MIN: int := -2147483648
  const INT_MAX: int := 2147483647

  predicate IsDigit(c: char) { '0' <= c <= '9' }

  /** The characters `isspace` accepts in the "C" locale; `stoi` skips them first. */
  predicate IsSpace(c: char) { c == ' ' || c == '\t' || c == '\n' || c == '\r' || c as int == 11 || c as int == 12 }

  predicate AllDigits(s: string) { forall i :: 0 <= i < |s| ==> IsDigit(s[i]) }

  predicate StartsWith(s: string, prefix: string) { |prefix| <= |s| && s[..|prefix|] == prefix }

  function DigitValue(c: char): (d: nat)
    requires IsDigit(c)
    ensures d < 10
  {
    (c as int) - ('0' as int)
  }

  function DigitChar(d: nat): (c: char)
    requires d < 10
    ensures IsDigit(c) && DigitValue(c) == d
  {
    ('0' as int + d) as char
  }

  /** Value of a string of decimal digits, most significant first. */
  function DigitsValue(s: string): nat
    requires AllDigits(s)
  {
    if s == [] then 0 else 10 * DigitsValue(s[..|s| - 1]) + DigitValue(s[|s| - 1])
  }

  /** Number of leading characters that are digits. */
  function DigitRun(s: string): (n: nat)
    ensures n <= |s|
    ensures forall i :: 0 <= i < n ==> IsDigit(s[i])
    ensures n < |s| ==> !IsDigit(s[n])
  {
    if s != [] && IsDigit(s[0]) then 1 + DigitRun(s[1..]) else 0
  }

  /** Drops the leading white space. */
  function SkipSpace(s: string): (t: string)
    ensures |t| <= |s|
    ensures t != [] ==> !IsSpace(t[0])
  {
    if s != [] && IsSpace(s[0]) then SkipSpace(s[1..]) else s
  }

  /**
   * `safe_stoi(str, default)`: the empty string gives the default; otherwise
   * `stoi` skips white space, reads an optional sign and the longest run of
   * digits; no digit gives the default (invalid_argument), a value outside
   * the 32-bit `int` range gives the default (out_of_range).
   */
  function SafeStoi(s: string, default: int): (r: int)
    ensures r == default || INT_MIN <= r <= INT_MAX
  {
    if s == [] then default
    else
      var t := SkipSpace(s);
      var neg := t != [] && t[0] == '-';
      var body := if t != [] && (t[0] == '-' || t[0] == '+') then t[1..] else t;
      var n := DigitRun(body);
      if n == 0 then default
      else
        var magnitude: int := DigitsValue(body[..n]);
        var v := if neg then -magnitude else magnitude;
        if INT_MIN <= v <= INT_MAX then v else default
  }

  /** Decimal digits of a natural number, as `ostream << n` writes them. */
  function NatToString(n: nat): (s: string)
    ensures s != [] && AllDigits(s)
    decreases n, 1
  {
    if n < 10 then [DigitChar(n)] else DigitsThenLast(n)
  }

  /** Two or more digits: those of `n / 10`, then the last one. */
  function DigitsThenLast(n: nat): (s: string)
    requires n >= 10
    ensures s != [] && AllDigits(s)
    decreases n, 0
  {
    NatToString(n / 10) + [DigitChar(n % 10)]
  }

  /** `ostream << n` for an `int`: a minus sign for negative values. */
  function IntToString(n: int): (s: string)
    ensures s != []
  {
    if n < 0 then "-" + NatToString(-n) else NatToString(n)
  }

  lemma {:induction false} NatToStringValue(n: nat)
    ensures DigitsValue(NatToString(n)) == n
  {
    var s := NatToString(n);
    if n >= 10 {
      assert s == DigitsThenLast(n);
      NatToStringValue(n / 10);
      assert s[..|s| - 1] == NatToString(n / 10);
    }
  }

  lemma {:induction false} DigitRunOfDigits(s: string, rest: string)
    requires AllDigits(s)
    requires rest == [] || !IsDigit(rest[0])
    ensures DigitRun(s + rest) == |s|
  {
    if s != [] {
      assert (s + rest)[1..] == s[1..] + rest;
      DigitRunOfDigits(s[1..], rest);
    } else {
      assert s + rest == rest;
    }
  }

  /** Parsing what `ostream << n` wrote gives `n` back, for every 32-bit `n`. */
  lemma IntRoundTrip(n: int, default: int)
    requires INT_MIN <= n <= INT_MAX
    ensures SafeStoi(IntToString(n), default) == n
  {
    var s := IntToString(n);
    var digits := if n < 0 then NatToString(-n) else NatToString(n);
    assert SkipSpace(s) == s;
    var body := if n < 0 then s[1..] else s;
    assert body == digits;
    DigitRunOfDigits(digits, []);
    assert digits + [] == digits;
    assert body[..|body|] == digits;
    NatToStringValue(if n < 0 then -n else n);
  }

  /** A text with no digit after its white space and sign yields the default. */
  lemma NoDigitGivesDefault(s: string, default: int)
    requires s != []
    requires !IsSpace(s[0]) && !IsDigit(s[0]) && s[0] != '-' && s[0] != '+'
    ensures SafeStoi(s, default) == default
  {
    assert SkipSpace(s) == s;
  }
}
