/**
 * The three Python built-ins the handlers lean on, written out over
 * unbounded integers: `str` of an `int`, floor division `//` and
 * `range(start, stop, step)` with a positive step.
 */
module Builtins {

  /** The character of a decimal digit. */
  function DigitChar(d: nat): (c: char)
    requires d < 10
    ensures '0' <= c <= '9'
  {
    ('0' as int + d) as char
  }

  /** The value of a decimal digit character; the inverse of `DigitChar`. */
  function DigitValue(c: char): (d: nat)
    requires '0' <= c <= '9'
    ensures d < 10 && DigitChar(d) == c
  {
    c as int - '0' as int
  }

  predicate IsDigits(s: string) {
    forall i :: 0 <= i < |s| ==> '0' <= s[i] <= '9'
  }

  /** Decimal digits of `n`, most significant first. */
  function NatDigits(n: nat): (s: string)
    ensures 1 <= |s| && IsDigits(s)
    ensures s[0] == '0' ==> n == 0 && s == "0"
  {
    if n < 10 then [DigitChar(n)] else NatDigits(n / 10) + [DigitChar(n % 10)]
  }

  /** The number a string of decimal digits denotes. */
  function DigitsValue(s: string): nat
    requires IsDigits(s)
  {
    if s == [] then 0 else 10 * DigitsValue(s[..|s| - 1]) + DigitValue(s[|s| - 1])
  }

  /** Reading the digits back gives the number they were written from. */
  lemma {:induction false} NatDigitsRoundTrip(n: nat)
    ensures DigitsValue(NatDigits(n)) == n
  {
    if n >= 10 {
      var s := NatDigits(n);
      assert s[..|s| - 1] == NatDigits(n / 10);
      NatDigitsRoundTrip(n / 10);
    }
  }

  /**
   * Python's `str(n)` for an `int`: a minus sign exactly for negatives, then
   * the decimal digits of the magnitude, which read back as that magnitude.
   */
  function Str(n: int): (s: string)
    ensures 1 <= |s| && (s[0] == '-' <==> n < 0)
    ensures n < 0 ==> 2 <= |s| && IsDigits(s[1..]) && DigitsValue(s[1..]) == -n
    ensures n >= 0 ==> IsDigits(s) && DigitsValue(s) == n
    // no leading zero: `0` is printed alone, and a negative number starts with a nonzero digit
    ensures n >= 0 ==> (s[0] == '0' ==> s == "0")
    ensures n < 0 ==> s[1] != '0'
  {
    if n < 0 then
      NatDigitsRoundTrip(-n);
      var s := "-" + NatDigits(-n);
      assert s[1..] == NatDigits(-n);
      assert s[1] == NatDigits(-n)[0];
      s
    else
      NatDigitsRoundTrip(n);
      NatDigits(n)
  }

  /** `Str` is injective: distinct integers never print the same. */
  lemma {:induction false} StrInjective(a: int, b: int)
    requires Str(a) == Str(b)
    ensures a == b
  {
  }

  /** The text of `str(n)` never contains a comma. */
  lemma {:induction false} StrHasNoComma(n: int, i: int)
    requires 0 <= i < |Str(n)|
    ensures Str(n)[i] != ','
  {
    var s := Str(n);
    if i > 0 && n < 0 {
      assert s[i] == s[1..][i - 1];
    }
  }

  /** Python's `n // d`: the quotient rounded towards minus infinity. */
  function FloorDiv(n: int, d: int): (q: int)
    requires d != 0
    ensures d > 0 ==> q * d <= n < q * d + d
    ensures d < 0 ==> q * d + d < n <= q * d
  {
    if d > 0 then n / d else (-n) / (-d)
  }

  /** Python's `range(start, stop, step)` for a positive step, as a list. */
  function Range(start: int, stop: int, step: int): (r: seq<int>)
    requires step > 0
    ensures forall i :: 0 <= i < |r| ==> start <= r[i] < stop
    ensures forall i :: 0 < i < |r| ==> r[i] == r[i - 1] + step
    ensures |r| > 0 ==> r[0] == start
    // the list runs on to the last value below `stop`
    ensures start < stop ==> |r| > 0
    ensures |r| > 0 ==> r[|r| - 1] + step >= stop
    decreases stop - start
  {
    if start < stop then [start] + Range(start + step, stop, step) else []
  }
}
