/**
 * Decimal rendering of unsigned integers, as Rust's `{}` formatting writes them
 * into the request heads: the digits of the number, most significant first,
 * with no sign, no padding and no leading zero ("0" for zero).
 */
module Decimal {

  predicate IsDigit(c: char) {
    '0' <= c <= '9'
  }

  predicate AllDigits(s: string) {
    forall i :: 0 <= i < |s| ==> IsDigit(s[i])
  }

  function DigitChar(d: nat): (c: char)
    requires d < 10
    ensures IsDigit(c)
  {
    ('0' as int + d) as char
  }

  function DigitValue(c: char): (d: nat)
    requires IsDigit(c)
    ensures d < 10 && DigitChar(d) == c
  {
    c as int - '0' as int
  }

  /** The decimal text of `n`: digits only, and a single one exactly for `n < 10`. */
  function Show(n: nat): (r: string)
    ensures |r| >= 1 && AllDigits(r)
    ensures |r| == 1 <==> n < 10
    decreases n
  {
    if n < 10 then [DigitChar(n)] else Show(n / 10) + [DigitChar(n % 10)]
  }

  /** The text of a number is a non-empty run of digits with no leading zero. */
  lemma {:induction false} ShowDigits(n: nat)
    ensures |Show(n)| >= 1 && AllDigits(Show(n))
    ensures Show(n)[0] == '0' ==> n == 0 && |Show(n)| == 1
    decreases n
  {
    if n >= 10 {
      ShowDigits(n / 10);
      assert Show(n)[0] == Show(n / 10)[0];
    }
  }

  /** The value of a string of decimal digits (the reading that inverts `Show`). */
  function Parse(s: string): nat
    requires AllDigits(s)
    decreases |s|
  {
    if s == [] then 0 else Parse(s[..|s| - 1]) * 10 + DigitValue(s[|s| - 1])
  }

  /** Reading back the text of `n` gives `n`. */
  lemma {:induction false} ParseShow(n: nat)
    ensures AllDigits(Show(n)) && Parse(Show(n)) == n
    decreases n
  {
    ShowDigits(n);
    if n >= 10 {
      var s := Show(n);
      assert s[..|s| - 1] == Show(n / 10);
      ParseShow(n / 10);
    }
  }

  /** Different numbers are written differently, so a rendered number is unambiguous. */
  lemma ShowInjective(n: nat, m: nat)
    requires Show(n) == Show(m)
    ensures n == m
  {
    ParseShow(n);
    ParseShow(m);
  }
}
