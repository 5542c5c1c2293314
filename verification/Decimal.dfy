// Decimal text of a natural number, as JavaScript's string concatenation writes it.
module Decimal {
  predicate IsDigit(c: char) {
    '0' <= c <= '9'
  }

  predicate AllDigits(s: string) {
    forall i :: 0 <= i < |s| ==> IsDigit(s[i])
  }

  function DigitChar(d: nat): (c: char)
    requires d < 10
    ensures IsDigit(c)
  {
    "0123456789"[d]
  }

  function ToString(n: nat): (s: string)
    ensures |s| > 0 && AllDigits(s)
  {
    if n < 10 then [DigitChar(n)] else ToString(n / 10) + [DigitChar(n % 10)]
  }

  lemma DigitCharInjective(a: nat, b: nat)
    requires a < 10 && b < 10 && DigitChar(a) == DigitChar(b)
    ensures a == b
  {
  }

  // Two numbers with the same text are equal.
  lemma {:induction false} ToStringInjective(m: nat, n: nat)
    requires ToString(m) == ToString(n)
    ensures m == n
  {
    if m < 10 && n < 10 {
      DigitCharInjective(m, n);
    } else if m >= 10 && n >= 10 {
      var s, t := ToString(m), ToString(n);
      assert s[..|s| - 1] == ToString(m / 10) && t[..|t| - 1] == ToString(n / 10);
      ToStringInjective(m / 10, n / 10);
      assert s[|s| - 1] == DigitChar(m % 10) && t[|t| - 1] == DigitChar(n % 10);
      DigitCharInjective(m % 10, n % 10);
    }
  }

  // A larger number never has a shorter text.
  lemma {:induction false} ToStringLength(m: nat, n: nat)
    requires m <= n
    ensures |ToString(m)| <= |ToString(n)|
  {
    if n >= 10 && m >= 10 {
      ToStringLength(m / 10, n / 10);
    }
  }

  // The number that decimal digits stand for.
  function Reading(s: string): nat
    requires AllDigits(s)
  {
    if s == "" then 0 else 10 * Reading(s[..|s| - 1]) + (s[|s| - 1] as int - '0' as int)
  }

  lemma DigitCharReads(d: nat)
    requires d < 10
    ensures DigitChar(d) as int - '0' as int == d
  {
  }

  // The text reads as the number, and has no digits to spare in front.
  lemma {:induction false} ToStringReads(n: nat)
    ensures Reading(ToString(n)) == n && (n > 0 ==> ToString(n)[0] != '0')
  {
    var s := ToString(n);
    DigitCharReads(n % 10);
    if n < 10 {
      assert s[..0] == "" && Reading("") == 0;
    } else {
      ToStringReads(n / 10);
      assert s[..|s| - 1] == ToString(n / 10) && s[|s| - 1] == DigitChar(n % 10);
    }
  }
}
