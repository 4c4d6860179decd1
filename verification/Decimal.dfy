/** Decimal rendering of integers, as Python's str and format strings write them. */
module Decimal {

  function Digit(n: nat): char
    requires n < 10
  {
    "0123456789"[n]
  }

  function OfNat(n: nat): (s: string)
    ensures |s| > 0 && forall i :: 0 <= i < |s| ==> '0' <= s[i] <= '9'
  {
    (if n < 10 then "" else OfNat(n / 10)) + [Digit(n % 10)]
  }

  function OfInt(n: int): (s: string)
    ensures |s| > 0 && forall i :: 0 <= i < |s| ==> s[i] == '-' || '0' <= s[i] <= '9'
  {
    if n < 0 then "-" + OfNat(-n) else OfNat(n)
  }

  /** The number a decimal text denotes. */
  function Read(s: string): int {
    if s == "" then 0 else 10 * Read(s[..|s| - 1]) + (s[|s| - 1] as int - '0' as int)
  }

  lemma {:induction false} ReadDigit(s: string, n: nat)
    requires n < 10
    ensures Read(s + [Digit(n)]) == 10 * Read(s) + n
  {
    assert (s + [Digit(n)])[..|s|] == s;
    assert "0123456789"[n] as int == '0' as int + n;
  }

  /** Rendering and reading back gives the number again, */
  lemma {:induction false} ReadBack(n: nat)
    ensures Read(OfNat(n)) == n
    decreases n
  {
    hide Read, Digit;
    if n >= 10 {
      ReadBack(n / 10);
      ReadDigit(OfNat(n / 10), n % 10);
    } else {
      ReadNothing();
      ReadDigit("", n);
    }
  }

  lemma ReadNothing()
    ensures Read("") == 0
  {
  }

  /** without leading zeros. */
  lemma {:induction false} NoLeadingZero(n: nat)
    requires n > 0
    ensures OfNat(n)[0] != '0'
    decreases n
  {
    if n >= 10 {
      NoLeadingZero(n / 10);
    }
  }

  lemma DigitInjective(m: nat, n: nat)
    requires m < 10 && n < 10 && Digit(m) == Digit(n)
    ensures m == n
  {
  }

  lemma SameEnd(a: string, b: string, x: char, y: char)
    requires a + [x] == b + [y]
    ensures a == b && x == y
  {
    assert (a + [x])[|a|] == x && (b + [y])[|b|] == y;
    assert a == (a + [x])[..|a|] && b == (b + [y])[..|b|];
  }

  lemma {:induction false} OfNatInjective(m: nat, n: nat)
    requires OfNat(m) == OfNat(n)
    ensures m == n
    decreases m
  {
    SameEnd(if m < 10 then "" else OfNat(m / 10), if n < 10 then "" else OfNat(n / 10), Digit(m % 10), Digit(n % 10));
    DigitInjective(m % 10, n % 10);
    if m >= 10 {
      OfNatInjective(m / 10, n / 10);
    }
  }

  lemma OfIntInjective(m: int, n: int)
    requires OfInt(m) == OfInt(n)
    ensures m == n
  {
    assert (m < 0) == (OfInt(m)[0] == '-') && (n < 0) == (OfInt(n)[0] == '-');
    if m < 0 {
      assert OfInt(m)[1..] == OfNat(-m) && OfInt(n)[1..] == OfNat(-n);
      OfNatInjective(-m, -n);
    } else {
      OfNatInjective(m, n);
    }
  }
}
