/** Natural numbers as binary64 floating-point numbers hold them: 53 significant bits, rounded to the nearest, ties to
    even. */
module Doubles {

  /** Up to 2^53 every natural number is a double. */
  const EXACT: nat := 0x20_0000_0000_0000

  /** The distance between neighbouring doubles around n. */
  function Unit(n: nat): (u: nat)
    ensures u >= 1 && n < EXACT * u && (u >= 2 ==> 2 * n >= EXACT * u)
  {
    if n < EXACT then 1 else 2 * Unit(n / 2)
  }

  /** The nearest multiple of u; of two equally near ones the even multiple. */
  function RoundTo(n: nat, u: nat): nat
    requires u >= 1
  {
    var q, r := n / u, n % u;
    if 2 * r < u || (2 * r == u && q % 2 == 0) then q * u else (q + 1) * u
  }

  function ToDouble(n: nat): nat {
    RoundTo(n, Unit(n))
  }

  predicate PowerOfTwo(u: nat) {
    u == 1 || (u >= 2 && u % 2 == 0 && PowerOfTwo(u / 2))
  }

  lemma {:induction false} UnitIsPower(n: nat)
    ensures PowerOfTwo(Unit(n))
  {
    if n >= EXACT {
      UnitIsPower(n / 2);
      assert 2 * Unit(n / 2) / 2 == Unit(n / 2);
    }
  }

  /** The result is a multiple of the unit no further than half a unit away, and an even one where there is a tie. */
  lemma RoundsToNearest(n: nat) returns (q: nat)
    ensures ToDouble(n) == q * Unit(n)
    ensures 2 * (ToDouble(n) - n) <= Unit(n) && 2 * (n - ToDouble(n)) <= Unit(n)
    ensures 2 * (ToDouble(n) - n) == Unit(n) || 2 * (n - ToDouble(n)) == Unit(n) ==> q % 2 == 0
  {
    hide Unit;
    var u := Unit(n);
    q := if 2 * (n % u) < u || (2 * (n % u) == u && n / u % 2 == 0) then n / u else n / u + 1;
    Parts(n, u);
  }

  lemma ExactIsKept(n: nat)
    requires n <= EXACT
    ensures ToDouble(n) == n
  {
    if n < EXACT {
      assert n / 1 == n;
    } else {
      assert Unit(EXACT / 2) == 1;
      assert EXACT / 2 * 2 == EXACT;
    }
  }

  /** The numbers up to which all are kept are those up to 2^53: the next one is rounded down to it. */
  lemma FirstLoss()
    ensures forall n: nat :: n <= 9007199254740992 ==> ToDouble(n) == n
    ensures ToDouble(9007199254740993) == 9007199254740992
  {
    hide ToDouble;
    forall n: nat | n <= 9007199254740992 ensures ToDouble(n) == n {
      ExactIsKept(n);
    }
    var q := RoundsToNearest(9007199254740993);
    assert Unit(9007199254740993) == 2 * Unit(4503599627370496) && Unit(4503599627370496) == 1;
    assert ToDouble(9007199254740993) == 2 * q;
  }

  // ---------- Rounding is monotone ----------

  lemma Times(a: nat, b: nat, u: nat)
    requires a <= b
    ensures a * u <= b * u
  {
  }

  lemma Parts(n: nat, u: nat)
    requires u >= 1
    ensures n == (n / u) * u + n % u && (n / u + 1) * u == (n / u) * u + u
  {
  }

  lemma QuotientGrows(m: nat, n: nat, u: nat)
    requires u >= 1 && m <= n
    ensures m / u <= n / u
  {
    if m / u > n / u {
      Times(n / u + 1, m / u, u);
      Parts(m, u);
      Parts(n, u);
    }
  }

  lemma RoundToMonotone(m: nat, n: nat, u: nat)
    requires u >= 1 && m <= n
    ensures RoundTo(m, u) <= RoundTo(n, u)
  {
    QuotientGrows(m, n, u);
    Parts(m, u);
    Parts(n, u);
    if m / u < n / u {
      Times(m / u + 1, n / u, u);
    }
  }

  lemma {:induction false} UnitGrows(m: nat, n: nat)
    requires m <= n
    ensures Unit(m) == Unit(n) || 2 * Unit(m) <= Unit(n)
    decreases n
  {
    if m >= EXACT {
      UnitGrows(m / 2, n / 2);
    }
  }

  lemma RoundToAtMost(n: nat, c: nat, u: nat)
    requires u >= 1 && n < c * u
    ensures RoundTo(n, u) <= c * u
  {
    Parts(n, u);
    if n / u >= c {
      Times(c, n / u, u);
    } else {
      Times(n / u + 1, c, u);
    }
  }

  lemma RoundToAtLeast(n: nat, c: nat, u: nat)
    requires u >= 1 && c * u <= n
    ensures c * u <= RoundTo(n, u)
  {
    Parts(n, u);
    if n / u < c {
      Times(n / u + 1, c, u);
    } else {
      Times(c, n / u, u);
    }
  }

  lemma ToDoubleMonotone(m: nat, n: nat)
    requires m <= n
    ensures ToDouble(m) <= ToDouble(n)
  {
    hide RoundTo;
    var u, v := Unit(m), Unit(n);
    UnitGrows(m, n);
    if u == v {
      RoundToMonotone(m, n, u);
    } else {
      RoundToAtMost(m, EXACT, u);
      RoundToAtLeast(n, EXACT / 2, v);
    }
  }

  // ---------- What rounding cannot tell apart ----------

  /** Numbers that differ in their last four bits only. */
  predicate SameBlock(x: nat, y: nat) {
    x / 16 == y / 16
  }

  lemma HalvedUnit(n: nat)
    requires n >= EXACT
    ensures Unit(n) == 2 * Unit(n / 2)
  {
  }

  lemma LargeUnit(n: nat)
    requires n >= 16 * EXACT
    ensures Unit(n) % 32 == 0
  {
    hide Unit;
    var a, b, c, d := n / 2, n / 2 / 2, n / 2 / 2 / 2, n / 2 / 2 / 2 / 2;
    HalvedUnit(n);
    HalvedUnit(a);
    HalvedUnit(b);
    HalvedUnit(c);
    HalvedUnit(d);
    assert Unit(n) == 32 * Unit(d / 2);
  }

  lemma BoundaryBetween(x: nat, y: nat, c: nat)
    requires x < 16 * c <= y
    ensures !SameBlock(x, y)
  {
    assert x / 16 < c <= y / 16;
  }

  /** Neighbouring doubles change their distance only at a multiple of sixteen. */
  lemma OtherUnitOtherBlock(x: nat, y: nat)
    requires x <= y && Unit(x) != Unit(y)
    ensures !SameBlock(x, y)
  {
    hide Unit, SameBlock;
    UnitGrows(x, y);
    BoundaryBetween(x, y, EXACT / 16 * Unit(x));
  }

  lemma Regroup(q: nat, v: nat)
    ensures q * (32 * v) == 16 * (2 * q * v)
  {
  }

  lemma OtherQuotientOtherBlock(x: nat, y: nat, v: nat)
    requires v >= 1 && x / (32 * v) < y / (32 * v)
    ensures !SameBlock(x, y)
  {
    hide SameBlock;
    var u := 32 * v;
    var p, q := x / u, y / u;
    Parts(x, u);
    Parts(y, u);
    Times(p + 1, q, u);
    Regroup(q, v);
    BoundaryBetween(x, y, 2 * q * v);
  }

  lemma NoTie(x: nat, w: nat, v: nat)
    requires x % 16 != 0 && 16 * w <= x
    ensures if x / 16 - w < v then 2 * (x - 16 * w) < 32 * v else 2 * (x - 16 * w) > 32 * v
  {
  }

  /** Where the last multiple of u before x is 16 * w, and off the multiples of sixteen, there is no tie, and the block
      tells which way x is rounded. */
  lemma BlockDecides(x: nat, q: nat, u: nat, v: nat, w: nat)
    requires v >= 1 && u == 32 * v && x % 16 != 0 && q == x / u && q * u == 16 * w
    ensures RoundTo(x, u) == if x / 16 - w < v then q * u else (q + 1) * u
  {
    Remainder(x, q, u);
    NoTie(x, w, v);
  }

  lemma Remainder(x: nat, q: nat, u: nat)
    requires u >= 1 && q == x / u
    ensures x % u == x - q * u && x >= q * u
  {
    Parts(x, u);
  }

  lemma BlockRoundsAlike(x: nat, y: nat)
    requires x <= y && SameBlock(x, y) && x >= 16 * EXACT && x % 16 != 0 && y % 16 != 0
    ensures ToDouble(x) == ToDouble(y)
  {
    hide RoundTo;
    LargeUnit(x);
    if Unit(x) != Unit(y) {
      OtherUnitOtherBlock(x, y);
    }
    var u, v := Unit(x), Unit(x) / 32;
    QuotientGrows(x, y, u);
    if x / u < y / u {
      OtherQuotientOtherBlock(x, y, v);
    }
    Regroup(x / u, v);
    BlockDecides(x, x / u, u, v, 2 * (x / u) * v);
    BlockDecides(y, x / u, u, v, 2 * (x / u) * v);
  }
}
