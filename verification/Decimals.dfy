/**
 Decimal arithmetic as `Money` configures decimal.js: every result is rounded
 half-even to 28 significant digits. Amounts are ratios; a grid of some number
 of decimal places says which sums and products are exact.
 */
module Decimals {
  import opened Rounding

  /** The least 28-digit significand. */
  const DECIMAL_UNIT: nat := 1_000_000_000_000_000_000_000_000_000

  /** One more than the largest 28-digit significand. */
  const DECIMAL_LIMIT: nat := 10 * DECIMAL_UNIT

  type Amount = r: Ratio | r.den > 0 witness Ratio(0, 1)

  function Rounded(num: int, den: nat): Amount
    requires den > 0
  {
    RoundQuotient(num, den, DECIMAL_UNIT, 10)
  }

  lemma DenPositive(a: Amount, b: Amount)
    ensures a.den * b.den > 0
  {
    MulGrows(a.den, b.den);
  }

  function Add(a: Amount, b: Amount): Amount {
    DenPositive(a, b);
    Rounded(a.num * b.den + b.num * a.den, a.den * b.den)
  }

  function Subtract(a: Amount, b: Amount): Amount {
    DenPositive(a, b);
    Rounded(a.num * b.den - b.num * a.den, a.den * b.den)
  }

  function Multiply(a: Amount, b: Amount): Amount {
    DenPositive(a, b);
    Rounded(a.num * b.num, a.den * b.den)
  }

  // ---------- Exact on a grid ----------

  /** `a` is `n` units of the `places`-th decimal place. */
  predicate Is(a: Amount, n: int, places: nat) {
    a.num * Pow(10, places) == n * a.den
  }

  /** An amount in units of the `places`-th decimal place, rounded down. */
  function Units(a: Amount, places: nat): int {
    a.num * Pow(10, places) / a.den
  }

  lemma UnitsAre(a: Amount, n: int, places: nat)
    requires Is(a, n, places)
    ensures Units(a, places) == n
  {
    Spread(n, 1, a.den);
    DivBetween(a.num * Pow(10, places), n, a.den);
  }

  /** A result of at most 28 digits on the grid is not changed by rounding. */
  lemma RoundedOnGrid(num: int, den: nat, n: int, places: nat)
    requires den > 0 && num * Pow(10, places) == n * den && Abs(n) < DECIMAL_LIMIT
    ensures Is(Rounded(num, den), n, places)
  {
    RoundExact(num, den, n, places, DECIMAL_UNIT, 10);
    var r, g := Rounded(num, den), Pow(10, places);
    Regroup(r.num, den, g);
    Regroup(num, r.den, g);
    Regroup(n, den, r.den);
    Cancel(r.num * g, n * r.den, den);
  }

  lemma SumOnGrid(a: Amount, b: Amount, m: int, n: int, g: nat)
    requires a.num * g == m * a.den && b.num * g == n * b.den
    ensures (a.num * b.den + b.num * a.den) * g == (m + n) * (a.den * b.den)
    ensures (a.num * b.den - b.num * a.den) * g == (m - n) * (a.den * b.den)
  {
    Regroup(a.num, b.den, g);
    Regroup(b.num, a.den, g);
    Regroup(m, a.den, b.den);
    Regroup(n, a.den, b.den);
    Spread(a.num * b.den, b.num * a.den, g);
    Spread(m, n, a.den * b.den);
  }

  lemma Spread(x: int, y: int, z: int)
    ensures (x + y) * z == x * z + y * z && (x - y) * z == x * z - y * z
  {
  }

  lemma AddExact(a: Amount, b: Amount, m: int, n: int, places: nat)
    requires Is(a, m, places) && Is(b, n, places) && Abs(m + n) < DECIMAL_LIMIT
    ensures Is(Add(a, b), m + n, places)
  {
    DenPositive(a, b);
    SumOnGrid(a, b, m, n, Pow(10, places));
    RoundedOnGrid(a.num * b.den + b.num * a.den, a.den * b.den, m + n, places);
  }

  lemma SubtractExact(a: Amount, b: Amount, m: int, n: int, places: nat)
    requires Is(a, m, places) && Is(b, n, places) && Abs(m - n) < DECIMAL_LIMIT
    ensures Is(Subtract(a, b), m - n, places)
  {
    DenPositive(a, b);
    SumOnGrid(a, b, m, n, Pow(10, places));
    RoundedOnGrid(a.num * b.den - b.num * a.den, a.den * b.den, m - n, places);
  }

  lemma MultiplyExact(a: Amount, units: int, m: int, places: nat)
    requires Is(a, m, places) && Abs(m * units) < DECIMAL_LIMIT
    ensures Is(Multiply(a, Ratio(units, 1)), m * units, places)
  {
    Regroup(a.num, units, Pow(10, places));
    Regroup(m, a.den, units);
    RoundedOnGrid(a.num * units, a.den * 1, m * units, places);
  }

  /** On a finer grid. */
  lemma Refine(a: Amount, n: int, places: nat, more: nat)
    requires Is(a, n, places)
    ensures Is(a, n * Pow(10, more), places + more)
  {
    PowAdd(10, places, more);
    Regroup(a.num, Pow(10, places), Pow(10, more));
    Regroup(n, a.den, Pow(10, more));
  }

  /** The floor of an amount depends on its value only. */
  lemma FloorIs(a: Amount, n: int, places: nat)
    requires Is(a, n, places)
    ensures Floor(a) == n / Pow(10, places)
  {
    var g := Pow(10, places);
    var q := n / g;
    QuotientAndRemainder(n, g);
    Spread(q, 1, g);
    MulOrder(q * g, n, a.den);
    StrictOrder(n, (q + 1) * g, a.den);
    Regroup(q, g, a.den);
    Regroup(q + 1, g, a.den);
    CancelOrder(q * a.den, a.num, g);
    if a.num >= (q + 1) * a.den {
      MulOrder((q + 1) * a.den, a.num, g);
    }
    DivBetween(a.num, q, a.den);
  }

  lemma StrictOrder(x: int, y: int, n: nat)
    requires n > 0 && x < y
    ensures x * n < y * n
  {
    FarApart(x, y, n);
  }

  lemma NearestRounded(a: nat, b: nat) returns (r: Amount)
    requires 0 < a < DECIMAL_LIMIT * b && b > 0
    ensures r == Rounded(a, b) && 2 * Abs(r.num * b - a * r.den) <= b && Abs(r.num) <= DECIMAL_LIMIT
  {
    RoundQuotientBelow(a, b, DECIMAL_UNIT, 10);
    r := Rounded(a, b);
  }

  lemma WholeFloor(r: Amount, n: int)
    requires r.num == n * r.den
    ensures Floor(r) == n
  {
    Spread(n, 1, r.den);
    DivBetween(r.num, n, r.den);
  }
}
