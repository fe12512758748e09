/**
 Rounded integer division: to the nearest integer with ties to even
 (roundTiesToEven, section 4.3.1 of IEEE 754-2008), away from zero and toward
 zero; and the quotient of two integers rounded to a fixed number of
 significant digits, as decimal.js and binary floating point compute it.
 */
module Rounding {

  function Pow(base: nat, n: nat): (p: nat)
    requires base >= 2
    ensures p >= 1
  {
    if n == 0 then 1
    else
      MulGrows(base, Pow(base, n - 1));
      base * Pow(base, n - 1)
  }

  lemma MulGrows(a: nat, b: nat)
    requires a >= 1 && b >= 1
    ensures a * b >= 1
  {
  }

  function Abs(x: int): nat {
    if x < 0 then -x else x
  }

  // ---------- Rounding a quotient to an integer ----------

  /** The integer nearest to `a / b`, the even one on a tie. */
  function HalfEven(a: int, b: nat): int
    requires b > 0
  {
    var q, r := a / b, a % b;
    if 2 * r < b || (2 * r == b && q % 2 == 0) then q else q + 1
  }

  /** The integer nearest to `a / b`, the one away from zero on a tie. */
  function HalfAway(a: int, b: nat): int
    requires b > 0
  {
    if a >= 0 then (2 * a + b) / (2 * b) else -((2 * -a + b) / (2 * b))
  }

  /** `a / b` without its fraction. */
  function Truncate(a: int, b: nat): int
    requires b > 0
  {
    if a >= 0 then a / b else -(-a / b)
  }

  /** `h` is within one half of `a / b`, and even when exactly one half away. */
  predicate NearestEven(h: int, a: int, b: nat) {
    && 2 * Abs(h * b - a) <= b
    && (2 * Abs(h * b - a) == b ==> h % 2 == 0)
  }

  lemma HalfEvenIsNearest(a: int, b: nat)
    requires b > 0
    ensures NearestEven(HalfEven(a, b), a, b)
  {
    var q, r := a / b, a % b;
    assert a == q * b + r;
    assert (q + 1) * b == q * b + b;
  }

  /** Only one integer is nearest with ties to even. */
  lemma NearestEvenUnique(h: int, k: int, a: int, b: nat)
    requires b > 0 && NearestEven(h, a, b) && NearestEven(k, a, b)
    ensures h == k
  {
    if h < k {
      FarApart(h, k, b);
    } else if k < h {
      FarApart(k, h, b);
    }
  }

  lemma FarApart(h: int, k: int, b: nat)
    requires h < k
    ensures k * b >= h * b + b
    ensures k > h + 1 ==> k * b >= h * b + 2 * b
  {
    assert k * b == h * b + (k - h) * b;
    assert (k - h) * b >= b by { MulAtLeast(k - h, b); }
    if k > h + 1 {
      assert (k - h) * b == b + (k - h - 1) * b;
      MulAtLeast(k - h - 1, b);
    }
  }

  lemma MulAtLeast(n: nat, b: nat)
    requires n >= 1
    ensures n * b >= b
  {
    assert n * b == b + (n - 1) * b;
  }

  /** Half-even rounding is monotone. */
  lemma HalfEvenMonotone(a: int, c: int, b: nat)
    requires b > 0 && a <= c
    ensures HalfEven(a, b) <= HalfEven(c, b)
  {
    HalfEvenIsNearest(a, b);
    HalfEvenIsNearest(c, b);
    var h, k := HalfEven(a, b), HalfEven(c, b);
    if k < h {
      FarApart(k, h, b);
      NearestEvenUnique(h, k, a, b);
    }
  }

  /** Half-up rounding is within one half too, and goes away from zero on a tie. */
  lemma HalfAwayIsNearest(a: int, b: nat)
    requires b > 0
    ensures var h := HalfAway(a, b); 2 * Abs(h * b - a) <= b && (2 * Abs(h * b - a) == b ==> Abs(h * b) > Abs(a))
  {
    var x: int := Abs(a);
    var q := (2 * x + b) / (2 * b);
    assert 2 * x + b == q * (2 * b) + (2 * x + b) % (2 * b);
    assert q * (2 * b) == 2 * (q * b);
    assert (-q) * b == -(q * b);
    MulOrder(0, q, b);
  }

  /** Truncation keeps the sign and drops less than one unit. */
  lemma TruncateDropsFraction(a: int, b: nat)
    requires b > 0
    ensures var t := Truncate(a, b);
            if a >= 0 then 0 <= t * b <= a < t * b + b else t * b - b < a <= t * b <= 0
  {
    if a >= 0 {
      QuotientBounds(a, b);
    } else {
      QuotientBounds(-a, b);
      assert (-(-a / b)) * b == -((-a / b) * b);
    }
  }

  lemma QuotientAndRemainder(a: int, b: nat)
    requires b > 0
    ensures a == (a / b) * b + a % b && 0 <= a % b < b
  {
  }

  lemma QuotientBounds(a: int, b: nat)
    requires a >= 0 && b > 0
    ensures 0 <= (a / b) * b <= a < (a / b) * b + b
  {
    MulOrder(0, a / b, b);
  }

  lemma NearestEvenNegated(h: int, a: int, b: nat)
    requires NearestEven(h, a, b)
    ensures NearestEven(-h, -a, b)
  {
    assert (-h) * b == -(h * b);
  }

  /** Half-even rounding is odd: negating the quotient negates the result. */
  lemma {:induction false} HalfEvenOdd(a: int, b: nat)
    requires b > 0
    ensures HalfEven(-a, b) == -HalfEven(a, b)
  {
    HalfEvenIsNearest(a, b);
    HalfEvenIsNearest(-a, b);
    NearestEvenNegated(HalfEven(a, b), a, b);
    NearestEvenUnique(-HalfEven(a, b), HalfEven(-a, b), -a, b);
  }

  /** A whole quotient is left alone. */
  lemma HalfEvenExact(q: int, b: nat)
    requires b > 0
    ensures HalfEven(q * b, b) == q
  {
    HalfEvenIsNearest(q * b, b);
    assert NearestEven(q, q * b, b);
    NearestEvenUnique(q, HalfEven(q * b, b), q * b, b);
  }

  // ---------- Rounding a quotient to significant digits ----------

  datatype Ratio = Ratio(num: int, den: nat)

  /** How many places `a / b` must be shifted up to reach `m`. */
  function ScaleUp(a: nat, b: nat, m: nat, base: nat): (s: nat)
    requires a > 0 && b > 0 && base >= 2
    ensures m * b <= a * Pow(base, s)
    ensures a < m * base * b ==> a * Pow(base, s) < m * base * b
    decreases m * b - a
  {
    if m * b <= a then
      assert a * Pow(base, 0) == a;
      0
    else
      ScaleUpStep(a, b, m, base);
      var t := ScaleUp(base * a, b, m, base);
      PowStep(a, base, t);
      1 + t
  }

  lemma PowStep(a: nat, base: nat, t: nat)
    requires base >= 2
    ensures base * a * Pow(base, t) == a * Pow(base, 1 + t)
  {
    assert base * a * Pow(base, t) == a * (base * Pow(base, t));
  }

  lemma ScaleUpStep(a: nat, b: nat, m: nat, base: nat)
    requires 0 < a < m * b && base >= 2
    ensures a < base * a < m * base * b
  {
    MulAtLeast(base - 1, a);
    assert base * a == a + (base - 1) * a;
    assert base * (m * b - a) == m * base * b - base * a;
    MulAtLeast(m * b - a, base);
  }

  /** How many places `a / b` must be shifted down to stay below `m * base`. */
  function ScaleDown(a: nat, b: nat, m: nat, base: nat): (s: nat)
    requires b > 0 && m > 0 && base >= 2
    ensures a < m * base * (b * Pow(base, s))
    ensures s > 0 ==> m * (b * Pow(base, s)) <= a
    decreases a - m * base * b
  {
    if a < m * base * b then
      assert b * Pow(base, 0) == b;
      0
    else
      ScaleDownStep(b, m, base);
      var t := ScaleDown(a, base * b, m, base);
      PowStep(b, base, t);
      assert t == 0 ==> base * b * Pow(base, t) == base * b && m * (base * b) == m * base * b;
      1 + t
  }

  lemma ScaleDownStep(b: nat, m: nat, base: nat)
    requires b > 0 && m > 0 && base >= 2
    ensures m * base * (base * b) > m * base * b
  {
    assert m * base * (base * b) == m * base * b + m * base * b * (base - 1);
    MulAtLeast(base - 1, m * base * b);
    MulGrows(m, base);
    MulGrows(m * base, b);
  }

  /**
   `a / b` rounded half-even to a significand of at least `m` and below
   `m * base`: 28 decimal digits for m = 10^27, a double for m = 2^52.
   */
  function RoundQuotient(a: int, b: nat, m: nat, base: nat): (r: Ratio)
    requires b > 0 && m > 0 && base >= 2
    ensures r.den > 0
  {
    if a == 0 then Ratio(0, 1)
    else
      var x := Abs(a);
      var sign := if a < 0 then -1 else 1;
      if x < m * base * b then
        var scale := Pow(base, ScaleUp(x, b, m, base));
        Ratio(sign * HalfEven(x * scale, b), scale)
      else
        var unit := Pow(base, ScaleDown(x, b, m, base));
        MulGrows(b, unit);
        Ratio(sign * (HalfEven(x, b * unit) * unit), 1)
  }

  /** Below `m * base` the significand is the numerator. */
  lemma RoundQuotientBelow(a: int, b: nat, m: nat, base: nat)
    requires b > 0 && m > 0 && base >= 2 && 0 < Abs(a) < m * base * b
    ensures var r := RoundQuotient(a, b, m, base);
            && r.den == Pow(base, ScaleUp(Abs(a), b, m, base))
            && NearestEven(r.num, a * r.den, b)
            && m * b <= Abs(a) * r.den
            && Abs(r.num) <= m * base
  {
    var x: int := Abs(a);
    var scale := Pow(base, ScaleUp(x, b, m, base));
    SignificandBound(x * scale, m * base, b);
    HalfEvenIsNearest(a * scale, b);
    if a < 0 {
      NegateProduct(x, scale);
      HalfEvenOdd(x * scale, b);
    }
  }

  /**
   `h` is the nearest significand, even on a tie, at full precision: it is below
   `m * base` (or equal, when rounding carries), and the exact one is at least `m`.
   */
  ghost predicate Significand(h: int, a: int, b: nat, m: nat, base: nat) {
    NearestEven(h, a, b) && m * b <= Abs(a) && Abs(h) <= m * base
  }

  lemma RoundQuotientAbove(a: int, b: nat, m: nat, base: nat) returns (h: int)
    requires b > 0 && m > 0 && base >= 2 && m * base * b <= Abs(a)
    ensures var r, unit := RoundQuotient(a, b, m, base), Pow(base, ScaleDown(Abs(a), b, m, base));
            r.den == 1 && r.num == h * unit && Significand(h, a, b * unit, m, base)
  {
    var x: int := Abs(a);
    var unit := Pow(base, ScaleDown(x, b, m, base));
    MulGrows(b, unit);
    MulGrows(m, base);
    MulGrows(m * base, b);
    SignificandBound(x, m * base, b * unit);
    HalfEvenIsNearest(a, b * unit);
    h := HalfEven(x, b * unit);
    if a < 0 {
      HalfEvenOdd(x, b * unit);
      NegateProduct(h, unit);
      h := -h;
    }
  }

  /** Every quotient is rounded to a significand, times or over a power of the base. */
  lemma RoundQuotientNearest(a: int, b: nat, m: nat, base: nat)
    requires b > 0 && m > 0 && base >= 2 && a != 0
    ensures var r := RoundQuotient(a, b, m, base);
            || (exists i: nat :: r.den == Pow(base, i) && Significand(r.num, a * Pow(base, i), b, m, base))
            || (exists j: nat, h: int :: r.den == 1 && r.num == h * Pow(base, j)
                                         && Significand(h, a, b * Pow(base, j), m, base))
  {
    if Abs(a) < m * base * b {
      RoundQuotientBelow(a, b, m, base);
      var i := ScaleUp(Abs(a), b, m, base);
      AbsProduct(a, Pow(base, i));
      assert Significand(RoundQuotient(a, b, m, base).num, a * Pow(base, i), b, m, base);
    } else {
      var h := RoundQuotientAbove(a, b, m, base);
      var j := ScaleDown(Abs(a), b, m, base);
      assert Significand(h, a, b * Pow(base, j), m, base);
    }
  }

  lemma AbsProduct(a: int, n: nat)
    ensures Abs(a * n) == Abs(a) * n
  {
    if a < 0 {
      NegateProduct(-a, n);
      MulOrder(0, -a, n);
    } else {
      MulOrder(0, a, n);
    }
  }

  lemma {:induction false} PowAdd(base: nat, i: nat, j: nat)
    requires base >= 2
    ensures Pow(base, i + j) == Pow(base, i) * Pow(base, j)
  {
    if i > 0 {
      PowAdd(base, i - 1, j);
      Regroup(base, Pow(base, i - 1), Pow(base, j));
      assert Pow(base, i) == base * Pow(base, i - 1) && Pow(base, i + j) == base * Pow(base, i - 1 + j);
    } else {
      assert Pow(base, 0) * Pow(base, j) == Pow(base, j);
    }
  }

  lemma CancelOrder(x: int, y: int, n: nat)
    requires n > 0 && x * n <= y * n
    ensures x <= y
  {
    if x > y {
      FarApart(y, x, n);
    }
  }

  lemma Cancel(x: int, y: int, n: nat)
    requires n > 0 && x * n == y * n
    ensures x == y
  {
    CancelOrder(x, y, n);
    CancelOrder(y, x, n);
  }

  lemma TooFewPlaces(x: nat, b: nat, c: nat, k: nat, m: nat, base: nat, s: nat)
    requires b > 0 && m > 0 && base >= 2 && x * Pow(base, k) == c * b && m * b <= x * Pow(base, s) && s < k
    ensures m * base <= c
  {
    var p, q := Pow(base, s), Pow(base, k - s);
    PowAdd(base, s, k - s);
    PowAtLeast(base, k - s);
    MulOrder(m * b, x * p, q);
    Regroup(x, p, q);
    Regroup(m, b, q);
    CancelOrder(m * q, c, b);
    MulOrder(base, q, m);
  }

  lemma Regroup(x: int, y: int, z: int)
    ensures x * y * z == x * (y * z) && x * y * z == x * z * y
    ensures x * y == y * x
  {
  }

  /** A significand that fits needs no more places than are kept. */
  lemma EnoughPlaces(x: nat, b: nat, c: nat, k: nat, m: nat, base: nat, s: nat)
    requires b > 0 && m > 0 && base >= 2 && x * Pow(base, k) == c * b && c < m * base && m * b <= x * Pow(base, s)
    ensures k <= s
  {
    if s < k {
      TooFewPlaces(x, b, c, k, m, base, s);
    }
  }

  lemma ScaledExact(x: nat, b: nat, c: nat, k: nat, base: nat, s: nat)
    requires b > 0 && base >= 2 && x * Pow(base, k) == c * b && k <= s
    ensures x * Pow(base, s) == c * Pow(base, s - k) * b
    ensures HalfEven(x * Pow(base, s), b) == c * Pow(base, s - k)
  {
    PowAdd(base, k, s - k);
    Regroup(x, Pow(base, k), Pow(base, s - k));
    Regroup(c, b, Pow(base, s - k));
    HalfEvenExact(c * Pow(base, s - k), b);
  }

  lemma PowAtLeast(base: nat, n: nat)
    requires base >= 2 && n > 0
    ensures Pow(base, n) >= base
  {
    MulAtLeast(Pow(base, n - 1), base);
    assert base * Pow(base, n - 1) == Pow(base, n - 1) * base;
  }

  lemma RepresentableBelow(x: nat, b: nat, c: nat, k: nat, m: nat, base: nat)
    requires b > 0 && base >= 2 && x * Pow(base, k) == c * b && c < m * base
    ensures x < m * base * b
  {
    MulAtLeast(Pow(base, k), x);
    assert x * Pow(base, k) == Pow(base, k) * x;
    FarApart(c, m * base, b);
  }

  lemma RoundExactPositive(x: nat, b: nat, c: nat, k: nat, m: nat, base: nat)
    requires x > 0 && b > 0 && m > 0 && base >= 2 && x * Pow(base, k) == c * b && c < m * base
    ensures x < m * base * b
    ensures var scale := Pow(base, ScaleUp(x, b, m, base)); HalfEven(x * scale, b) * b == x * scale
  {
    RepresentableBelow(x, b, c, k, m, base);
    var s := ScaleUp(x, b, m, base);
    EnoughPlaces(x, b, c, k, m, base, s);
    ScaledExact(x, b, c, k, base, s);
  }

  /** A quotient whose significand fits is not changed by rounding. */
  lemma RoundExact(a: int, b: nat, c: int, k: nat, m: nat, base: nat)
    requires b > 0 && m > 0 && base >= 2 && a * Pow(base, k) == c * b && Abs(c) < m * base
    ensures RoundQuotient(a, b, m, base).num * b == a * RoundQuotient(a, b, m, base).den
  {
    if a != 0 {
      var x := Abs(a);
      AbsProduct(a, Pow(base, k));
      AbsProduct(c, b);
      RoundExactPositive(x, b, Abs(c), k, m, base);
      var scale := Pow(base, ScaleUp(x, b, m, base));
      if a < 0 {
        NegateProduct(HalfEven(x * scale, b), b);
        NegateProduct(x, scale);
      }
    }
  }

  /** `a / b` is `c` over, or times, a power of the base. */
  ghost predicate IsScaled(a: int, b: nat, c: int, base: nat)
    requires base >= 2
  {
    || (exists k: nat :: a * Pow(base, k) == c * b)
    || (exists k: nat :: a == c * (b * Pow(base, k)))
  }

  /** Rounding leaves a quotient alone exactly when it is a significand that fits, over or times a power of the base. */
  lemma RoundExactIff(a: int, b: nat, m: nat, base: nat)
    requires b > 0 && m > 0 && base >= 2
    ensures var r := RoundQuotient(a, b, m, base);
            r.num * b == a * r.den <==> exists c: int :: IsScaled(a, b, c, base) && Abs(c) <= m * base
  {
    if a == 0 {
      assert 0 * Pow(base, 0) == 0 * b;
      assert IsScaled(a, b, 0, base) && Abs(0) <= m * base;
    } else if Abs(a) < m * base * b {
      ExactBelowIff(a, b, m, base);
    } else {
      ExactAboveIff(a, b, m, base);
    }
  }

  lemma ExactBelowIff(a: int, b: nat, m: nat, base: nat)
    requires b > 0 && m > 0 && base >= 2 && 0 < Abs(a) < m * base * b
    ensures var r := RoundQuotient(a, b, m, base);
            r.num * b == a * r.den <==> exists c: int :: IsScaled(a, b, c, base) && Abs(c) <= m * base
  {
    var r := RoundQuotient(a, b, m, base);
    RoundQuotientBelow(a, b, m, base);
    assert r.num * b == a * r.den ==> IsScaled(a, b, r.num, base);
    if c: int :| IsScaled(a, b, c, base) && Abs(c) <= m * base {
      if k: nat :| a * Pow(base, k) == c * b {
        FitsBelow(a, b, c, k, m, base);
      } else {
        var k: nat :| a == c * (b * Pow(base, k));
        Regroup(c, b, Pow(base, k));
        assert a * Pow(base, 0) == c * Pow(base, k) * b;
        WholeBelow(a, b, c * Pow(base, k), m, base);
        FitsBelow(a, b, c * Pow(base, k), 0, m, base);
      }
    }
  }

  lemma WholeBelow(a: int, b: nat, c: int, m: nat, base: nat)
    requires b > 0 && a == c * b && Abs(a) < m * base * b
    ensures Abs(c) <= m * base
  {
    AbsProduct(c, b);
    CancelOrder(Abs(c), m * base, b);
  }

  lemma FitsBelow(a: int, b: nat, c: int, k: nat, m: nat, base: nat)
    requires b > 0 && m > 0 && base >= 2 && Abs(a) < m * base * b
    requires a * Pow(base, k) == c * b && Abs(c) <= m * base
    ensures RoundQuotient(a, b, m, base).num * b == a * RoundQuotient(a, b, m, base).den
  {
    if Abs(c) < m * base {
      RoundExact(a, b, c, k, m, base);
    } else {
      CarriedFits(a, b, c, k, m, base);
    }
  }

  lemma ExactAboveIff(a: int, b: nat, m: nat, base: nat)
    requires b > 0 && m > 0 && base >= 2 && m * base * b <= Abs(a)
    ensures var r := RoundQuotient(a, b, m, base);
            r.num * b == a * r.den <==> exists c: int :: IsScaled(a, b, c, base) && Abs(c) <= m * base
  {
    var r, j := RoundQuotient(a, b, m, base), ScaleDown(Abs(a), b, m, base);
    var h := RoundQuotientAbove(a, b, m, base);
    Regroup(h, Pow(base, j), b);
    Regroup(h, b, Pow(base, j));
    assert r.num * b == h * (b * Pow(base, j));
    assert r.num * b == a * r.den ==> IsScaled(a, b, h, base);
    if c: int :| IsScaled(a, b, c, base) && Abs(c) <= m * base {
      if k: nat :| a == c * (b * Pow(base, k)) {
        FitsAbove(a, b, c, k, m, base, h);
      } else {
        var k: nat :| a * Pow(base, k) == c * b;
        WholeAbove(a, b, c, k, m, base);
        FitsAbove(a, b, c, 0, m, base, h);
      }
    }
  }

  /** So large a quotient that fits is whole. */
  lemma WholeAbove(a: int, b: nat, c: int, k: nat, m: nat, base: nat)
    requires b > 0 && m > 0 && base >= 2 && m * base * b <= Abs(a)
    requires a * Pow(base, k) == c * b && Abs(c) <= m * base
    ensures a == c * (b * Pow(base, 0))
  {
    AbsProduct(a, Pow(base, k));
    AbsProduct(c, b);
    MulOrder(Abs(c), m * base, b);
    MulGrows(m, base);
    MulGrows(m * base, b);
    if k > 0 {
      AtLeastTwice(Abs(a), k, base);
    }
  }

  lemma AtLeastTwice(x: nat, k: nat, base: nat)
    requires base >= 2 && k > 0
    ensures x * Pow(base, k) >= 2 * x
  {
    PowAtLeast(base, k);
    MulOrder(2, Pow(base, k), x);
    Regroup(x, Pow(base, k), 1);
  }

  lemma FitsAbove(a: int, b: nat, c: int, k: nat, m: nat, base: nat, h: int)
    requires b > 0 && m > 0 && base >= 2 && m * base * b <= Abs(a)
    requires a == c * (b * Pow(base, k)) && Abs(c) <= m * base
    requires Significand(h, a, b * Pow(base, ScaleDown(Abs(a), b, m, base)), m, base)
    ensures h * (b * Pow(base, ScaleDown(Abs(a), b, m, base))) == a
  {
    var j := ScaleDown(Abs(a), b, m, base);
    var n := WholeSignificand(a, b, c, k, m, base, j);
    MulGrows(b, Pow(base, j));
    assert NearestEven(n, a, b * Pow(base, j));
    NearestEvenUnique(h, n, a, b * Pow(base, j));
  }

  /** A significand that fits is also one at full precision. */
  lemma WholeSignificand(a: int, b: nat, c: int, k: nat, m: nat, base: nat, j: nat) returns (n: int)
    requires b > 0 && m > 0 && base >= 2 && a == c * (b * Pow(base, k)) && Abs(c) <= m * base
    requires m * (b * Pow(base, j)) <= Abs(a)
    ensures n * (b * Pow(base, j)) == a
  {
    if j <= k {
      n := c * Pow(base, k - j);
      PowAdd(base, k - j, j);
      Regroup(b, Pow(base, k - j), Pow(base, j));
      Regroup(c, Pow(base, k - j), b * Pow(base, j));
      Regroup(Pow(base, k - j), b, Pow(base, j));
    } else {
      LargestSignificand(a, b, c, k, m, base, j);
      n := if c < 0 then -(m as int) else m;
      PowAdd(base, 1, k);
      Regroup(m, base, b * Pow(base, k));
      Regroup(base, b, Pow(base, k));
      NegateProduct(m, base);
      NegateProduct(m, b * Pow(base, j));
      NegateProduct(m * base, b * Pow(base, k));
    }
  }

  lemma LargestSignificand(a: int, b: nat, c: int, k: nat, m: nat, base: nat, j: nat)
    requires b > 0 && m > 0 && base >= 2 && a == c * (b * Pow(base, k)) && Abs(c) <= m * base
    requires m * (b * Pow(base, j)) <= Abs(a) && j > k
    ensures j == k + 1 && Abs(c) == m * base && Pow(base, 1) == base
  {
    var u, d := b * Pow(base, k), Pow(base, j - k);
    MulGrows(b, Pow(base, k));
    PowAdd(base, k, j - k);
    Regroup(b, Pow(base, k), d);
    Regroup(m, d, u);
    AbsProduct(c, u);
    CancelOrder(m * d, Abs(c), u);
    PowAtLeast(base, j - k);
    MulOrder(base, d, m);
    if j > k + 1 {
      PowAtLeast(base, j - k - 1);
      MulOrder(2, Pow(base, j - k - 1), base);
      StrictlyMore(base, d, m);
    }
  }

  lemma StrictlyMore(x: nat, y: nat, m: nat)
    requires m > 0 && x > 0 && y >= 2 * x
    ensures m * y > m * x
  {
    FarApart(x, y, m);
  }

  lemma OnePlaceLess(a: int, b: nat, d: int, k: nat, base: nat)
    requires base >= 2 && k > 0 && a * Pow(base, k) == d * base * b
    ensures a * Pow(base, k - 1) == d * b
  {
    var p := Pow(base, k - 1);
    Regroup(a, base, p);
    Regroup(d, base, b);
    Cancel(a * p, d * b, base);
  }

  lemma CarriedFits(a: int, b: nat, c: int, k: nat, m: nat, base: nat)
    requires b > 0 && m > 0 && base >= 2 && Abs(a) < m * base * b
    requires a * Pow(base, k) == c * b && Abs(c) == m * base
    ensures RoundQuotient(a, b, m, base).num * b == a * RoundQuotient(a, b, m, base).den
  {
    AbsProduct(c, b);
    assert k > 0;
    var d: int := m;
    if c < 0 {
      d := -d;
    }
    NegateProduct(m, base);
    OnePlaceLess(a, b, d, k, base);
    LessThanMultiple(m, base);
    RoundExact(a, b, d, k - 1, m, base);
  }

  lemma LessThanMultiple(m: nat, base: nat)
    requires m > 0 && base >= 2
    ensures m < m * base
  {
    MulOrder(2, base, m);
  }

  lemma Distribute(a: int, b: int, c: int)
    ensures (a + b) * c == a * c + b * c
    ensures c * (a + b) == c * a + c * b
  {
  }

  lemma NegateProduct(x: int, y: int)
    ensures (-x) * y == -(x * y)
  {
  }

  lemma SignificandBound(n: int, limit: nat, b: nat)
    requires b > 0 && 0 <= n < limit * b
    ensures 0 <= HalfEven(n, b) <= limit
  {
    HalfEvenMonotone(n, limit * b, b);
    HalfEvenMonotone(0 * b, n, b);
    HalfEvenExact(limit, b);
    HalfEvenExact(0, b);
  }

  function Floor(r: Ratio): int
    requires r.den > 0
  {
    r.num / r.den
  }

  /** An integer between two multiples of `d` has that quotient. */
  lemma DivBetween(x: int, q: int, d: nat)
    requires d > 0 && q * d <= x < (q + 1) * d
    ensures x / d == q
  {
    var k := x / d;
    assert x == k * d + x % d;
    if k < q {
      FarApart(k, q, d);
    } else if k > q {
      MulOrder(q + 1, k, d);
    }
  }

  lemma MulOrder(h: int, k: int, b: nat)
    requires h <= k
    ensures h * b <= k * b
  {
    assert k * b == h * b + (k - h) * b;
  }

  /** The scale a small dividend needs exceeds half the divisor. */
  lemma ScaleExceeds(x: nat, b: nat, m: nat, scale: nat)
    requires 0 < x < 2 * m && scale >= 1 && m * b <= x * scale
    ensures b < 2 * scale
  {
    MulOrder(x + 1, 2 * m, scale);
    assert (x + 1) * scale == x * scale + scale;
    assert 2 * scale * m == 2 * m * scale && b * m == m * b;
    if b >= 2 * scale {
      MulOrder(2 * scale, b, m);
    }
  }

  lemma SmallQuotient(x: nat, b: nat, m: nat, base: nat)
    requires b > 0 && base >= 2 && x < 2 * m
    ensures x < m * base * b
  {
    MulOrder(2, base, m);
    assert m * base >= 2 * m;
    MulOrder(1, b, m * base);
    assert m * base * b >= m * base;
  }

  // ---------- Flooring in any range ----------

  /** Does rounding `a / b` reach the next integer above its floor? */
  predicate RoundsUp(a: int, b: nat, m: nat, base: nat)
    requires b > 0 && m > 0 && base >= 2
  {
    a != 0 &&
    var scale, gap := Pow(base, ScaleUp(Abs(a), b, m, base)), b - a % b;
    2 * (gap * scale) < b || (2 * (gap * scale) == b && (a / b + 1) * scale % 2 == 0)
  }

  lemma GapToNext(a: int, b: nat, scale: nat)
    requires b > 0
    ensures var q, gap := a / b, b - a % b;
            (q + 1) * scale * b - a * scale == gap * scale && gap * scale >= 0
  {
    var q, gap := a / b, b - a % b;
    QuotientAndRemainder(a, b);
    assert (q + 1) * b - a == gap;
    Regroup(q + 1, scale, b);
    assert ((q + 1) * b - a) * scale == (q + 1) * b * scale - a * scale;
    MulOrder(0, gap, scale);
  }

  lemma NearestWithin(h: int, a: int, b: nat, scale: nat)
    requires b > 0 && scale > 0 && NearestEven(h, a * scale, b)
    ensures a / b * scale <= h <= (a / b + 1) * scale
  {
    var q := a / b;
    QuotientAndRemainder(a, b);
    GapToNext(a, b, scale);
    MulOrder(q * b, a, scale);
    Regroup(q, scale, b);
    if h > (q + 1) * scale {
      FarApart((q + 1) * scale, h, b);
    }
    if h < q * scale {
      FarApart(h, q * scale, b);
    }
  }

  /**
   Flooring what a quotient was rounded to gives its floor, or one more exactly
   when rounding reaches the next integer.
   */
  lemma RoundedFloorIff(a: int, b: nat, m: nat, base: nat)
    requires b > 0 && m > 0 && base >= 2 && Abs(a) < m * base * b
    ensures Floor(RoundQuotient(a, b, m, base)) == a / b + if RoundsUp(a, b, m, base) then 1 else 0
  {
    if a != 0 {
      RoundQuotientBelow(a, b, m, base);
      var r, q := RoundQuotient(a, b, m, base), a / b;
      var next := (q + 1) * r.den;
      GapToNext(a, b, r.den);
      NearestWithin(r.num, a, b, r.den);
      if RoundsUp(a, b, m, base) {
        NearestEvenUnique(r.num, next, a * r.den, b);
      }
      assert r.num == next <==> RoundsUp(a, b, m, base);
      assert (q + 1) * r.den == q * r.den + r.den && (q + 2) * r.den == next + r.den;
      DivBetween(r.num, if r.num == next then q + 1 else q, r.den);
    }
  }

  /**
   Below twice the least significand, rounding never reaches the next integer,
   so flooring afterwards is exact floor division.
   */
  lemma RoundedFloor(a: int, b: nat, m: nat, base: nat)
    requires b > 0 && m > 0 && base >= 2 && Abs(a) < 2 * m
    ensures Floor(RoundQuotient(a, b, m, base)) == a / b
  {
    SmallQuotient(Abs(a), b, m, base);
    RoundedFloorIff(a, b, m, base);
    if a != 0 {
      var scale := Pow(base, ScaleUp(Abs(a), b, m, base));
      ScaleExceeds(Abs(a), b, m, scale);
      MulAtLeast(b - a % b, scale);
    }
  }
}
