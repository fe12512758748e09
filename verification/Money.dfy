/**
 Pro-rata allocation of money: `Money.allocate` of packages/finance, which
 divides at 28 significant decimal digits; `allocate` of crates/formula-engine,
 which divides machine integers; and the JavaScript fallback of packages/core,
 which divides doubles.
 */
module Money {
  import opened Wrappers
  import opened Rounding
  import opened Decimals

  /** The least 53-bit significand, and the digits a double holds. */
  const DOUBLE_UNIT: nat := 0x10_0000_0000_0000

  datatype AllocateError = EmptyRatios | RatiosNotPositive

  function Sum(s: seq<int>): int {
    if s == [] then 0 else s[0] + Sum(s[1..])
  }

  function SumRatios(ratios: seq<nat>): nat {
    if ratios == [] then 0 else ratios[0] + SumRatios(ratios[1..])
  }

  /** `floor(total * ratio / totalRatio)`. */
  function Portion(total: int, ratio: nat, totalRatio: nat): int
    requires totalRatio > 0
  {
    total * ratio / totalRatio
  }

  function Portions(total: int, ratios: seq<nat>, totalRatio: nat): (r: seq<int>)
    requires totalRatio > 0
    ensures |r| == |ratios|
  {
    seq(|ratios|, i requires 0 <= i < |ratios| => Portion(total, ratios[i], totalRatio))
  }

  // ---------- The three implementations ----------

  /** `minorTotal.mul(r).div(totalRatio)` at the working precision, floored. */
  function RoundedPortion(total: int, ratio: nat, totalRatio: nat, unit: nat, base: nat): int
    requires totalRatio > 0 && unit > 0 && base >= 2
  {
    var product := Floor(RoundQuotient(total * ratio, 1, unit, base));
    Floor(RoundQuotient(product, totalRatio, unit, base))
  }

  function RoundedPortions(total: int, ratios: seq<nat>, totalRatio: nat, unit: nat, base: nat): (r: seq<int>)
    requires totalRatio > 0 && unit > 0 && base >= 2
    ensures |r| == |ratios|
  {
    seq(|ratios|, i requires 0 <= i < |ratios| => RoundedPortion(total, ratios[i], totalRatio, unit, base))
  }

  /** Every product of the total and a ratio is within the working precision. */
  predicate InRange(total: int, ratios: seq<nat>, unit: nat) {
    forall i :: 0 <= i < |ratios| ==> Abs(total * ratios[i]) < 2 * unit
  }

  /** What allocation promises: nothing lost, and only the first bucket above its floor. */
  ghost predicate FairSplit(shares: seq<int>, total: int, ratios: seq<nat>) {
    && |shares| == |ratios| > 0 && SumRatios(ratios) > 0
    && Sum(shares) == total
    && (forall i :: 0 < i < |shares| ==> shares[i] == Portion(total, ratios[i], SumRatios(ratios)))
    && 0 <= shares[0] - Portion(total, ratios[0], SumRatios(ratios)) < |ratios|
  }

  /** `amount * 10^decimals`, rounded to 28 digits and then floored. */
  function MinorTotal(amount: Amount, decimals: nat): int {
    Floor(Rounded(amount.num * Pow(10, decimals), amount.den))
  }

  function FromMinor(minor: int, decimals: nat): Amount {
    Rounded(minor, Pow(10, decimals))
  }

  /** `Money.allocate`: the shares in minor units and as amounts. */
  method Allocate(amount: Amount, decimals: nat, ratios: seq<nat>)
    returns (result: Result<seq<Amount>, AllocateError>, minor: seq<int>)
    ensures result == Err(EmptyRatios) <==> ratios == []
    ensures result == Err(RatiosNotPositive) <==> ratios != [] && SumRatios(ratios) == 0
    ensures result.Ok? <==> ratios != [] && SumRatios(ratios) > 0
    ensures result.Ok? ==> |result.value| == |minor| == |ratios|
                           && forall i :: 0 <= i < |minor| ==> result.value[i] == FromMinor(minor[i], decimals)
    ensures result.Ok? ==> minor == WithRemainder(MinorTotal(amount, decimals),
                             RoundedPortions(MinorTotal(amount, decimals), ratios, SumRatios(ratios), DECIMAL_UNIT, 10))
    ensures result.Ok? && InRange(MinorTotal(amount, decimals), ratios, DECIMAL_UNIT) ==>
              FairSplit(minor, MinorTotal(amount, decimals), ratios)
  {
    minor := [];
    if |ratios| == 0 {
      result := Err(EmptyRatios);
      return;
    }
    var totalRatio := SumRatios(ratios);
    if totalRatio == 0 {
      result := Err(RatiosNotPositive);
      return;
    }
    var minorTotal := MinorTotal(amount, decimals);
    var allocations := RoundedPortions(minorTotal, ratios, totalRatio, DECIMAL_UNIT, 10);
    var remainder := minorTotal - Sum(allocations);
    if remainder > 0 {
      allocations := allocations[0 := allocations[0] + remainder];
    }
    minor := allocations;
    result := Ok(seq(|minor|, i requires 0 <= i < |minor| => FromMinor(minor[i], decimals)));
    if InRange(minorTotal, ratios, DECIMAL_UNIT) {
      RoundedSplitIsFair(minorTotal, ratios, DECIMAL_UNIT, 10);
    }
  }

  /** A positive remainder goes to the first bucket. */
  function WithRemainder(total: int, portions: seq<int>): seq<int> {
    var remainder := total - Sum(portions);
    if portions != [] && remainder > 0 then portions[0 := portions[0] + remainder] else portions
  }

  /** `allocate` of the Rust engine: truncating division, any remainder to the first bucket. */
  method AllocateIntegers(minor: int, ratios: seq<nat>) returns (result: Option<seq<int>>)
    ensures result.None? <==> SumRatios(ratios) == 0
    ensures result.Some? ==> |result.value| == |ratios| && Sum(result.value) == minor
    ensures result.Some? ==> forall i :: 0 < i < |ratios| ==>
              result.value[i] == Truncate(minor * ratios[i], SumRatios(ratios))
    ensures result.Some? ==> (FairSplit(result.value, minor, ratios) <==> minor >= 0 || DividesLater(minor, ratios))
  {
    var totalRatio := SumRatios(ratios);
    if totalRatio == 0 {
      return None;
    }
    var allocations := seq(|ratios|, i requires 0 <= i < |ratios| => Truncate(minor * ratios[i], totalRatio));
    var remainder := minor - Sum(allocations);
    SumUpdate(allocations, remainder);
    allocations := allocations[0 := allocations[0] + remainder];
    TruncatedSplitFair(minor, ratios, allocations);
    result := Some(allocations);
  }

  /** The fallback's `formulaAllocate`, on products a double holds exactly; a zero total gives no numbers. */
  method AllocateDoubles(minor: int, ratios: seq<nat>) returns (result: Option<seq<int>>)
    requires InRange(minor, ratios, DOUBLE_UNIT)
    ensures result.None? <==> SumRatios(ratios) == 0
    ensures result.Some? ==> FairSplit(result.value, minor, ratios)
  {
    var total := SumRatios(ratios);
    if total == 0 {
      return None;
    }
    var shares := seq(|ratios|, i requires 0 <= i < |ratios| =>
      Floor(RoundQuotient(minor * ratios[i], total, DOUBLE_UNIT, 2)));
    forall i | 0 <= i < |ratios| ensures shares[i] == Portion(minor, ratios[i], total) {
      RoundedFloor(minor * ratios[i], total, DOUBLE_UNIT, 2);
    }
    assert shares == Portions(minor, ratios, total);
    PortionsFair(minor, ratios);
    var remainder := minor - Sum(shares);
    shares := shares[0 := shares[0] + remainder];
    result := Some(shares);
  }

  // ---------- From amounts to minor units and back ----------

  /** An amount of at most 28 digits is floored exactly. */
  lemma MinorTotalExact(amount: Amount, n: int, places: nat, decimals: nat)
    requires Is(amount, n, places) && places >= decimals && Abs(n) < DECIMAL_LIMIT
    ensures MinorTotal(amount, decimals) == n / Pow(10, places - decimals)
  {
    PowAdd(10, decimals, places - decimals);
    Regroup(amount.num, Pow(10, decimals), Pow(10, places - decimals));
    RoundedOnGrid(amount.num * Pow(10, decimals), amount.den, n, places - decimals);
    FloorIs(Rounded(amount.num * Pow(10, decimals), amount.den), n, places - decimals);
  }

  /** A share is the amount of its minor units. */
  lemma FromMinorExact(minor: int, decimals: nat, more: nat)
    requires Abs(minor * Pow(10, more)) < DECIMAL_LIMIT
    ensures Is(FromMinor(minor, decimals), minor * Pow(10, more), decimals + more)
  {
    PowAdd(10, decimals, more);
    Regroup(minor, Pow(10, decimals), Pow(10, more));
    RoundedOnGrid(minor, Pow(10, decimals), minor * Pow(10, more), decimals + more);
  }

  /** Twenty-nine nines are nearest to the next power of ten, at 28 digits. */
  lemma NinesRoundUp(h: int, den: nat)
    requires Abs(h) <= DECIMAL_LIMIT
    requires 2 * Abs(h * 100_000_000_000_000_000_000_000_000_000
                    - 9_999_999_999_999_999_999_999_999_999_900 * den) <= 100_000_000_000_000_000_000_000_000_000
    ensures h == 100 * den
  {
    var k := h - 100 * den;
    assert 2 * Abs(k * 100_000_000_000_000_000_000_000_000_000 + 100 * den) <= 100_000_000_000_000_000_000_000_000_000;
  }

  lemma NinesRounded(a: nat, b: nat)
    requires a == 9_999_999_999_999_999_999_999_999_999_900 && b == 100_000_000_000_000_000_000_000_000_000
    ensures Floor(Rounded(a, b)) == 100
  {
    var r := NearestRounded(a, b);
    NinesRoundUp(r.num, r.den);
    WholeFloor(r, 100);
  }

  /** With 29 digits, an amount just below a dollar is allocated as a dollar. */
  lemma LongAmountRoundsUp()
    ensures MinorTotal(Ratio(99_999_999_999_999_999_999_999_999_999,
                             100_000_000_000_000_000_000_000_000_000), 2) == 100
  {
    assert Pow(10, 1) == 10 && Pow(10, 2) == 100;
    NinesRounded(9_999_999_999_999_999_999_999_999_999_900, 100_000_000_000_000_000_000_000_000_000);
  }

  // ---------- Why nothing is lost ----------

  lemma SumUpdate(s: seq<int>, x: int)
    requires s != []
    ensures Sum(s[0 := s[0] + x]) == Sum(s) + x
  {
    assert s[0 := s[0] + x][1..] == s[1..];
  }

  lemma FloorShortfall(x: int, t: nat)
    requires t > 0
    ensures x - (t - 1) <= (x / t) * t <= x
  {
  }

  /** Floors fall short of the whole by less than one unit per bucket. */
  lemma {:induction false} PortionsShortfall(total: int, ratios: seq<nat>, t: nat)
    requires t > 0
    ensures total * SumRatios(ratios) - |ratios| * (t - 1) <= Sum(Portions(total, ratios, t)) * t
    ensures Sum(Portions(total, ratios, t)) * t <= total * SumRatios(ratios)
  {
    if ratios != [] {
      PortionsShortfall(total, ratios[1..], t);
      FloorShortfall(total * ratios[0], t);
      var p := Portions(total, ratios, t);
      assert p[1..] == Portions(total, ratios[1..], t);
      Distribute(p[0], Sum(p[1..]), t);
      Distribute(ratios[0], SumRatios(ratios[1..]), total);
      Distribute(1, |ratios[1..]|, t - 1);
    }
  }

  lemma ShortfallBound(total: int, s: int, n: nat, t: nat)
    requires t > 0 && n > 0
    requires total * t - n * (t - 1) <= s * t <= total * t
    ensures 0 <= total - s < n
  {
    assert n * (t - 1) == n * t - n;
    if s > total {
      MulOrder(total + 1, s, t);
      Distribute(total, 1, t);
    } else if total - s >= n {
      MulOrder(s + n, total, t);
      Distribute(s, n, t);
    }
  }

  /** Floors with the remainder in the first bucket are a fair split. */
  lemma PortionsFair(total: int, ratios: seq<nat>)
    requires SumRatios(ratios) > 0
    ensures ratios != []
    ensures var p := Portions(total, ratios, SumRatios(ratios));
            && 0 <= total - Sum(p) < |ratios|
            && FairSplit(p[0 := p[0] + (total - Sum(p))], total, ratios)
  {
    var t := SumRatios(ratios);
    var p := Portions(total, ratios, t);
    PortionsShortfall(total, ratios, t);
    ShortfallBound(total, Sum(p), |ratios|, t);
    SumUpdate(p, total - Sum(p));
  }

  lemma RoundedPortionExact(total: int, ratio: nat, totalRatio: nat, unit: nat, base: nat)
    requires totalRatio > 0 && unit > 0 && base >= 2 && Abs(total * ratio) < 2 * unit
    ensures RoundedPortion(total, ratio, totalRatio, unit, base) == Portion(total, ratio, totalRatio)
  {
    RoundedFloor(total * ratio, 1, unit, base);
    RoundedFloor(total * ratio, totalRatio, unit, base);
  }

  /** Within range the rounded divisions are exact floors, so the split is fair. */
  lemma RoundedSplitIsFair(total: int, ratios: seq<nat>, unit: nat, base: nat)
    requires SumRatios(ratios) > 0 && unit > 0 && base >= 2 && InRange(total, ratios, unit)
    ensures FairSplit(WithRemainder(total, RoundedPortions(total, ratios, SumRatios(ratios), unit, base)),
                      total, ratios)
  {
    var t := SumRatios(ratios);
    forall i | 0 <= i < |ratios|
      ensures RoundedPortion(total, ratios[i], t, unit, base) == Portion(total, ratios[i], t)
    {
      RoundedPortionExact(total, ratios[i], t, unit, base);
    }
    assert RoundedPortions(total, ratios, t, unit, base) == Portions(total, ratios, t);
    PortionsFair(total, ratios);
    var p := Portions(total, ratios, t);
    assert p[0 := p[0] + 0] == p;
  }

  /** A remainder is only ever added, so too much given out stays given out. */
  lemma ConservedUnlessOverallocated(total: int, portions: seq<int>)
    requires portions != []
    ensures Sum(WithRemainder(total, portions)) == total <==> Sum(portions) <= total
  {
    SumUpdate(portions, total - Sum(portions));
  }

  /** How many buckets the rounded division gives one unit more than their floor. */
  function RoundUps(total: int, ratios: seq<nat>, totalRatio: nat, unit: nat, base: nat): nat
    requires totalRatio > 0 && unit > 0 && base >= 2
  {
    if ratios == [] then 0
    else (if RoundsUp(total * ratios[0], totalRatio, unit, base) then 1 else 0)
         + RoundUps(total, ratios[1..], totalRatio, unit, base)
  }

  /** Every product of the total and a ratio is a significand that fits. */
  predicate ProductsFit(total: int, ratios: seq<nat>, unit: nat, base: nat) {
    forall i :: 0 <= i < |ratios| ==> Abs(total * ratios[i]) < unit * base
  }

  lemma RoundedPortionIff(total: int, ratio: nat, totalRatio: nat, unit: nat, base: nat)
    requires totalRatio > 0 && unit > 0 && base >= 2 && Abs(total * ratio) < unit * base
    ensures RoundedPortion(total, ratio, totalRatio, unit, base)
         == Portion(total, ratio, totalRatio) + if RoundsUp(total * ratio, totalRatio, unit, base) then 1 else 0
  {
    var a := total * ratio;
    assert Pow(base, 0) == 1;
    RoundExact(a, 1, a, 0, unit, base);
    WholeFloor(RoundQuotient(a, 1, unit, base), a);
    MulAtLeast(totalRatio, unit * base);
    Regroup(totalRatio, unit * base, 1);
    RoundedFloorIff(a, totalRatio, unit, base);
  }

  lemma {:induction false} RoundedPortionsSum(total: int, ratios: seq<nat>, totalRatio: nat, unit: nat, base: nat)
    requires totalRatio > 0 && unit > 0 && base >= 2 && ProductsFit(total, ratios, unit, base)
    ensures Sum(RoundedPortions(total, ratios, totalRatio, unit, base))
         == Sum(Portions(total, ratios, totalRatio)) + RoundUps(total, ratios, totalRatio, unit, base)
  {
    if ratios != [] {
      RoundedPortionIff(total, ratios[0], totalRatio, unit, base);
      RoundedPortionsSum(total, ratios[1..], totalRatio, unit, base);
      assert RoundedPortions(total, ratios, totalRatio, unit, base)[1..]
          == RoundedPortions(total, ratios[1..], totalRatio, unit, base);
      assert Portions(total, ratios, totalRatio)[1..] == Portions(total, ratios[1..], totalRatio);
    }
  }

  /**
   While the products fit, nothing is lost or invented exactly when no more
   buckets round up than the floors leave units over.
   */
  lemma ConservedIff(total: int, ratios: seq<nat>, unit: nat, base: nat)
    requires SumRatios(ratios) > 0 && unit > 0 && base >= 2 && ProductsFit(total, ratios, unit, base)
    ensures var t := SumRatios(ratios);
            Sum(WithRemainder(total, RoundedPortions(total, ratios, t, unit, base))) == total
            <==> RoundUps(total, ratios, t, unit, base) <= total - Sum(Portions(total, ratios, t))
  {
    RoundedPortionsSum(total, ratios, SumRatios(ratios), unit, base);
    ConservedUnlessOverallocated(total, RoundedPortions(total, ratios, SumRatios(ratios), unit, base));
  }

  /** Is every bucket after the first a whole number of minor units? */
  predicate DividesLater(minor: int, ratios: seq<nat>)
    requires SumRatios(ratios) > 0
  {
    forall i :: 0 < i < |ratios| ==> minor * ratios[i] % SumRatios(ratios) == 0
  }

  lemma TruncationIsFloor(x: int, t: nat)
    requires t > 0
    ensures Truncate(x, t) == x / t <==> x >= 0 || x % t == 0
  {
    if x < 0 {
      NegativeFloor(x, t);
    }
  }

  /** Floors of negative numbers are truncations only when nothing is cut off. */
  lemma NegativeFloor(x: int, t: nat)
    requires t > 0 && x < 0
    ensures x / t == -(-x / t) <==> x % t == 0
  {
    var q, r := -x / t, -x % t;
    assert x == t * (-q) - r;
    if r == 0 {
      QuotientIs(x, t, -q, 0);
    } else {
      assert x == t * (-q - 1) + (t - r) by { Distribute(-q, -1, t); }
      QuotientIs(x, t, -q - 1, t - r);
    }
  }

  lemma QuotientIs(x: int, t: nat, q: int, r: int)
    requires 0 <= r < t && x == t * q + r
    ensures x / t == q && x % t == r
  {
    var d := x / t - q;
    Distribute(x / t, -q, t);
    assert t * d == r - x % t;
    if d >= 1 {
      MulOrder(1, d, t);
    } else if d <= -1 {
      MulOrder(d, -1, t);
    }
  }

  /** Truncated shares are fair exactly when truncating never differs from flooring after the first bucket. */
  lemma TruncatedSplitFair(minor: int, ratios: seq<nat>, shares: seq<int>)
    requires SumRatios(ratios) > 0 && |shares| == |ratios| && Sum(shares) == minor
    requires forall i :: 0 < i < |ratios| ==> shares[i] == Truncate(minor * ratios[i], SumRatios(ratios))
    ensures FairSplit(shares, minor, ratios) <==> minor >= 0 || DividesLater(minor, ratios)
  {
    var t := SumRatios(ratios);
    forall i | 0 < i < |ratios|
      ensures shares[i] == Portion(minor, ratios[i], t) <==> minor >= 0 || minor * ratios[i] % t == 0
    {
      LaterShare(minor, ratios[i], t);
    }
    PortionsFair(minor, ratios);
    if minor >= 0 || DividesLater(minor, ratios) {
      var p := Portions(minor, ratios, t);
      var fair := p[0 := p[0] + (minor - Sum(p))];
      assert shares[1..] == fair[1..];
      assert shares[0] == fair[0];
    }
  }

  lemma LaterShare(minor: int, ratio: nat, t: nat)
    requires t > 0
    ensures Truncate(minor * ratio, t) == Portion(minor, ratio, t) <==> minor >= 0 || minor * ratio % t == 0
  {
    TruncationIsFloor(minor * ratio, t);
    if minor >= 0 {
      MulOrder(0, minor, ratio);
    } else {
      MulOrder(minor, 0, ratio);
    }
  }

  /** A fair split is determined by the total and the ratios: all implementations agree where they are fair. */
  lemma FairSplitUnique(a: seq<int>, b: seq<int>, total: int, ratios: seq<nat>)
    requires FairSplit(a, total, ratios) && FairSplit(b, total, ratios)
    ensures a == b
  {
    assert a[1..] == b[1..];
    assert a == [a[0]] + a[1..] && b == [b[0]] + b[1..];
  }

  // ---------- Where they differ ----------

  /** On negative amounts the floors of `Money.allocate` and the truncation of the engine disagree. */
  lemma NegativeAmountsDisagree()
    ensures Portion(-1, 1, 2) == -1 && Truncate(-1 * 1, 2) == 0
    ensures FairSplit([0, -1], -1, [1, 1])
    ensures !FairSplit([-1, 0], -1, [1, 1])
  {
    assert [1, 1][1..] == [1] && [1][1..] == [];
    assert SumRatios([1, 1]) == 1 + SumRatios([1]);
    assert [0, -1][1..] == [-1] && [-1][1..] == [];
    assert Sum([0, -1]) == 0 + Sum([-1]);
  }

  /** Just past the range, rounding up invents a minor unit that no check takes back. */
  lemma OutOfRangeInventsMoney()
    ensures var total := 2 * DECIMAL_UNIT + 3;
            var shares := WithRemainder(total, RoundedPortions(total, [1, 1], 2, DECIMAL_UNIT, 10));
            shares == [DECIMAL_UNIT + 2, DECIMAL_UNIT + 2] && Sum(shares) == total + 1
  {
    var total := 2 * DECIMAL_UNIT + 3;
    assert Pow(10, 0) == 1;
    assert ScaleUp(total, 1, DECIMAL_UNIT, 10) == 0 && ScaleUp(total, 2, DECIMAL_UNIT, 10) == 0;
    assert HalfEven(total * 1, 1) == total && HalfEven(total * 1, 2) == DECIMAL_UNIT + 2;
    assert RoundedPortion(total, 1, 2, DECIMAL_UNIT, 10) == DECIMAL_UNIT + 2;
    var p := RoundedPortions(total, [1, 1], 2, DECIMAL_UNIT, 10);
    assert p == [DECIMAL_UNIT + 2, DECIMAL_UNIT + 2];
    assert p[1..] == [DECIMAL_UNIT + 2] && p[1..][1..] == [];
    assert Sum(p) == DECIMAL_UNIT + 2 + Sum(p[1..]) == total + 1;
    ConservedUnlessOverallocated(total, p);
  }
}
