/**
 The integer money arithmetic of crates/formula-engine: conversion between
 minor units and decimal strings, and multiplication by decimal factors.
 */
module FormulaEngine {
  import opened Wrappers
  import opened Digits
  import opened Rounding

  datatype RoundingMode = Bankers | HalfUp | Truncated

  /** A parsed decimal: `coefficient / 10^scale`, negated when `negative`. */
  datatype Decimal = Decimal(negative: bool, coefficient: nat, scale: nat)

  function Signed(d: Decimal): int {
    if d.negative then 0 - d.coefficient as int else d.coefficient
  }

  // ---------- Decimal strings ----------

  function Unsigned(s: string): string {
    if s != "" && (s[0] == '-' || s[0] == '+') then s[1..] else s
  }

  /** Digits, and optionally a point and digits; at least one digit. */
  function ParseUnsigned(body: string, negative: bool): Option<Decimal> {
    var k := DigitRun(body);
    if k == |body| then
      if k == 0 then None else Some(Decimal(negative, Parse(body[..k]), 0))
    else if body[k] == '.' && DigitRun(body[k + 1..]) == |body| - k - 1 && |body| > 1 then
      var fraction := body[k + 1..];
      assert fraction[..|fraction|] == fraction;
      Some(Decimal(negative, Parse(body[..k] + fraction), |fraction|))
    else None
  }

  /** An optional sign and an unsigned decimal. */
  function ParseDecimal(s: string): Option<Decimal> {
    ParseUnsigned(Unsigned(s), s != "" && s[0] == '-')
  }

  /** The last `places` digits of `n`, zero padded. */
  function Padded(n: nat, places: nat): (s: string)
    ensures |s| == places && AllDigits(s)
  {
    if places == 0 then "" else Padded(n / 10, places - 1) + [DigitChar(n % 10)]
  }

  function PrintUnsigned(magnitude: nat, places: nat): (s: string)
    ensures s != "" && IsDigit(s[0])
  {
    var unit := Pow(10, places);
    Print(magnitude / unit) + (if places == 0 then "" else "." + Padded(magnitude % unit, places))
  }

  /** `format!("{:.places$}", value / 10^places)`. */
  function PrintFixed(value: int, places: nat): string {
    (if value < 0 then "-" else "") + PrintUnsigned(Abs(value), places)
  }

  lemma {:induction false} ParsePadded(whole: string, n: nat, places: nat)
    requires AllDigits(whole) && n < Pow(10, places)
    ensures AllDigits(whole + Padded(n, places))
    ensures Parse(whole + Padded(n, places)) == Parse(whole) * Pow(10, places) + n
  {
    if places == 0 {
      assert whole + "" == whole;
    } else {
      var unit := Pow(10, places - 1);
      var front := whole + Padded(n / 10, places - 1);
      ParsePadded(whole, n / 10, places - 1);
      ParseAppend(front, n % 10);
      assert whole + Padded(n, places) == front + [DigitChar(n % 10)];
      TimesTen(Parse(whole), unit);
    }
  }

  lemma TimesTen(a: nat, b: nat)
    ensures a * b * 10 == a * (10 * b)
  {
  }

  /** Digits, a point and digits are read as one numeral and a scale. */
  lemma ParsePoint(whole: string, fraction: string, negative: bool)
    requires whole + fraction != "" && AllDigits(whole) && AllDigits(fraction)
    ensures AllDigits(whole + fraction)
    ensures ParseUnsigned(whole + ("." + fraction), negative)
         == Some(Decimal(negative, Parse(whole + fraction), |fraction|))
  {
    var body := whole + ("." + fraction);
    DigitRunAppend(whole, "." + fraction);
    assert body[..|whole|] == whole && body[|whole| + 1..] == fraction;
    DigitRunAppend(fraction, "");
    assert fraction + "" == fraction;
  }

  lemma ParseWhole(whole: string, negative: bool)
    requires whole != "" && AllDigits(whole)
    ensures ParseUnsigned(whole, negative) == Some(Decimal(negative, Parse(whole), 0))
  {
    DigitRunAppend(whole, "");
    assert whole + "" == whole && whole[..|whole|] == whole;
  }

  lemma ParseParts(whole: nat, fraction: nat, places: nat)
    requires fraction < Pow(10, places)
    ensures var digits := Print(whole) + Padded(fraction, places);
            AllDigits(digits) && Parse(digits) == whole * Pow(10, places) + fraction
  {
    ParsePrint(whole);
    ParsePadded(Print(whole), fraction, places);
  }

  lemma ParsePrintUnsigned(magnitude: nat, places: nat, negative: bool)
    ensures ParseUnsigned(PrintUnsigned(magnitude, places), negative) == Some(Decimal(negative, magnitude, places))
  {
    var unit := Pow(10, places);
    var whole, fraction := Print(magnitude / unit), Padded(magnitude % unit, places);
    QuotientAndRemainder(magnitude, unit);
    ParseParts(magnitude / unit, magnitude % unit, places);
    if places == 0 {
      assert whole + fraction == whole == PrintUnsigned(magnitude, places);
      ParseWhole(whole, negative);
    } else {
      assert PrintUnsigned(magnitude, places) == whole + ("." + fraction);
      ParsePoint(whole, fraction, negative);
    }
  }

  /** Printing with any number of places and parsing loses nothing. */
  lemma PrintFixedRoundTrip(value: int, places: nat)
    ensures ParseDecimal(PrintFixed(value, places)) == Some(Decimal(value < 0, Abs(value), places))
  {
    var body := PrintUnsigned(Abs(value), places);
    ParsePrintUnsigned(Abs(value), places, value < 0);
    if value < 0 {
      assert ("-" + body)[1..] == body;
    } else {
      assert "" + body == body;
    }
  }

  // ---------- Which strings are decimals ----------

  /** A sign or none, digits, and with a point more digits; at least one digit. */
  ghost predicate Numeral(s: string, sign: string, whole: string, point: bool, fraction: string) {
    && (sign == "" || sign == "-" || sign == "+")
    && AllDigits(whole) && AllDigits(fraction) && whole + fraction != ""
    && (!point ==> fraction == "")
    && s == sign + (whole + if point then "." + fraction else "")
  }

  lemma ParseNumeral(s: string, sign: string, whole: string, point: bool, fraction: string)
    requires Numeral(s, sign, whole, point, fraction)
    ensures AllDigits(whole + fraction)
    ensures ParseDecimal(s) == Some(Decimal(sign == "-", Parse(whole + fraction), |fraction|))
  {
    var body := whole + if point then "." + fraction else "";
    assert Unsigned(s) == body;
    if point {
      ParsePoint(whole, fraction, sign == "-");
    } else {
      assert whole + "" == whole && whole + fraction == whole;
      ParseWhole(whole, sign == "-");
    }
  }

  lemma SignAndBody(s: string) returns (sign: string)
    ensures s == sign + Unsigned(s)
    ensures sign == "" || sign == "-" || sign == "+"
  {
    if s != "" && (s[0] == '-' || s[0] == '+') {
      sign := if s[0] == '-' then "-" else "+";
      assert s == [s[0]] + s[1..];
    } else {
      sign := "";
    }
  }

  lemma BodyParts(body: string, negative: bool) returns (whole: string, point: bool, fraction: string)
    requires ParseUnsigned(body, negative).Some?
    ensures AllDigits(whole) && AllDigits(fraction) && whole + fraction != "" && (!point ==> fraction == "")
    ensures body == whole + if point then "." + fraction else ""
  {
    var k := DigitRun(body);
    whole, point := body[..k], k < |body|;
    if point {
      fraction := body[k + 1..];
      assert fraction[..|fraction|] == fraction;
    } else {
      fraction := "";
    }
  }

  /** Exactly these strings are read. */
  lemma ParsesIff(s: string)
    ensures ParseDecimal(s).Some? <==> exists sign, whole, point, fraction :: Numeral(s, sign, whole, point, fraction)
  {
    if ParseDecimal(s).Some? {
      var sign := SignAndBody(s);
      var whole, point, fraction := BodyParts(Unsigned(s), s != "" && s[0] == '-');
      assert Numeral(s, sign, whole, point, fraction);
    }
    forall sign, whole, point, fraction | Numeral(s, sign, whole, point, fraction)
      ensures ParseDecimal(s).Some?
    {
      ParseNumeral(s, sign, whole, point, fraction);
    }
  }

  // ---------- Minor units ----------

  predicate InI64(x: int) {
    -0x8000_0000_0000_0000 <= x < 0x8000_0000_0000_0000
  }

  /** `to_i64().unwrap_or(0)` of a whole number. */
  function ToI64(x: int): int {
    if InI64(x) then x else 0
  }

  /** Digits below the minor unit are cut off; a string that is no decimal is an error. */
  function ToMinorUnits(amount: string, decimals: nat): Option<int> {
    match ParseDecimal(amount)
    case None => None
    case Some(d) => Some(ToI64(Truncate(Signed(d) * Pow(10, decimals), Pow(10, d.scale))))
  }

  function FromMinorUnits(minor: int, decimals: nat): string {
    PrintFixed(minor, decimals)
  }

  /** Every machine integer survives being printed as an amount and read back. */
  lemma MinorUnitsRoundTrip(minor: int, decimals: nat)
    requires -0x8000_0000_0000_0000 <= minor < 0x8000_0000_0000_0000
    ensures ToMinorUnits(FromMinorUnits(minor, decimals), decimals) == Some(minor)
  {
    PrintFixedRoundTrip(minor, decimals);
    TruncateWhole(minor, Pow(10, decimals));
  }

  lemma PaddedTwo()
    ensures Padded(99, 2) == "99" && Padded(5, 2) == "05"
  {
    assert Padded(9, 1) == Padded(0, 0) + [DigitChar(9)];
    assert Padded(99, 2) == Padded(9, 1) + [DigitChar(9)];
    assert Padded(0, 1) == Padded(0, 0) + [DigitChar(0)];
    assert Padded(5, 2) == Padded(0, 1) + [DigitChar(5)];
  }

  lemma PrintedDigits()
    ensures Print(19) == "19" && Print(1999) == "1999"
  {
    assert Print(1) == "1";
    assert Print(19) == Print(1) + "9";
    assert Print(199) == Print(19) + "9";
    assert Print(1999) == Print(199) + "9";
  }

  /** Amounts as text. */
  lemma PrintedAmounts()
    ensures FromMinorUnits(1999, 2) == "19.99" && FromMinorUnits(-5, 2) == "-0.05" && FromMinorUnits(1999, 0) == "1999"
  {
    assert Pow(10, 1) == 10 && Pow(10, 2) == 100;
    PaddedTwo();
    PrintedDigits();
  }

  lemma TruncateWhole(q: int, b: nat)
    requires b > 0
    ensures Truncate(q * b, b) == q
  {
    MulOrder(if q >= 0 then 0 else q, if q >= 0 then q else 0, b);
    DivBetween(Abs(q) * b, Abs(q), b) by {
      assert (Abs(q) + 1) * b == Abs(q) * b + b;
    }
    assert (-q) * b == -(q * b);
  }

  /** The conversion of a decimal whose scaled value is between the units and the next. */
  lemma MinorUnitsOf(s: string, decimals: nat, negative: bool, coefficient: nat, scale: nat, units: int)
    requires ParseDecimal(s) == Some(Decimal(negative, coefficient, scale))
    requires Truncate(coefficient * Pow(10, decimals), Pow(10, scale)) == units && units >= 0
    ensures var amount := if negative then -units else units;
            ToMinorUnits(s, decimals)
            == Some(if -0x8000_0000_0000_0000 <= amount < 0x8000_0000_0000_0000 then amount else 0)
  {
    var c: int, p, d := coefficient, Pow(10, decimals), Pow(10, scale);
    NegateProduct(c, p);
    MulOrder(0, c, p);
    TruncateNegated(c * p, d);
  }

  lemma TruncateNegated(a: int, b: nat)
    requires b > 0 && a >= 0
    ensures Truncate(-a, b) == -Truncate(a, b)
  {
    if a == 0 {
      assert 0 / b == 0;
    }
  }

  /** Digits behind the minor unit are dropped, also of a negative amount; what is out of range becomes 0. */
  lemma ExtraDecimalsDropped(s: string, negative: bool, units: int, dropped: nat, places: nat, extra: nat)
    requires units >= 0 && ParseDecimal(s) == Some(Decimal(negative, units * Pow(10, extra) + dropped, places + extra))
    requires dropped < Pow(10, extra)
    ensures var amount := if negative then -units else units;
            ToMinorUnits(s, places)
            == Some(if -0x8000_0000_0000_0000 <= amount < 0x8000_0000_0000_0000 then amount else 0)
  {
    DropExtra(units, dropped, places, extra);
    MinorUnitsOf(s, places, negative, units * Pow(10, extra) + dropped, places + extra, units);
  }

  lemma DropExtra(units: nat, dropped: nat, places: nat, extra: nat)
    requires dropped < Pow(10, extra)
    ensures Truncate((units * Pow(10, extra) + dropped) * Pow(10, places), Pow(10, places + extra)) == units
  {
    PowAdd(10, places, extra);
    DropFraction(units, dropped, Pow(10, extra), Pow(10, places), Pow(10, places + extra));
  }

  lemma DropFraction(units: int, dropped: int, e: nat, p: nat, unit: nat)
    requires 0 <= dropped < e && 0 <= units && p > 0 && unit == p * e && unit > 0
    ensures Truncate((units * e + dropped) * p, unit) == units
  {
    var x := (units * e + dropped) * p;
    Distribute(units * e, dropped, p);
    assert units * e * p == units * unit;
    MulOrder(0, dropped, p);
    MulOrder(dropped + 1, e, p);
    Distribute(dropped, 1, p);
    Distribute(units, 1, unit);
    MulOrder(0, units, unit);
    DivBetween(x, units, unit);
  }

  /** A decimal with too few digits is filled up with zeros. */
  lemma MissingDecimalsAreZero(s: string, negative: bool, coefficient: nat, scale: nat, zeros: nat, units: int)
    requires ParseDecimal(s) == Some(Decimal(negative, coefficient, scale))
    requires units == coefficient * Pow(10, zeros)
    ensures var amount := if negative then -units else units;
            ToMinorUnits(s, scale + zeros)
            == Some(if -0x8000_0000_0000_0000 <= amount < 0x8000_0000_0000_0000 then amount else 0)
  {
    FillUp(coefficient, scale, zeros, units);
    MinorUnitsOf(s, scale + zeros, negative, coefficient, scale, units);
  }

  lemma FillUp(coefficient: nat, scale: nat, zeros: nat, units: int)
    requires units == coefficient * Pow(10, zeros)
    ensures units >= 0 && Truncate(coefficient * Pow(10, scale + zeros), Pow(10, scale)) == units
  {
    PowAdd(10, scale, zeros);
    RegroupProduct(coefficient, Pow(10, zeros), Pow(10, scale));
    MulOrder(0, coefficient, Pow(10, zeros));
    TruncateWhole(units, Pow(10, scale));
  }

  lemma RegroupProduct(a: int, b: int, c: int)
    ensures a * (c * b) == a * b * c
  {
  }

  // ---------- Factors ----------

  function Round(mode: RoundingMode, a: int, b: nat): int
    requires b > 0
  {
    match mode
    case Bankers => HalfEven(a, b)
    case HalfUp => HalfAway(a, b)
    case Truncated => Truncate(a, b)
  }

  function Multiply(minor: int, factor: string, mode: RoundingMode): Option<int> {
    match ParseDecimal(factor)
    case None => None
    case Some(f) => Some(ToI64(Round(mode, minor * Signed(f), Pow(10, f.scale))))
  }

  /** By any decimal factor: the exact product rounded once, and 0 when that is out of range. */
  lemma MultiplyRoundsOnce(minor: int, s: string, sign: string, whole: string, point: bool, fraction: string,
                           factor: int, mode: RoundingMode, product: int)
    requires Numeral(s, sign, whole, point, fraction) && AllDigits(whole + fraction)
    requires factor == Parse(whole + fraction)
    requires product == Round(mode, minor * if sign == "-" then -factor else factor, Pow(10, |fraction|))
    ensures Multiply(minor, s, mode)
         == Some(if -0x8000_0000_0000_0000 <= product < 0x8000_0000_0000_0000 then product else 0)
  {
    ParseNumeral(s, sign, whole, point, fraction);
  }

  /** The rate goes through a string with four decimals. */
  function ApplyBasisPoints(minor: int, basisPoints: nat, mode: RoundingMode): Option<int> {
    Multiply(minor, PrintFixed(basisPoints, 4), mode)
  }

  /** The string loses nothing: the result is the exact product rounded once. */
  lemma BasisPointsRoundOnce(minor: int, basisPoints: nat, mode: RoundingMode)
    ensures ApplyBasisPoints(minor, basisPoints, mode) == Some(ToI64(Round(mode, minor * basisPoints, 10_000)))
  {
    PrintFixedRoundTrip(basisPoints, 4);
    TenThousand();
  }

  lemma TenThousand()
    ensures Pow(10, 4) == 10_000
  {
    assert Pow(10, 2) == 100;
  }

  /** The product of a 64-bit amount and a 32-bit rate always fits the 96-bit mantissa. */
  lemma BasisPointsFitMantissa(minor: int, basisPoints: nat)
    requires InI64(minor) && basisPoints < 0x1_0000_0000
    ensures Abs(minor * basisPoints) < 0x1_0000_0000_0000_0000_0000_0000
  {
    MulOrder(minor, 0x8000_0000_0000_0000, basisPoints);
    MulOrder(-0x8000_0000_0000_0000, minor, basisPoints);
  }

  /** With banker's rounding a tax that fits is the nearest to the exact one, even on a tie. */
  lemma BankersNearest(minor: int, basisPoints: nat)
    requires InI64(HalfEven(minor * basisPoints, 10_000))
    ensures var tax := ApplyBasisPoints(minor, basisPoints, Bankers);
            tax.Some? && NearestEven(tax.value, minor * basisPoints, 10_000)
  {
    BasisPointsRoundOnce(minor, basisPoints, Bankers);
    HalfEvenIsNearest(minor * basisPoints, 10_000);
  }

  /** Rounding half up, a tax that fits is within one half of the exact one, and away from zero on a tie. */
  lemma HalfUpNearest(minor: int, basisPoints: nat)
    requires InI64(HalfAway(minor * basisPoints, 10_000))
    ensures var tax := ApplyBasisPoints(minor, basisPoints, HalfUp);
            && tax.Some?
            && var error := Abs(tax.value * 10_000 - minor * basisPoints);
               2 * error <= 10_000 && (2 * error == 10_000 ==> Abs(tax.value * 10_000) > Abs(minor * basisPoints))
  {
    BasisPointsRoundOnce(minor, basisPoints, HalfUp);
    HalfAwayIsNearest(minor * basisPoints, 10_000);
  }

  /** Truncated, a tax that fits keeps the sign of the exact one and drops less than one unit of it. */
  lemma TruncatedTowardZero(minor: int, basisPoints: nat)
    requires InI64(Truncate(minor * basisPoints, 10_000))
    ensures var tax, exact := ApplyBasisPoints(minor, basisPoints, Truncated), minor * basisPoints;
            && tax.Some?
            && if exact >= 0 then 0 <= tax.value * 10_000 <= exact < tax.value * 10_000 + 10_000
               else tax.value * 10_000 - 10_000 < exact <= tax.value * 10_000 <= 0
  {
    BasisPointsRoundOnce(minor, basisPoints, Truncated);
    TruncateDropsFraction(minor * basisPoints, 10_000);
  }

  /** A larger amount is never taxed less. */
  lemma BankersMonotone(minor: int, more: int, basisPoints: nat)
    requires minor <= more
    requires InI64(HalfEven(minor * basisPoints, 10_000)) && InI64(HalfEven(more * basisPoints, 10_000))
    ensures var tax := ApplyBasisPoints(minor, basisPoints, Bankers);
            var moreTax := ApplyBasisPoints(more, basisPoints, Bankers);
            tax.Some? && moreTax.Some? && tax.value <= moreTax.value
  {
    BasisPointsRoundOnce(minor, basisPoints, Bankers);
    BasisPointsRoundOnce(more, basisPoints, Bankers);
    MulOrder(minor, more, basisPoints);
    HalfEvenMonotone(minor * basisPoints, more * basisPoints, 10_000);
  }

  lemma BankersIs(minor: int, basisPoints: nat, tax: int)
    requires tax == HalfEven(minor * basisPoints, 10_000) && InI64(tax)
    ensures ApplyBasisPoints(minor, basisPoints, Bankers) == Some(tax)
  {
    BasisPointsRoundOnce(minor, basisPoints, Bankers);
  }

  lemma OddRounded(minor: int, basisPoints: nat, tax: int)
    requires tax == HalfEven(minor * basisPoints, 10_000)
    ensures -tax == HalfEven((-minor) * basisPoints, 10_000)
  {
    NegateProduct(minor, basisPoints);
    HalfEvenOdd(minor * basisPoints, 10_000);
  }

  lemma NegatedTax(minor: int, basisPoints: nat, tax: int)
    requires tax == HalfEven(minor * basisPoints, 10_000) && InI64(-tax)
    ensures ApplyBasisPoints(-minor, basisPoints, Bankers) == Some(-tax)
  {
    OddRounded(minor, basisPoints, tax);
    BankersIs(-minor, basisPoints, -tax);
  }

  /** A refund is taxed exactly like the sale it undoes. */
  lemma BankersOdd(minor: int, basisPoints: nat, tax: int)
    requires tax == HalfEven(minor * basisPoints, 10_000) && InI64(tax) && InI64(-tax)
    ensures ApplyBasisPoints(minor, basisPoints, Bankers) == Some(tax)
    ensures ApplyBasisPoints(-minor, basisPoints, Bankers) == Some(-tax)
  {
    BankersIs(minor, basisPoints, tax);
    NegatedTax(minor, basisPoints, tax);
  }
}
