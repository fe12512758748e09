/**
 Weighted-average stock valuation (examples/inventory): goods are received at
 a cost and sold at the pool's average, split off with `Money.allocate`.
 */
module Inventory {
  import opened Wrappers
  import opened Rounding
  import opened Decimals
  import opened Money

  /** US dollars have two decimals. */
  const DECIMALS: nat := 2

  /** A price string: `digits` with the point before the last `places` of them. */
  datatype Price = Price(digits: nat, places: nat)

  function AmountOf(p: Price): Amount {
    Ratio(p.digits, Pow(10, p.places))
  }

  datatype Record = Record(sku: string, name: string, onHand: nat, value: Amount, reorderPoint: nat)

  type Stock = map<string, Record>

  datatype StockError = UnknownSku | OutOfStock

  /** What a sale reports. */
  datatype Sale = Sale(cost: Amount, revenue: Amount, margin: Amount, onHand: nat, low: bool)

  // ---------- The two actions ----------

  class Inventory {
    var stock: Stock

    constructor ()
      ensures stock == map[]
    {
      stock := map[];
    }

    method ReceiveStock(sku: string, name: string, units: nat, unitCost: Price, reorderPoint: nat)
      returns (record: Record)
      requires units > 0
      modifies this
      ensures stock == Received(old(stock), sku, name, units, unitCost, reorderPoint)
      ensures stock == old(stock)[sku := record]
      ensures record.onHand == units + if sku in old(stock) then old(stock)[sku].onHand else 0
      ensures if sku in old(stock) then
                record.name == old(stock)[sku].name && record.reorderPoint == old(stock)[sku].reorderPoint
              else record.name == name && record.reorderPoint == reorderPoint
    {
      var addedValue := Multiply(AmountOf(unitCost), Ratio(units, 1));
      if sku in stock {
        var existing := stock[sku];
        record := existing.(onHand := existing.onHand + units, value := Add(existing.value, addedValue));
      } else {
        record := Record(sku, name, units, addedValue, reorderPoint);
      }
      stock := stock[sku := record];
    }

    /** A sale of more than is on hand, or of an unknown product, changes nothing. */
    method SellStock(sku: string, units: nat, unitPrice: Price) returns (result: Result<Sale, StockError>)
      requires units > 0
      modifies this
      ensures result == Err(UnknownSku) <==> sku !in old(stock)
      ensures result == Err(OutOfStock) <==> sku in old(stock) && units > old(stock)[sku].onHand
      ensures stock == Sold(old(stock), sku, units)
      ensures result.Ok? ==> var record := old(stock)[sku];
                && result.value.cost == CostOf(record.value, record.onHand, units)
                && result.value.revenue == Multiply(AmountOf(unitPrice), Ratio(units, 1))
                && result.value.margin == Subtract(result.value.revenue, result.value.cost)
                && result.value.onHand == record.onHand - units
                && (result.value.low <==> record.onHand - units <= record.reorderPoint)
    {
      if sku !in stock {
        return Err(UnknownSku);
      }
      var record := stock[sku];
      if units > record.onHand {
        return Err(OutOfStock);
      }
      var cost := SplitOff(record.value, record.onHand, units);
      var revenue := Multiply(AmountOf(unitPrice), Ratio(units, 1));
      var margin := Subtract(revenue, cost);
      record := record.(onHand := record.onHand - units, value := Subtract(record.value, cost));
      stock := stock[sku := record];
      return Ok(Sale(cost, revenue, margin, record.onHand, record.onHand <= record.reorderPoint));
    }
  }

  /** `value.allocate([units, onHand - units])[0]`. */
  method SplitOff(value: Amount, onHand: nat, units: nat) returns (cost: Amount)
    requires 0 < units <= onHand
    ensures cost == CostOf(value, onHand, units)
  {
    TwoRatios(units, onHand - units);
    var split, minor := Allocate(value, DECIMALS, [units, onHand - units]);
    cost := split.value[0];
  }

  lemma TwoRatios(a: nat, b: nat)
    ensures SumRatios([a, b]) == a + b
  {
    assert [a, b][1..] == [b] && [b][1..] == [];
    assert SumRatios([b]) == b;
  }

  // ---------- The same on values ----------

  function Received(stock: Stock, sku: string, name: string, units: nat, unitCost: Price, reorderPoint: nat): Stock {
    var added := Multiply(AmountOf(unitCost), Ratio(units, 1));
    if sku in stock then
      var existing := stock[sku];
      stock[sku := existing.(onHand := existing.onHand + units, value := Add(existing.value, added))]
    else stock[sku := Record(sku, name, units, added, reorderPoint)]
  }

  function CostMinor(total: int, onHand: nat, units: nat): int
    requires 0 < units <= onHand
  {
    TwoRatios(units, onHand - units);
    WithRemainder(total, RoundedPortions(total, [units, onHand - units], onHand, DECIMAL_UNIT, 10))[0]
  }

  /** The first bucket of the pool's value split between the units sold and the units left. */
  function CostOf(value: Amount, onHand: nat, units: nat): Amount
    requires 0 < units <= onHand
  {
    FromMinor(CostMinor(MinorTotal(value, DECIMALS), onHand, units), DECIMALS)
  }

  function Sold(stock: Stock, sku: string, units: nat): Stock
    requires units > 0
  {
    if sku !in stock || units > stock[sku].onHand then stock
    else
      var record := stock[sku];
      stock[sku := record.(onHand := record.onHand - units,
                           value := Subtract(record.value, CostOf(record.value, record.onHand, units)))]
  }

  // ---------- One sale ----------

  lemma TwoShares(shares: seq<int>, total: int, a: nat, b: nat)
    requires FairSplit(shares, total, [a, b])
    ensures a + b > 0
    ensures shares[0] == total - Portion(total, b, a + b)
    ensures 0 <= shares[0] - Portion(total, a, a + b) <= 1
  {
    TwoRatios(a, b);
    assert shares[1..] == [shares[1]] && shares[1..][1..] == [];
    assert Sum(shares[1..]) == shares[1];
  }

  lemma CostBounds(total: int, onHand: nat, units: nat)
    requires 0 < units <= onHand && Abs(total * onHand) < 2 * DECIMAL_UNIT
    ensures 0 <= CostMinor(total, onHand, units) - Portion(total, units, onHand) <= 1
    ensures CostMinor(total, onHand, units) == total - Portion(total, onHand - units, onHand)
  {
    var rest := onHand - units;
    TwoRatios(units, rest);
    SmallerProduct(total, units, onHand);
    SmallerProduct(total, rest, onHand);
    RoundedSplitIsFair(total, [units, rest], DECIMAL_UNIT, 10);
    var portions := RoundedPortions(total, [units, rest], onHand, DECIMAL_UNIT, 10);
    TwoShares(WithRemainder(total, portions), total, units, rest);
  }

  lemma SmallerProduct(total: int, units: nat, onHand: nat)
    requires units <= onHand
    ensures Abs(total * units) <= Abs(total * onHand)
  {
    if total >= 0 {
      MulOrder(units, onHand, total);
    } else {
      MulOrder(units, onHand, -total);
      assert -total * units == -(total * units) && -total * onHand == -(total * onHand);
    }
  }

  /** A part of a non-negative whole is at least nothing and at most the whole. */
  lemma PortionWithin(total: int, part: nat, whole: nat)
    requires 0 <= total && part <= whole && whole > 0
    ensures 0 <= Portion(total, part, whole) <= total
    ensures part == 0 ==> Portion(total, part, whole) == 0
  {
    MulOrder(0, total, part);
    MulOrder(part, whole, total);
    QuotientBounds(total * part, whole);
    if Portion(total, part, whole) > total {
      MulOrder(total + 1, Portion(total, part, whole), whole);
      Distribute(total, 1, whole);
    }
    if Portion(total, part, whole) < 0 {
      MulOrder(Portion(total, part, whole), -1, whole);
    }
  }

  /** Of a non-negative pool, a part costs at least nothing and at most everything. */
  lemma CostWithinPool(total: int, onHand: nat, units: nat)
    requires 0 < units <= onHand && 0 <= total && Abs(total * onHand) < 2 * DECIMAL_UNIT
    ensures 0 <= CostMinor(total, onHand, units) <= total
    ensures units == onHand ==> CostMinor(total, onHand, units) == total
  {
    CostBounds(total, onHand, units);
    PortionWithin(total, onHand - units, onHand);
  }

  // ---------- One sale on a grid ----------

  /** The value is `n` units of the `places`-th decimal, and in the exact range of the division by `onHand`. */
  predicate Pool(value: Amount, n: int, places: nat, onHand: nat) {
    && places >= DECIMALS && Is(value, n, places) && 0 <= n < DECIMAL_LIMIT
    && n / Pow(10, places - DECIMALS) * onHand < 2 * DECIMAL_UNIT
  }

  /** What a sale costs, in units of the `places`-th decimal. */
  function CostOnGrid(n: int, places: nat, onHand: nat, units: nat): int
    requires places >= DECIMALS && 0 < units <= onHand
  {
    CostMinor(n / Pow(10, places - DECIMALS), onHand, units) * Pow(10, places - DECIMALS)
  }

  /** Of `n` units in groups of `h`, whole groups up to their number are at most `n`. */
  lemma WholeGroups(n: int, c: int, h: nat)
    requires h > 0 && 0 <= n && 0 <= c <= n / h
    ensures 0 <= c * h <= n
    ensures c == n / h ==> n - c * h < h
  {
    QuotientBounds(n, h);
    MulOrder(c, n / h, h);
    MulOrder(0, c, h);
  }

  /** Rounded down, or one minor unit more. */
  lemma CostIsFair(n: int, h: nat, onHand: nat, units: nat)
    requires 0 < units <= onHand && h > 0 && n >= 0 && n / h * onHand < 2 * DECIMAL_UNIT
    ensures var share, c := Portion(n / h, units, onHand), CostMinor(n / h, onHand, units);
            && share * h <= c * h <= (share + 1) * h
            && 0 <= c * h <= n && (units == onHand ==> n - c * h < h)
  {
    var total := n / h;
    var c := CostMinor(total, onHand, units);
    TotalNotNegative(n, h);
    MulOrder(0, total, onHand);
    CostBounds(total, onHand, units);
    CostWithinPool(total, onHand, units);
    WholeGroups(n, c, h);
    MulOrder(Portion(total, units, onHand), c, h);
    MulOrder(c, Portion(total, units, onHand) + 1, h);
  }

  /**
   A sale costs its rounded-down share of the pool or one minor unit more,
   leaves a value that is exactly the rest and not negative, and selling the
   last unit leaves less than one minor unit.
   */
  lemma SaleIsFair(value: Amount, n: int, places: nat, onHand: nat, units: nat)
    requires 0 < units <= onHand && Pool(value, n, places, onHand)
    ensures var minor, cost := Pow(10, places - DECIMALS), CostOnGrid(n, places, onHand, units);
            && Is(CostOf(value, onHand, units), cost, places)
            && Is(Subtract(value, CostOf(value, onHand, units)), n - cost, places)
            && 0 <= cost <= n
            && Portion(n / minor, units, onHand) * minor <= cost <= (Portion(n / minor, units, onHand) + 1) * minor
            && (units == onHand ==> n - cost < minor)
  {
    var minor := Pow(10, places - DECIMALS);
    var c := CostMinor(n / minor, onHand, units);
    CostIsFair(n, minor, onHand, units);
    MinorTotalExact(value, n, places, DECIMALS);
    FromMinorExact(c, DECIMALS, places - DECIMALS);
    SubtractExact(value, CostOf(value, onHand, units), n, c * minor, places);
  }

  lemma TotalNotNegative(n: int, h: nat)
    requires n >= 0 && h > 0
    ensures n / h >= 0
  {
    QuotientBounds(n, h);
    if n / h < 0 {
      MulOrder(n / h, -1, h);
    }
  }

  // ---------- Runs ----------

  datatype Op =
    | Receive(sku: string, name: string, units: nat, unitCost: Price, reorderPoint: nat)
    | Sell(sku: string, units: nat)

  /** What the input schemas let through. */
  predicate ValidOp(op: Op) {
    op.units > 0
  }

  function Apply(stock: Stock, op: Op): Stock
    requires ValidOp(op)
  {
    match op
    case Receive(sku, name, units, unitCost, reorderPoint) => Received(stock, sku, name, units, unitCost, reorderPoint)
    case Sell(sku, units) => Sold(stock, sku, units)
  }

  predicate ValidOps(ops: seq<Op>) {
    forall i :: 0 <= i < |ops| ==> ValidOp(ops[i])
  }

  function Run(ops: seq<Op>): Stock
    requires ValidOps(ops)
  {
    if ops == [] then map[] else Apply(Run(ops[..|ops| - 1]), ops[|ops| - 1])
  }

  predicate ReceivesOf(op: Op, sku: string) {
    op.Receive? && op.sku == sku
  }

  predicate CostFits(op: Op, sku: string, places: nat) {
    ReceivesOf(op, sku) ==> op.unitCost.places <= places
  }

  /** No unit cost of the product has more decimals. */
  predicate Places(ops: seq<Op>, sku: string, places: nat) {
    forall i :: 0 <= i < |ops| ==> CostFits(ops[i], sku, places)
  }

  /** What one delivery is worth, in units of the `places`-th decimal. */
  function Worth(op: Op, places: nat): nat
    requires op.Receive? && op.unitCost.places <= places
  {
    op.unitCost.digits * Pow(10, places - op.unitCost.places) * op.units
  }

  function Delivered(op: Op, sku: string, places: nat): nat
    requires CostFits(op, sku, places)
  {
    if ReceivesOf(op, sku) then Worth(op, places) else 0
  }

  /** Everything paid for goods of this product, exactly. */
  function TotalReceived(ops: seq<Op>, sku: string, places: nat): nat
    requires Places(ops, sku, places)
  {
    if ops == [] then 0
    else
      var n := |ops| - 1;
      assert CostFits(ops[n], sku, places);
      TotalReceived(ops[..n], sku, places) + Delivered(ops[n], sku, places)
  }

  function UnitsOf(op: Op, sku: string): nat {
    if ReceivesOf(op, sku) then op.units else 0
  }

  /** All units ever received of this product. */
  function UnitsReceived(ops: seq<Op>, sku: string): nat {
    if ops == [] then 0
    else
      UnitsReceived(ops[..|ops| - 1], sku) + UnitsOf(ops[|ops| - 1], sku)
  }

  /** Does the operation sell something of the product, after the ones before it? */
  predicate Sells(before: Stock, op: Op, sku: string) {
    op.Sell? && op.sku == sku && sku in before && op.units <= before[sku].onHand
  }

  /** The cost of goods reported by every sale of this product that went through. */
  function TotalCost(ops: seq<Op>, sku: string, places: nat): int
    requires ValidOps(ops) && places >= DECIMALS
  {
    if ops == [] then 0
    else
      var n := |ops| - 1;
      TotalCost(ops[..n], sku, places) + Expensed(Run(ops[..n]), ops[n], sku, places)
  }

  function Expensed(before: Stock, op: Op, sku: string, places: nat): int
    requires ValidOp(op) && places >= DECIMALS
  {
    if Sells(before, op, sku) then ReportedCost(before[sku], op.units, places) else 0
  }

  /** The reported cost, an amount in minor units, on the grid. */
  function ReportedCost(record: Record, units: nat, places: nat): int
    requires 0 < units <= record.onHand && places >= DECIMALS
  {
    CostMinor(MinorTotal(record.value, DECIMALS), record.onHand, units) * Pow(10, places - DECIMALS)
  }

  /** The value on hand of a product, in units of the grid. */
  function ValueOf(stock: Stock, sku: string, places: nat): int {
    if sku in stock then Units(stock[sku].value, places) else 0
  }

  /** It is a whole number of those units, and not negative. */
  predicate Holds(stock: Stock, sku: string, places: nat) {
    sku in stock ==> Is(stock[sku].value, ValueOf(stock, sku, places), places) && ValueOf(stock, sku, places) >= 0
  }

  /**
   A condition on the pool an operation meets: after a delivery the value on
   hand has at most 28 digits, and before a sale its minor units times the
   units on hand are in the exact range of `allocate`.
   */
  predicate StepWithin(stock: Stock, op: Op, sku: string, places: nat)
    requires places >= DECIMALS && CostFits(op, sku, places)
  {
    var n := ValueOf(stock, sku, places);
    && n + Delivered(op, sku, places) < DECIMAL_LIMIT
    && (Sells(stock, op, sku) ==> n / Pow(10, places - DECIMALS) * stock[sku].onHand < 2 * DECIMAL_UNIT)
  }

  /** Every operation of the run meets a pool within precision. */
  predicate PoolsWithin(ops: seq<Op>, sku: string, places: nat)
    requires ValidOps(ops) && places >= DECIMALS && Places(ops, sku, places)
  {
    ops == [] ||
    var before, op := ops[..|ops| - 1], ops[|ops| - 1];
    assert CostFits(op, sku, places);
    PoolsWithin(before, sku, places) && StepWithin(Run(before), op, sku, places)
  }

  lemma WorthExact(op: Op, places: nat)
    requires op.Receive? && op.unitCost.places <= places && Worth(op, places) < DECIMAL_LIMIT
    ensures Is(Multiply(AmountOf(op.unitCost), Ratio(op.units, 1)), Worth(op, places), places)
  {
    var p := op.unitCost;
    Refine(AmountOf(p), p.digits, p.places, places - p.places);
    MultiplyExact(AmountOf(p), op.units, p.digits * Pow(10, places - p.places), places);
  }

  lemma ReceiveKeeps(before: Stock, op: Op, places: nat)
    requires op.Receive? && op.units > 0 && op.unitCost.places <= places && Holds(before, op.sku, places)
    requires ValueOf(before, op.sku, places) + Worth(op, places) < DECIMAL_LIMIT
    ensures var after := Apply(before, op);
            Holds(after, op.sku, places)
            && ValueOf(after, op.sku, places) == ValueOf(before, op.sku, places) + Worth(op, places)
  {
    var n, added := ValueOf(before, op.sku, places), Multiply(AmountOf(op.unitCost), Ratio(op.units, 1));
    WorthExact(op, places);
    UnitsAre(added, Worth(op, places), places);
    if op.sku in before {
      AddExact(before[op.sku].value, added, n, Worth(op, places), places);
      UnitsAre(Add(before[op.sku].value, added), n + Worth(op, places), places);
    }
  }

  lemma SaleKeeps(record: Record, units: nat, places: nat)
    requires 0 < units <= record.onHand && places >= DECIMALS
    requires Pool(record.value, Units(record.value, places), places, record.onHand)
    ensures var n, cost := Units(record.value, places), ReportedCost(record, units, places);
            var left := Subtract(record.value, CostOf(record.value, record.onHand, units));
            0 <= cost <= n && Is(left, n - cost, places) && Units(left, places) == n - cost
  {
    var n := Units(record.value, places);
    SaleIsFair(record.value, n, places, record.onHand, units);
    MinorTotalExact(record.value, n, places, DECIMALS);
    UnitsAre(Subtract(record.value, CostOf(record.value, record.onHand, units)),
             n - ReportedCost(record, units, places), places);
  }

  /** What an operation changes: what it delivers comes in, what it reports as cost goes out. */
  lemma StepHolds(before: Stock, op: Op, sku: string, places: nat)
    requires ValidOp(op) && places >= DECIMALS && CostFits(op, sku, places)
    requires Holds(before, sku, places) && StepWithin(before, op, sku, places)
    ensures 0 <= Expensed(before, op, sku, places) <= ValueOf(before, sku, places)
    ensures Holds(Apply(before, op), sku, places)
    ensures ValueOf(Apply(before, op), sku, places)
         == ValueOf(before, sku, places) + Delivered(op, sku, places) - Expensed(before, op, sku, places)
  {
    if ReceivesOf(op, sku) {
      ReceiveKeeps(before, op, places);
    } else if Sells(before, op, sku) {
      SaleKeeps(before[sku], op.units, places);
    }
  }

  /** What was received is what was expensed and what is on hand. */
  predicate Balanced(stock: Stock, sku: string, received: nat, cost: int, places: nat) {
    0 <= cost && Holds(stock, sku, places) && received == cost + ValueOf(stock, sku, places)
  }

  /**
   Every run whose pools stay within precision: what was received is exactly
   what went out as cost plus the value on hand, which is never negative.
   */
  lemma {:induction false} ValueConserved(ops: seq<Op>, sku: string, places: nat)
    requires ValidOps(ops) && places >= DECIMALS && Places(ops, sku, places) && PoolsWithin(ops, sku, places)
    ensures Balanced(Run(ops), sku, TotalReceived(ops, sku, places), TotalCost(ops, sku, places), places)
  {
    if ops != [] {
      var before := ops[..|ops| - 1];
      assert CostFits(ops[|ops| - 1], sku, places);
      ValueConserved(before, sku, places);
      StepHolds(Run(before), ops[|ops| - 1], sku, places);
    }
  }

  // ---------- A condition on the inputs alone ----------

  /**
   With at most `places` decimals in the unit costs, everything ever received
   has at most 28 digits, and its minor units times the units are in range.
   */
  predicate WithinPrecision(ops: seq<Op>, sku: string, places: nat) {
    && places >= DECIMALS && Places(ops, sku, places)
    && TotalReceived(ops, sku, places) < DECIMAL_LIMIT
    && TotalReceived(ops, sku, places) / Pow(10, places - DECIMALS) * UnitsReceived(ops, sku) < 2 * DECIMAL_UNIT
  }

  lemma QuotientOrder(a: int, b: int, h: nat)
    requires a <= b && h > 0
    ensures a / h <= b / h
  {
    if a / h > b / h {
      FarApart(b / h, a / h, h);
      QuotientAndRemainder(a, h);
      QuotientAndRemainder(b, h);
    }
  }

  /** Less value and fewer units stay in range. */
  lemma SmallerPool(a: nat, b: nat, u: nat, v: nat, h: nat, limit: nat)
    requires a <= b && u <= v && h > 0 && b / h * v < limit
    ensures a / h * u < limit
  {
    QuotientOrder(a, b, h);
    TotalNotNegative(a, h);
    MulOrder(a / h, b / h, v);
    MulOrder(u, v, a / h);
  }

  lemma WithinBefore(ops: seq<Op>, sku: string, places: nat)
    requires WithinPrecision(ops, sku, places) && ops != []
    ensures WithinPrecision(ops[..|ops| - 1], sku, places)
  {
    SmallerPool(TotalReceived(ops[..|ops| - 1], sku, places), TotalReceived(ops, sku, places),
                UnitsReceived(ops[..|ops| - 1], sku), UnitsReceived(ops, sku),
                Pow(10, places - DECIMALS), 2 * DECIMAL_UNIT);
  }

  /** No more is on hand than was ever received. */
  lemma {:induction false} OnHandBound(ops: seq<Op>, sku: string)
    requires ValidOps(ops)
    ensures sku in Run(ops) ==> Run(ops)[sku].onHand <= UnitsReceived(ops, sku)
  {
    if ops != [] {
      OnHandBound(ops[..|ops| - 1], sku);
    }
  }

  lemma StepWithinPrecision(before: seq<Op>, op: Op, sku: string, received: nat, units: nat, places: nat)
    requires ValidOps(before) && ValidOp(op) && places >= DECIMALS && Places(before, sku, places)
    requires CostFits(op, sku, places) && PoolsWithin(before, sku, places)
    requires TotalReceived(before, sku, places) + Delivered(op, sku, places) <= received < DECIMAL_LIMIT
    requires UnitsReceived(before, sku) <= units && received / Pow(10, places - DECIMALS) * units < 2 * DECIMAL_UNIT
    ensures StepWithin(Run(before), op, sku, places)
  {
    ValueConserved(before, sku, places);
    OnHandBound(before, sku);
    if Sells(Run(before), op, sku) {
      SmallerPool(ValueOf(Run(before), sku, places), received,
                  Run(before)[sku].onHand, units, Pow(10, places - DECIMALS), 2 * DECIMAL_UNIT);
    }
  }

  /** Then every pool of the run is within precision, so value is conserved. */
  lemma {:induction false} PrecisionSuffices(ops: seq<Op>, sku: string, places: nat)
    requires ValidOps(ops) && WithinPrecision(ops, sku, places)
    ensures PoolsWithin(ops, sku, places)
  {
    if ops != [] {
      WithinBefore(ops, sku, places);
      PrecisionSuffices(ops[..|ops| - 1], sku, places);
      assert CostFits(ops[|ops| - 1], sku, places);
      StepWithinPrecision(ops[..|ops| - 1], ops[|ops| - 1], sku, TotalReceived(ops, sku, places),
                          UnitsReceived(ops, sku), places);
    }
  }

  // ---------- Beyond 28 digits ----------

  /** A sum of 30 digits is rounded to the nearest of 28. */
  lemma LongSumRounds(num: nat, den: nat)
    requires den > 0 && num * 1_000_000_000_000_000_000_000_000_000 == 101_000_000_000_000_000_000_000_000_001 * den
    ensures Is(Rounded(num, den), 101, 0)
  {
    LongSumRange(num, den);
    var r := NearestRounded(num, den);
    SameQuotient(num, den, r.num, r.den);
    LongNearest(r.num, r.den);
    assert Pow(10, 0) == 1;
  }

  lemma LongSumRange(num: nat, den: nat)
    requires den > 0 && num * 1_000_000_000_000_000_000_000_000_000 == 101_000_000_000_000_000_000_000_000_001 * den
    ensures 0 < num < DECIMAL_LIMIT * den
  {
    assert DECIMAL_LIMIT == 10_000_000_000_000_000_000_000_000_000;
  }

  /** Nearness does not depend on how the quotient is written. */
  lemma SameQuotient(num: nat, den: nat, h: int, d: nat)
    requires den > 0 && num * 1_000_000_000_000_000_000_000_000_000 == 101_000_000_000_000_000_000_000_000_001 * den
    requires 2 * Abs(h * den - num * d) <= den
    ensures 2 * Abs(h * 1_000_000_000_000_000_000_000_000_000 - 101_000_000_000_000_000_000_000_000_001 * d)
         <= 1_000_000_000_000_000_000_000_000_000
  {
    var u: int := 1_000_000_000_000_000_000_000_000_000;
    var x: int := h * u - 101_000_000_000_000_000_000_000_000_001 * d;
    assert (h * den - num * d) * u == x * den by {
      assert h * den * u == h * u * den;
      assert num * d * u == num * u * d;
    }
    AbsProduct(h * den - num * d, u);
    AbsProduct(x, den);
    MulOrder(2 * Abs(h * den - num * d), den, u);
    CancelOrder(2 * Abs(x), u, den);
  }

  lemma LongNearest(h: int, d: nat)
    requires Abs(h) <= DECIMAL_LIMIT
    requires 2 * Abs(h * 1_000_000_000_000_000_000_000_000_000 - 101_000_000_000_000_000_000_000_000_001 * d)
          <= 1_000_000_000_000_000_000_000_000_000
    ensures h == 101 * d
  {
    var k := h - 101 * d;
    assert 2 * Abs(k * 1_000_000_000_000_000_000_000_000_000 - d) <= 1_000_000_000_000_000_000_000_000_000;
  }

  lemma Power27()
    ensures Pow(10, 27) == 1_000_000_000_000_000_000_000_000_000
  {
    assert Pow(10, 1) == 10 && Pow(10, 2) == 100;
    assert Pow(10, 3) == 1000;
    PowAdd(10, 3, 3);
    PowAdd(10, 6, 3);
    PowAdd(10, 9, 9);
    PowAdd(10, 18, 9);
  }

  lemma LongAdd(a: Amount, b: Amount)
    requires Is(a, 1_000_000_000_000_000_000_000_000_001, 27) && Is(b, 100, 0)
    ensures Is(Add(a, b), 101, 0)
  {
    Refine(b, 100, 0, 27);
    Power27();
    var g := Pow(10, 27);
    SumOnGrid(a, b, 1_000_000_000_000_000_000_000_000_001, 100 * g, g);
    DenPositive(a, b);
    var num := a.num * b.den + b.num * a.den;
    if num <= 0 {
      MulOrder(num, 0, g);
    }
    LongSumRounds(num, a.den * b.den);
  }

  lemma DeliverTwo(a: Op, b: Op)
    requires ValidOp(a) && ValidOp(b) && a.Receive? && b.Receive? && a.sku == b.sku
    ensures ValidOps([a, b]) && a.sku in Run([a, b])
    ensures Run([a, b])[a.sku].value == Add(Multiply(AmountOf(a.unitCost), Ratio(a.units, 1)),
                                            Multiply(AmountOf(b.unitCost), Ratio(b.units, 1)))
  {
    assert [a, b][..1] == [a] && [a][..0] == [];
    assert Run([a]) == Apply(map[], a);
  }

  lemma TwoDelivered(a: Op, b: Op, places: nat)
    requires a.Receive? && b.Receive? && a.sku == b.sku && a.unitCost.places <= places && b.unitCost.places <= places
    ensures Places([a, b], a.sku, places)
    ensures TotalReceived([a, b], a.sku, places) == Worth(a, places) + Worth(b, places)
  {
    assert [a, b][..1] == [a] && [a][..0] == [];
    assert Places([a], a.sku, places);
    assert TotalReceived([a], a.sku, places) == Worth(a, places);
  }

  /** Deliveries worth 28 and 3 digits that together need 30. */
  predicate LongAndShort(a: Op, b: Op) {
    && a.Receive? && b.Receive? && a.sku == b.sku && a.units == b.units == 1
    && a.unitCost == Price(1_000_000_000_000_000_000_000_000_001, 27) && b.unitCost == Price(100, 0)
  }

  lemma LongWorth(a: Op, b: Op)
    requires LongAndShort(a, b)
    ensures Worth(a, 27) == 1_000_000_000_000_000_000_000_000_001 && Worth(b, 0) == 100
    ensures Worth(b, 27) == 100_000_000_000_000_000_000_000_000_000
  {
    Power27();
    assert Pow(10, 0) == 1;
  }

  /** The smallest part of the first delivery is lost. */
  lemma LongSumLosesValue(a: Op, b: Op)
    requires LongAndShort(a, b)
    ensures ValidOps([a, b]) && a.sku in Run([a, b]) && Is(Run([a, b])[a.sku].value, 101, 0)
    ensures Places([a, b], a.sku, 27)
    ensures TotalReceived([a, b], a.sku, 27) == 101_000_000_000_000_000_000_000_000_001
  {
    LongWorth(a, b);
    DeliverTwo(a, b);
    TwoDelivered(a, b, 27);
    WorthExact(a, 27);
    WorthExact(b, 0);
    LongAdd(Multiply(AmountOf(a.unitCost), Ratio(a.units, 1)), Multiply(AmountOf(b.unitCost), Ratio(b.units, 1)));
  }
}
