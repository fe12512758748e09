/**
 Units on hand over every run, from the deliveries and the sales asked for
 alone: which sales go through, and what is left.
 */
module InventoryUnits {
  import opened Inventory

  /** Units of the sales that went through: those of no more than was left of what had been received. */
  function UnitsSold(ops: seq<Op>, sku: string): nat {
    if ops == [] then 0
    else
      var before, last := ops[..|ops| - 1], ops[|ops| - 1];
      var left := UnitsReceived(before, sku) - UnitsSold(before, sku);
      UnitsSold(before, sku) + if last.Sell? && last.sku == sku && last.units <= left then last.units else 0
  }

  /** The first delivery of the product. */
  ghost predicate First(ops: seq<Op>, sku: string, i: nat) {
    i < |ops| && ReceivesOf(ops[i], sku) && forall j :: 0 <= j < i ==> !ReceivesOf(ops[j], sku)
  }

  /** The product has been delivered, and carries the name and reorder point of its first delivery. */
  ghost predicate Known(ops: seq<Op>, sku: string, record: Record) {
    && record.sku == sku
    && exists i: nat :: First(ops, sku, i) && record.name == ops[i].name && record.reorderPoint == ops[i].reorderPoint
  }

  ghost predicate UnitsBalance(ops: seq<Op>, sku: string, stock: Stock) {
    && (sku in stock <==> exists i :: 0 <= i < |ops| && ReceivesOf(ops[i], sku))
    && (sku in stock ==> Known(ops, sku, stock[sku]))
    && UnitsReceived(ops, sku) == (if sku in stock then stock[sku].onHand else 0) + UnitsSold(ops, sku)
  }

  lemma DeliveredBefore(before: seq<Op>, op: Op, sku: string)
    ensures (exists i :: 0 <= i < |before + [op]| && ReceivesOf((before + [op])[i], sku))
       <==> ReceivesOf(op, sku) || exists i :: 0 <= i < |before| && ReceivesOf(before[i], sku)
  {
    var ops := before + [op];
    assert ops[|before|] == op;
    if i :| 0 <= i < |before| && ReceivesOf(before[i], sku) {
      assert ops[i] == before[i];
    }
  }

  lemma FirstStays(before: seq<Op>, op: Op, sku: string, i: nat)
    requires First(before, sku, i)
    ensures First(before + [op], sku, i) && (before + [op])[i] == before[i]
  {
    assert forall j :: 0 <= j <= i ==> (before + [op])[j] == before[j];
  }

  lemma KnownAfter(before: seq<Op>, op: Op, sku: string, known: Record, record: Record)
    requires Known(before, sku, known)
    requires record.sku == sku && record.name == known.name && record.reorderPoint == known.reorderPoint
    ensures Known(before + [op], sku, record)
  {
    var i: nat :| First(before, sku, i) && known.name == before[i].name && known.reorderPoint == before[i].reorderPoint;
    FirstStays(before, op, sku, i);
  }

  lemma FirstDelivery(before: seq<Op>, op: Op, sku: string)
    requires ReceivesOf(op, sku) && forall i :: 0 <= i < |before| ==> !ReceivesOf(before[i], sku)
    ensures First(before + [op], sku, |before|) && (before + [op])[|before|] == op
  {
    assert forall j :: 0 <= j < |before| ==> (before + [op])[j] == before[j];
  }

  lemma StepBalance(before: seq<Op>, op: Op, sku: string, stock: Stock)
    requires ValidOp(op) && UnitsBalance(before, sku, stock)
    ensures UnitsBalance(before + [op], sku, Apply(stock, op))
  {
    var ops, after := before + [op], Apply(stock, op);
    assert ops[..|before|] == before;
    DeliveredBefore(before, op, sku);
    if sku in stock {
      KnownAfter(before, op, sku, stock[sku], after[sku]);
    } else if ReceivesOf(op, sku) {
      FirstDelivery(before, op, sku);
    }
  }

  /**
   Every run: a product is known exactly when it has been delivered, under the
   name and reorder point of its first delivery, and the units received are the
   units on hand and those of the sales that went through.
   */
  lemma {:induction false} UnitsConserved(ops: seq<Op>, sku: string)
    requires ValidOps(ops)
    ensures UnitsBalance(ops, sku, Run(ops))
  {
    if ops != [] {
      var before, op := ops[..|ops| - 1], ops[|ops| - 1];
      UnitsConserved(before, sku);
      StepBalance(before, op, sku, Run(before));
      assert before + [op] == ops;
    }
  }

  /** A sale goes through exactly when its units are at most those received and not sold before it. */
  lemma SellsIffUnitsLeft(ops: seq<Op>, op: Op)
    requires ValidOps(ops) && ValidOp(op) && op.Sell?
    ensures Sells(Run(ops), op, op.sku) <==> op.units <= UnitsReceived(ops, op.sku) - UnitsSold(ops, op.sku)
    ensures !Sells(Run(ops), op, op.sku) ==> Run(ops + [op]) == Run(ops)
  {
    UnitsConserved(ops, op.sku);
    assert (ops + [op])[..|ops|] == ops;
  }
}
