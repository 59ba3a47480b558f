/** The reconciler: detecting and repairing balances that disagree with the reservation table. */
module Reconciliation {
  import opened Sums
  import opened Tables
  import opened AllocationLaws

  datatype Severity = Medium | High | Critical

  datatype DiscrepancyType = ReservationMismatch | NegativeAvailable

  datatype Discrepancy = Discrepancy(warehouse: WarehouseId, sku: SkuId, onHand: int, available: int,
                                     reservedInReservations: int, reservedInBalance: int, allocatedInBalance: int,
                                     kind: DiscrepancyType, severity: Severity)

  datatype Report = Report(discrepancies: seq<Discrepancy>, skusChecked: nat, isBalanced: bool)

  datatype RepairOutcome = Repaired | NothingToRepair | NoHomeRow

  /** The SKUs with a row at the warehouse; the reconciler looks at no others. */
  function SkusAt(bs: seq<Balance>, w: WarehouseId): set<SkuId> {
    set b | b in bs && b.warehouse == w :: b.sku
  }

  /** Any order in which a set of SKUs may be iterated. */
  ghost predicate Lists(order: seq<SkuId>, skus: set<SkuId>) {
    && (forall k :: k in order <==> k in skus)
    && forall i, j :: 0 <= i < j < |order| ==> order[i] != order[j]
  }

  function RowsAt(bs: seq<Balance>, w: WarehouseId, k: SkuId): seq<Balance> {
    if bs == [] then []
    else if bs[|bs| - 1].At(w, k) then RowsAt(bs[..|bs| - 1], w, k) + [bs[|bs| - 1]]
    else RowsAt(bs[..|bs| - 1], w, k)
  }

  predicate Mismatch(db: Db, w: WarehouseId, k: SkuId) {
    ActiveSum(db.reservations, w, k) != ReservedSum(db.balances, w, k)
  }

  function MismatchAt(db: Db, w: WarehouseId, k: SkuId): Discrepancy {
    var held, counted := ActiveSum(db.reservations, w, k), ReservedSum(db.balances, w, k);
    var gap := if held < counted then counted - held else held - counted;
    Discrepancy(w, k, OnHandSum(db.balances, w, k),
                OnHandSum(db.balances, w, k) - counted - AllocatedSum(db.balances, w, k),
                held, counted, AllocatedSum(db.balances, w, k), ReservationMismatch, if gap > 10 then High else Medium)
  }

  function NegativeAt(held: int, b: Balance): Discrepancy {
    Discrepancy(b.warehouse, b.sku, b.onHand, b.Raw(), held, b.reserved, b.allocatedQty, NegativeAvailable, Critical)
  }

  function Negatives(held: int, rows: seq<Balance>): seq<Discrepancy> {
    if rows == [] then []
    else if rows[|rows| - 1].Raw() < 0 then Negatives(held, rows[..|rows| - 1]) + [NegativeAt(held, rows[|rows| - 1])]
    else Negatives(held, rows[..|rows| - 1])
  }

  function SkuReport(db: Db, w: WarehouseId, k: SkuId): seq<Discrepancy> {
    (if Mismatch(db, w, k) then [MismatchAt(db, w, k)] else [])
    + Negatives(ActiveSum(db.reservations, w, k), RowsAt(db.balances, w, k))
  }

  /** The report over the SKUs in the order given. */
  function Reconcile(db: Db, w: WarehouseId, order: seq<SkuId>): seq<Discrepancy> {
    if order == [] then [] else Reconcile(db, w, order[..|order| - 1]) + SkuReport(db, w, order[|order| - 1])
  }

  /** Sets the home row's counter to the sum of active reservations, if the SKU is out of step. */
  function Repair(db: Db, w: WarehouseId, k: SkuId): (Db, RepairOutcome) {
    if k !in SkusAt(db.balances, w) || !Mismatch(db, w, k) then (db, NothingToRepair)
    else
      match GetBalance(db.balances, w, k)
      case None => (db, NoHomeRow)
      case Some(h) =>
        var b := db.balances[h];
        (db.(balances := db.balances[h := b.(reserved := ActiveSum(db.reservations, w, k), version := b.version + 1)]),
         Repaired)
  }

  class InventoryReconciler {
    const session: Session

    constructor (session: Session)
      ensures this.session == session
    {
      this.session := session;
    }

    method ReconcileSku(w: WarehouseId, k: SkuId) returns (found: seq<Discrepancy>)
      ensures found == SkuReport(session.View(), w, k)
    {
      hide SumOver;
      found := [];
      var rows := RowsAt(session.balances, w, k);
      var held := ActiveSum(session.reservations, w, k);
      var counted := ReservedSum(session.balances, w, k);
      if held != counted {
        found := [MismatchAt(session.View(), w, k)];
      }
      ghost var mismatch := found;
      for i := 0 to |rows|
        invariant found == mismatch + Negatives(held, rows[..i])
      {
        assert rows[..i + 1][..i] == rows[..i];
        if rows[i].Raw() < 0 {
          found := found + [NegativeAt(held, rows[i])];
        }
      }
      assert rows[..|rows|] == rows;
    }

    /** The second result is the order in which the set of SKUs happened to be iterated. */
    method ReconcileWarehouse(w: WarehouseId) returns (report: Report, order: seq<SkuId>)
      ensures Lists(order, SkusAt(session.balances, w))
      ensures report.discrepancies == Reconcile(session.View(), w, order)
      ensures report.isBalanced <==> report.discrepancies == []
      ensures report.skusChecked == |SkusAt(session.balances, w)|
    {
      hide SkuReport, SkusAt;
      var skus := SkusAt(session.balances, w);
      report := Report([], |skus|, true);
      var left := skus;
      order := [];
      while left != {}
        invariant left <= skus
        invariant Lists(order, skus - left)
        invariant report.discrepancies == Reconcile(session.View(), w, order)
        invariant report.isBalanced <==> report.discrepancies == []
        invariant report.skusChecked == |skus|
        decreases left
      {
        var k :| k in left;
        left := left - {k};
        var found := ReconcileSku(w, k);
        assert (order + [k])[..|order|] == order;
        order := order + [k];
        report := Report(report.discrepancies + found, report.skusChecked, report.isBalanced && found == []);
      }
    }

    method AutoRepairReservationMismatch(w: WarehouseId, k: SkuId) returns (outcome: RepairOutcome)
      modifies session
      ensures (session.View(), outcome) == Repair(old(session.View()), w, k)
    {
      hide SumOver, Reconcile;
      var report, order := ReconcileWarehouse(w);
      MismatchesFound(session.View(), w, order, k);
      var mismatches := MismatchesOf(report.discrepancies, k);
      if mismatches == [] {
        return NothingToRepair;
      }
      var home := GetBalance(session.balances, w, k);
      if home.None? {
        return NoHomeRow;
      }
      var b := session.balances[home.value];
      session.balances := session.balances[home.value :=
        b.(reserved := mismatches[0].reservedInReservations, version := b.version + 1)];
      return Repaired;
    }
  }

  /** The mismatches a report lists for one SKU. */
  function MismatchesOf(report: seq<Discrepancy>, k: SkuId): seq<Discrepancy> {
    if report == [] then []
    else
      var d := report[|report| - 1];
      if d.sku == k && d.kind == ReservationMismatch then MismatchesOf(report[..|report| - 1], k) + [d]
      else MismatchesOf(report[..|report| - 1], k)
  }

  lemma {:induction false} MismatchesConcat(a: seq<Discrepancy>, b: seq<Discrepancy>, k: SkuId)
    ensures MismatchesOf(a + b, k) == MismatchesOf(a, k) + MismatchesOf(b, k)
    decreases |b|
  {
    if b == [] {
      assert a + b == a;
    } else {
      assert (a + b)[..|a| + |b| - 1] == a + b[..|b| - 1];
      MismatchesConcat(a, b[..|b| - 1], k);
    }
  }

  lemma {:induction false} NegativesAreNoMismatches(held: int, rows: seq<Balance>, k: SkuId)
    ensures MismatchesOf(Negatives(held, rows), k) == []
    decreases |rows|
  {
    if rows != [] {
      NegativesAreNoMismatches(held, rows[..|rows| - 1], k);
    }
  }

  lemma SkuReportMismatches(db: Db, w: WarehouseId, s: SkuId, k: SkuId)
    ensures MismatchesOf(SkuReport(db, w, s), k) == if s == k && Mismatch(db, w, k) then [MismatchAt(db, w, k)] else []
  {
    var first := if Mismatch(db, w, s) then [MismatchAt(db, w, s)] else [];
    var rest := Negatives(ActiveSum(db.reservations, w, s), RowsAt(db.balances, w, s));
    MismatchesConcat(first, rest, k);
    NegativesAreNoMismatches(ActiveSum(db.reservations, w, s), RowsAt(db.balances, w, s), k);
  }

  /** Whatever the iteration order, a report lists the mismatch of a SKU once or not at all. */
  lemma {:induction false} MismatchesFound(db: Db, w: WarehouseId, order: seq<SkuId>, k: SkuId)
    requires forall i, j :: 0 <= i < j < |order| ==> order[i] != order[j]
    ensures MismatchesOf(Reconcile(db, w, order), k)
         == if k in order && Mismatch(db, w, k) then [MismatchAt(db, w, k)] else []
    decreases |order|
  {
    hide SkuReport, Mismatch, MismatchAt;
    if order != [] {
      var m := |order| - 1;
      assert k in order <==> k in order[..m] || k == order[m];
      MismatchesFound(db, w, order[..m], k);
      MismatchesConcat(Reconcile(db, w, order[..m]), SkuReport(db, w, order[m]), k);
      SkuReportMismatches(db, w, order[m], k);
    }
  }
}
