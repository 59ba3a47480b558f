/** What the reports of the reconciler and of the sync service say, on the balance and reservation rows. */
module SyncReports {
  import opened Sums
  import opened Sorting
  import opened Tables
  import opened AllocationLaws
  import opened RedisCacheModel
  import opened Reconciliation
  import opened InventorySync
  import opened SyncLaws

  // ----- the reconciler's report

  /** What is left on a row. */
  function LeftOn(b: Balance): int { b.onHand - b.reserved - b.allocatedQty - b.damaged - b.quarantine }

  /** A report is empty exactly when, for each row of the warehouse, the counters of its SKU add up to the active
      reservations and the row is not overdrawn. */
  lemma CleanExactly(db: Db, w: WarehouseId, order: seq<SkuId>)
    requires Lists(order, SkusAt(db.balances, w))
    ensures Reconcile(db, w, order) == [] <==>
            forall i :: 0 <= i < |db.balances| && db.balances[i].warehouse == w ==>
              && ActiveSum(db.reservations, w, db.balances[i].sku) == ReservedSum(db.balances, w, db.balances[i].sku)
              && 0 <= LeftOn(db.balances[i])
  {
    hide Reconcile, SumOver;
    VerdictIsExact(db, w, order);
    forall i | 0 <= i < |db.balances| && db.balances[i].warehouse == w
      ensures db.balances[i].sku in SkusAt(db.balances, w)
    {
      RowListed(db.balances, w, i);
    }
    if forall i :: 0 <= i < |db.balances| && db.balances[i].warehouse == w ==>
                     ActiveSum(db.reservations, w, db.balances[i].sku)
                     == ReservedSum(db.balances, w, db.balances[i].sku)
    {
      forall k | k in SkusAt(db.balances, w) ensures !Mismatch(db, w, k) {
        var b :| b in db.balances && b.warehouse == w && b.sku == k;
        var i :| 0 <= i < |db.balances| && db.balances[i] == b;
      }
    }
  }

  /** The SKUs gone through are those of the warehouse's rows, each once. */
  lemma EverySkuChecked(bs: seq<Balance>, w: WarehouseId, order: seq<SkuId>)
    requires Lists(order, SkusAt(bs, w))
    ensures |SkusAt(bs, w)| == |order|
    ensures forall k :: k in order <==> exists i :: 0 <= i < |bs| && bs[i].At(w, k)
  {
    assert SkusAt(bs, w) == SkuSet(order);
    DistinctMembers(order);
    forall k ensures k in order <==> exists i :: 0 <= i < |bs| && bs[i].At(w, k) {
      if k in order {
        var b :| b in bs && b.warehouse == w && b.sku == k;
        var i :| 0 <= i < |bs| && bs[i] == b;
        assert bs[i].At(w, k);
      }
      if i :| 0 <= i < |bs| && bs[i].At(w, k) {
        RowListed(bs, w, i);
      }
    }
  }

  lemma {:induction false} DistinctMembers(s: seq<SkuId>)
    requires forall i, j :: 0 <= i < j < |s| ==> s[i] != s[j]
    ensures |SkuSet(s)| == |s|
    decreases |s|
  {
    if s != [] {
      var m := |s| - 1;
      DistinctMembers(s[..m]);
      assert s == s[..m] + [s[m]] && s[m] !in s[..m];
      assert SkuSet(s) == SkuSet(s[..m]) + {s[m]};
    }
  }

  function Overdrawn(bs: seq<Balance>, w: WarehouseId, k: SkuId): nat -> bool {
    (i: nat) => i < |bs| && bs[i].At(w, k) && LeftOn(bs[i]) < 0
  }

  /** The entry of an overdrawn row: its own figures, and the reservations held for its SKU. */
  function OverdrawnEntry(b: Balance, held: int): Discrepancy {
    Discrepancy(b.warehouse, b.sku, b.onHand, LeftOn(b), held, b.reserved, b.allocatedQty, NegativeAvailable, Critical)
  }

  ghost predicate EntriesAt(found: seq<Discrepancy>, bs: seq<Balance>, held: int, at: seq<nat>) {
    |found| == |at| && forall j :: 0 <= j < |at| ==> at[j] < |bs| && found[j] == OverdrawnEntry(bs[at[j]], held)
  }

  lemma NegativesNext(bs: seq<Balance>, w: WarehouseId, k: SkuId, held: int)
    requires bs != []
    ensures
      var n := |bs| - 1;
      Negatives(held, RowsAt(bs, w, k)) ==
      Negatives(held, RowsAt(bs[..n], w, k)) + if Overdrawn(bs, w, k)(n) then [OverdrawnEntry(bs[n], held)] else []
  {
    var n := |bs| - 1;
    var rows := RowsAt(bs[..n], w, k);
    assert (rows + [bs[n]])[..|rows|] == rows;
  }

  lemma EntriesGrow(found: seq<Discrepancy>, bs: seq<Balance>, held: int, at: seq<nat>)
    requires bs != [] && EntriesAt(found, bs[..|bs| - 1], held, at)
    ensures EntriesAt(found, bs, held, at) && found + [] == found
    ensures EntriesAt(found + [OverdrawnEntry(bs[|bs| - 1], held)], bs, held, at + [|bs| - 1])
  {
  }

  /** The overdrawn rows of a SKU are reported in table order, each with its own figures. */
  lemma {:induction false} NegativesListed(bs: seq<Balance>, w: WarehouseId, k: SkuId, held: int) returns (at: seq<nat>)
    ensures Picks(at, |bs|, Overdrawn(bs, w, k))
    ensures EntriesAt(Negatives(held, RowsAt(bs, w, k)), bs, held, at)
    decreases |bs|
  {
    at := [];
    if bs != [] {
      hide Picks, EntriesAt, Negatives, RowsAt;
      var n := |bs| - 1;
      at := NegativesListed(bs[..n], w, k, held);
      PickAlike(at, n, Overdrawn(bs[..n], w, k), Overdrawn(bs, w, k));
      PickNext(at, n, Overdrawn(bs, w, k));
      NegativesNext(bs, w, k, held);
      EntriesGrow(Negatives(held, RowsAt(bs[..n], w, k)), bs, held, at);
      if Overdrawn(bs, w, k)(n) {
        at := at + [n];
      }
    }
  }

  /** What is said of a SKU: first, if the counters do not add up to the active reservations, the totals at the
      warehouse, severe when they differ by more than ten; then every overdrawn row. */
  lemma SkuReported(db: Db, w: WarehouseId, k: SkuId) returns (at: seq<nat>)
    ensures Picks(at, |db.balances|, Overdrawn(db.balances, w, k))
    ensures
      var bs, found := db.balances, SkuReport(db, w, k);
      var held, counted := ActiveSum(db.reservations, w, k), ReservedSum(bs, w, k);
      if held == counted then EntriesAt(found, bs, held, at)
      else
        && found != [] && EntriesAt(found[1..], bs, held, at)
        && found[0] == Discrepancy(w, k, OnHandSum(bs, w, k), OnHandSum(bs, w, k) - counted - AllocatedSum(bs, w, k),
                                   held, counted, AllocatedSum(bs, w, k), ReservationMismatch,
                                   if held - counted > 10 || counted - held > 10 then High else Medium)
  {
    hide SumOver, RowsAt, Negatives, Picks, EntriesAt;
    at := NegativesListed(db.balances, w, k, ActiveSum(db.reservations, w, k));
    var rest := Negatives(ActiveSum(db.reservations, w, k), RowsAt(db.balances, w, k));
    assert [] + rest == rest;
    if Mismatch(db, w, k) {
      assert SkuReport(db, w, k)[1..] == rest;
    }
  }

  // ----- the sync service's results

  function OutOfStep(db: Db, w: WarehouseId): SkuId -> int {
    (k: SkuId) => if ActiveSum(db.reservations, w, k) != ReservedSum(db.balances, w, k) then 1 else 0
  }

  /** Of the SKUs out of step, those with a home row, and those without one. */
  function Mendable(db: Db, w: WarehouseId): SkuId -> int {
    (k: SkuId) => if HasHome(db.balances, w, k) then OutOfStep(db, w)(k) else 0
  }

  function Homeless(db: Db, w: WarehouseId): SkuId -> int {
    (k: SkuId) => if HasHome(db.balances, w, k) then 0 else OutOfStep(db, w)(k)
  }

  function OverdrawnAt(w: WarehouseId): Balance -> int {
    (b: Balance) => if b.warehouse == w && LeftOn(b) < 0 then 1 else 0
  }

  function OverdrawnOf(bs: seq<Balance>, w: WarehouseId): SkuId -> int {
    (k: SkuId) => |Negatives(0, RowsAt(bs, w, k))|
  }

  lemma {:induction false} AsManyNegatives(held: int, other: int, rows: seq<Balance>)
    ensures |Negatives(held, rows)| == |Negatives(other, rows)|
    decreases |rows|
  {
    if rows != [] {
      AsManyNegatives(held, other, rows[..|rows| - 1]);
    }
  }

  /** Counted SKU by SKU, the overdrawn rows are all there are at the warehouse. */
  lemma {:induction false} OverdrawnBySku(bs: seq<Balance>, w: WarehouseId, order: seq<SkuId>)
    requires forall i, j :: 0 <= i < j < |order| ==> order[i] != order[j]
    requires forall i :: 0 <= i < |bs| && bs[i].warehouse == w ==> bs[i].sku in order
    ensures SumOver(order, OverdrawnOf(bs, w)) == SumOver(bs, OverdrawnAt(w))
    decreases |bs|
  {
    if bs == [] {
      SumZero(order, OverdrawnOf(bs, w));
    } else {
      var n := |bs| - 1;
      var b := bs[n];
      OverdrawnBySku(bs[..n], w, order);
      var own := (k: SkuId) => if k == b.sku then OverdrawnAt(w)(b) else 0;
      forall k ensures OverdrawnOf(bs, w)(k) == OverdrawnOf(bs[..n], w)(k) + own(k) {
        OneMoreRow(bs, w, k);
      }
      SumAdd(order, OverdrawnOf(bs, w), OverdrawnOf(bs[..n], w), own);
      if b.sku in order {
        var i :| 0 <= i < |order| && order[i] == b.sku;
        SumSingle(order, i, own);
      } else {
        SumZero(order, own);
      }
    }
  }

  lemma OneMoreRow(bs: seq<Balance>, w: WarehouseId, k: SkuId)
    requires bs != []
    ensures
      var n := |bs| - 1;
      OverdrawnOf(bs, w)(k) == OverdrawnOf(bs[..n], w)(k) + if k == bs[n].sku then OverdrawnAt(w)(bs[n]) else 0
  {
    var n := |bs| - 1;
    var rows := RowsAt(bs[..n], w, k);
    assert (rows + [bs[n]])[..|rows|] == rows;
  }

  lemma {:induction false} FoundCounts(db: Db, w: WarehouseId, order: seq<SkuId>)
    ensures |Reconcile(db, w, order)| == SumOver(order, OutOfStep(db, w)) + SumOver(order, OverdrawnOf(db.balances, w))
    decreases |order|
  {
    if order != [] {
      var m := |order| - 1;
      FoundCounts(db, w, order[..m]);
      hide SumOver, Reconcile, Negatives, RowsAt;
      SkuFound(db, w, order[m]);
      SumPrefix(order, m, OutOfStep(db, w));
      SumPrefix(order, m, OverdrawnOf(db.balances, w));
      assert order[..m + 1] == order;
      ReconcileNext(db, w, order);
    }
  }

  lemma ReconcileNext(db: Db, w: WarehouseId, order: seq<SkuId>)
    requires order != []
    ensures |Reconcile(db, w, order)|
         == |Reconcile(db, w, order[..|order| - 1])| + |SkuReport(db, w, order[|order| - 1])|
  {
    hide SkuReport;
  }

  lemma SkuFound(db: Db, w: WarehouseId, k: SkuId)
    ensures |SkuReport(db, w, k)| == OutOfStep(db, w)(k) + OverdrawnOf(db.balances, w)(k)
  {
    hide SumOver, Negatives;
    AsManyNegatives(ActiveSum(db.reservations, w, k), 0, RowsAt(db.balances, w, k));
  }

  /** The repairs that fail are those of SKUs without a home row. */
  lemma {:induction false} ErrorsCount(db: Db, w: WarehouseId, order: seq<SkuId>)
    requires forall i, j :: 0 <= i < j < |order| ==> order[i] != order[j]
    requires forall k :: k in order ==> k in SkusAt(db.balances, w)
    ensures RepairAll(db, w, Reconcile(db, w, order)).2 == SumOver(order, Homeless(db, w))
    decreases |order|
  {
    hide RepairedBy, SkusAt, Repair, SkuReport, SumOver;
    if order == [] {
      SumZero(order, Homeless(db, w));
    } else {
      var m := |order| - 1;
      var front, k := order[..m], order[m];
      assert order == front + [k] && k !in front;
      ErrorsCount(db, w, front);
      RepairAllEffect(db, w, front);
      var mid := RepairAll(db, w, Reconcile(db, w, front)).0;
      RepairConcat(db, w, Reconcile(db, w, front), SkuReport(db, w, k));
      RepairOneSku(mid, db, w, k);
      assert k !in SkuSet(front);
      if Mismatch(db, w, k) {
        FailsWithoutHome(db, mid, w, SkuSet(front), k);
      }
      assert OutOfStep(db, w)(k) == if Mismatch(db, w, k) then 1 else 0;
      SumSnoc(front, k, Homeless(db, w));
    }
  }

  lemma FailsWithoutHome(db: Db, mid: Db, w: WarehouseId, ks: set<SkuId>, k: SkuId)
    requires RepairedBy(db, mid, w, ks) && k !in ks && k in SkusAt(db.balances, w)
    ensures Mismatch(db, w, k) ==> (Repair(mid, w, k).1 == NoHomeRow <==> !HasHome(db.balances, w, k))
  {
    hide SumOver, GetBalance, SkusAt;
    SkusSame(db.balances, mid.balances, w);
    HomesStable(db.balances, mid.balances);
    assert Mismatch(mid, w, k) <==> Mismatch(db, w, k);
  }

  /** What `sync_warehouse` answers, read off the rows it starts from: the SKUs it went through, the mismatches and
      overdrawn rows among them, and, with repair, the mismatches with a home row and those without. */
  lemma ResultReads(db: Db, w: WarehouseId, order: seq<SkuId>, autoRepair: bool, cached: bool)
    requires Lists(order, SkusAt(db.balances, w))
    ensures
      var r := ResultAt(db, w, order, autoRepair, cached);
      && r.warehouse == w && r.skusSynced == |order| && r.cacheInvalidated == cached
      && r.found == SumOver(order, OutOfStep(db, w)) + SumOver(db.balances, OverdrawnAt(w))
      && r.repaired == (if autoRepair then SumOver(order, Mendable(db, w)) else 0)
      && r.errors == (if autoRepair then SumOver(order, Homeless(db, w)) else 0)
  {
    hide SumOver, Reconcile, SkusAt, RepairAll, GetBalance;
    EverySkuChecked(db.balances, w, order);
    FoundCounts(db, w, order);
    forall i | 0 <= i < |db.balances| && db.balances[i].warehouse == w ensures db.balances[i].sku in order {
      RowListed(db.balances, w, i);
    }
    OverdrawnBySku(db.balances, w, order);
    if autoRepair {
      SyncCures(db, w, order);
      SumCongruence(order, order, Repairable(db, w), Mendable(db, w));
      ErrorsCount(db, w, order);
    }
  }

  function FoundIn(): SyncResult -> int { (r: SyncResult) => r.found }

  function RepairedIn(): SyncResult -> int { (r: SyncResult) => r.repaired }

  /** `sync_network` gives one result per warehouse, in order, and adds up what they found and repaired. */
  lemma {:induction false} ResultsAddUp(db: Db, ws: seq<Warehouse>, orders: seq<seq<SkuId>>, autoRepair: bool,
                                        cached: bool)
    requires |orders| == |ws|
    ensures
      var results := ResultsOf(db, ws, orders, autoRepair, cached);
      && |results| == |ws| && (forall i :: 0 <= i < |ws| ==> results[i].warehouse == ws[i].id)
      && SyncAll(db, ws, orders, autoRepair).1 == SumOver(results, FoundIn())
      && SyncAll(db, ws, orders, autoRepair).2 == SumOver(results, RepairedIn())
    decreases |ws|
  {
    hide Sync, Found, SumOver, SkusAt;
    if ws == [] {
      SumZero(ResultsOf(db, ws, orders, autoRepair, cached), FoundIn());
      SumZero(ResultsOf(db, ws, orders, autoRepair, cached), RepairedIn());
    } else {
      var m := |ws| - 1;
      ResultsAddUp(db, ws[..m], orders[..m], autoRepair, cached);
      var front := ResultsOf(db, ws[..m], orders[..m], autoRepair, cached);
      var last := ResultAt(SyncAll(db, ws[..m], orders[..m], autoRepair).0, ws[m].id, orders[m], autoRepair, cached);
      SumSnoc(front, last, FoundIn());
      SumSnoc(front, last, RepairedIn());
    }
  }

  /** A network sync drops every cached network view and the inventory entries of the warehouses visited, and keeps
      everything else as it was. */
  lemma {:induction false} NetworkSyncDrops(store: Store, ws: seq<Warehouse>)
    ensures
      var after := InvalidatedAll(store, ws);
      && (forall key :: key in after <==>
            && key in store
            && (ws != [] ==> !key.NetworkKey?)
            && (key.InventoryKey? ==> !Visits(ws, key.warehouse)))
      && forall key :: key in after ==> after[key] == store[key]
    decreases |ws|
  {
    if ws != [] {
      var m := |ws| - 1;
      NetworkSyncDrops(store, ws[..m]);
      forall w ensures Visits(ws, w) <==> Visits(ws[..m], w) || w == ws[m].id {
        assert ws[m].id == w ==> Visits(ws, w);
        if Visits(ws[..m], w) {
          var i :| 0 <= i < m && ws[..m][i].id == w;
          assert ws[i].id == w;
        }
      }
    }
  }
}
