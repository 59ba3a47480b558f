/** What the reconciler's verdict means, and how far repair converges. */
module SyncLaws {
  import opened Sums
  import opened Tables
  import opened AllocationLaws
  import opened Ledger
  import opened Reconciliation
  import opened InventorySync

  // ----- the verdict

  /** Nothing to report at a warehouse. */
  ghost predicate Balanced(db: Db, w: WarehouseId) {
    && (forall k :: k in SkusAt(db.balances, w) ==> !Mismatch(db, w, k))
    && (forall i :: 0 <= i < |db.balances| && db.balances[i].warehouse == w ==> 0 <= db.balances[i].Raw())
  }

  lemma {:induction false} RowsAtMembers(bs: seq<Balance>, w: WarehouseId, k: SkuId)
    ensures forall b :: b in RowsAt(bs, w, k) <==> b in bs && b.At(w, k)
    decreases |bs|
  {
    if bs != [] {
      RowsAtMembers(bs[..|bs| - 1], w, k);
      assert bs == bs[..|bs| - 1] + [bs[|bs| - 1]];
    }
  }

  lemma {:induction false} NoNegatives(held: int, rows: seq<Balance>)
    ensures Negatives(held, rows) == [] <==> forall b :: b in rows ==> 0 <= b.Raw()
    decreases |rows|
  {
    if rows != [] {
      NoNegatives(held, rows[..|rows| - 1]);
      assert rows == rows[..|rows| - 1] + [rows[|rows| - 1]];
    }
  }

  /** A SKU's part of the report is empty exactly when its counter agrees and no row of it is overdrawn. */
  lemma SkuReportEmpty(db: Db, w: WarehouseId, k: SkuId)
    ensures SkuReport(db, w, k) == [] <==>
            !Mismatch(db, w, k) && forall b :: b in db.balances && b.At(w, k) ==> 0 <= b.Raw()
  {
    RowsAtMembers(db.balances, w, k);
    NoNegatives(ActiveSum(db.reservations, w, k), RowsAt(db.balances, w, k));
  }

  lemma {:induction false} ReconcileEmpty(db: Db, w: WarehouseId, order: seq<SkuId>)
    ensures Reconcile(db, w, order) == [] <==> forall k :: k in order ==> SkuReport(db, w, k) == []
    decreases |order|
  {
    hide SkuReport;
    if order != [] {
      ReconcileEmpty(db, w, order[..|order| - 1]);
      assert order == order[..|order| - 1] + [order[|order| - 1]];
    }
  }

  /** The report is empty, in whatever order it was made, exactly when the warehouse is balanced. */
  lemma VerdictIsExact(db: Db, w: WarehouseId, order: seq<SkuId>)
    requires Lists(order, SkusAt(db.balances, w))
    ensures Reconcile(db, w, order) == [] <==> Balanced(db, w)
  {
    hide Mismatch, Reconcile, SkuReport;
    ReconcileEmpty(db, w, order);
    forall k {
      SkuReportEmpty(db, w, k);
    }
    if Reconcile(db, w, order) == [] {
      forall i | 0 <= i < |db.balances| && db.balances[i].warehouse == w ensures 0 <= db.balances[i].Raw() {
        assert db.balances[i] in db.balances;
        assert db.balances[i].sku in SkusAt(db.balances, w);
      }
    }
    if Balanced(db, w) {
      forall k | k in order ensures SkuReport(db, w, k) == [] {
        forall b | b in db.balances && b.At(w, k) ensures 0 <= b.Raw() {
          var i :| 0 <= i < |db.balances| && db.balances[i] == b;
        }
      }
    }
  }

  /** The reconciler never complains about a state the engines reached: the run may mix allocation, confirmation,
      release, expiry, extension and transfers in any way. */
  lemma ReconcilerNeverComplains(db: Db, steps: seq<Step>, w: WarehouseId, order: seq<SkuId>)
    requires Inv(db) && AdmissibleRun(db, steps)
    requires Lists(order, SkusAt(Run(db, steps).balances, w))
    ensures Reconcile(Run(db, steps), w, order) == []
  {
    RunKeeps(db, steps);
    VerdictIsExact(Run(db, steps), w, order);
  }

  // ----- repair

  /** Reserved units on rows other than the home row. */
  function ReservedElsewhere(bs: seq<Balance>, w: WarehouseId, k: SkuId): int {
    match GetBalance(bs, w, k)
    case None => ReservedSum(bs, w, k)
    case Some(h) => ReservedSum(bs, w, k) - bs[h].reserved
  }

  /** The home row of a mismatched SKU gets the sum of its active reservations. */
  function RepairedReserved(db: Db, w: WarehouseId, ks: set<SkuId>, i: nat): int
    requires i < |db.balances|
  {
    var b := db.balances[i];
    if b.warehouse == w && b.sku in ks && Mismatch(db, w, b.sku) && GetBalance(db.balances, w, b.sku) == Some(i)
    then ActiveSum(db.reservations, w, b.sku) else b.reserved
  }

  /** Repairing one SKU rewrites one home row's counter and leaves every other pair of records as it was. */
  lemma RepairEffect(db: Db, w: WarehouseId, k: SkuId)
    requires k in SkusAt(db.balances, w)
    ensures
      var (after, outcome) := Repair(db, w, k);
      && after.reservations == db.reservations && after.warehouses == db.warehouses && after.transfers == db.transfers
      && OnlyReservedMoved(db.balances, after.balances, k)
      && (forall i :: 0 <= i < |db.balances| ==>
            && after.balances[i].reserved == RepairedReserved(db, w, {k}, i)
            && (db.balances[i].warehouse != w ==> after.balances[i] == db.balances[i]))
      && (forall w', k' :: w' != w || k' != k ==>
          ReservedSum(after.balances, w', k') == ReservedSum(db.balances, w', k'))
      && (forall w', k' :: ReservedElsewhere(after.balances, w', k') == ReservedElsewhere(db.balances, w', k'))
      && (Mismatch(after, w, k) <==>
            Mismatch(db, w, k) && (!HasHome(db.balances, w, k) || ReservedElsewhere(db.balances, w, k) != 0))
      && (outcome == Repaired <==> Mismatch(db, w, k) && HasHome(db.balances, w, k))
  {
    hide SumOver;
    if Mismatch(db, w, k) && HasHome(db.balances, w, k) {
      var h := GetBalance(db.balances, w, k).value;
      var b := db.balances[h];
      RowMoved(db.balances, h, b.(reserved := ActiveSum(db.reservations, w, k), version := b.version + 1));
      HomesStable(db.balances, Repair(db, w, k).0.balances);
    }
  }

  predicate Outside(b: Balance, w: WarehouseId, ks: set<SkuId>) {
    b.warehouse != w || b.sku !in ks || b.location.Some?
  }

  /** What a batch of repairs leaves behind, for every row and every pair of records. */
  ghost predicate RepairedBy(before: Db, after: Db, w: WarehouseId, ks: set<SkuId>) {
    && after.reservations == before.reservations && after.warehouses == before.warehouses
    && after.transfers == before.transfers
    && SameKeys(before.balances, after.balances)
    && (forall i :: 0 <= i < |before.balances| ==>
          && after.balances[i] == before.balances[i].(reserved := RepairedReserved(before, w, ks, i),
                                                      version := after.balances[i].version)
          && (Outside(before.balances[i], w, ks) ==> after.balances[i] == before.balances[i]))
    && (forall w', k' :: w' != w || k' !in ks ==>
          ReservedSum(after.balances, w', k') == ReservedSum(before.balances, w', k'))
    && (forall w', k' :: ReservedElsewhere(after.balances, w', k') == ReservedElsewhere(before.balances, w', k'))
    && (forall k' :: k' in ks ==>
          (Mismatch(after, w, k') <==>
             Mismatch(before, w, k') &&
               (!HasHome(before.balances, w, k') || ReservedElsewhere(before.balances, w, k') != 0)))
  }

  lemma RepairOneMore(db: Db, mid: Db, w: WarehouseId, ks: set<SkuId>, k: SkuId)
    requires RepairedBy(db, mid, w, ks) && k !in ks && k in SkusAt(db.balances, w)
    ensures RepairedBy(db, Repair(mid, w, k).0, w, ks + {k})
    ensures Repair(mid, w, k).1 == Repaired <==> Mismatch(db, w, k) && HasHome(db.balances, w, k)
  {
    hide SumOver, GetBalance, Repair, SkusAt;
    SkusSame(db.balances, mid.balances, w);
    HomesStable(db.balances, mid.balances);
    RepairEffect(mid, w, k);
    assert Mismatch(mid, w, k) <==> Mismatch(db, w, k);
  }

  lemma {:induction false} RepairConcat(db: Db, w: WarehouseId, a: seq<Discrepancy>, b: seq<Discrepancy>)
    ensures
      var (mid, r, e) := RepairAll(db, w, a);
      var (after, r', e') := RepairAll(mid, w, b);
      RepairAll(db, w, a + b) == (after, r + r', e + e')
    decreases |b|
  {
    hide Repair;
    if b == [] {
      assert a + b == a;
    } else {
      assert (a + b)[..|a| + |b| - 1] == a + b[..|b| - 1];
      RepairConcat(db, w, a, b[..|b| - 1]);
    }
  }

  lemma {:induction false} NegativesNotRepaired(db: Db, w: WarehouseId, held: int, rows: seq<Balance>)
    ensures RepairAll(db, w, Negatives(held, rows)) == (db, 0, 0)
    decreases |rows|
  {
    if rows != [] {
      NegativesNotRepaired(db, w, held, rows[..|rows| - 1]);
    }
  }

  /** Handling one SKU's part of the report is one repair or none. */
  lemma RepairOneSku(mid: Db, db: Db, w: WarehouseId, k: SkuId)
    ensures
      var (after, outcome) := Repair(mid, w, k);
      RepairAll(mid, w, SkuReport(db, w, k)) ==
      if !Mismatch(db, w, k) then (mid, 0, 0)
      else (after, if outcome == Repaired then 1 else 0, if outcome == NoHomeRow then 1 else 0)
  {
    hide Repair, Mismatch, SumOver;
    var first := if Mismatch(db, w, k) then [MismatchAt(db, w, k)] else [];
    var rest := Negatives(ActiveSum(db.reservations, w, k), RowsAt(db.balances, w, k));
    RepairConcat(mid, w, first, rest);
    NegativesNotRepaired(RepairAll(mid, w, first).0, w, ActiveSum(db.reservations, w, k), RowsAt(db.balances, w, k));
    if Mismatch(db, w, k) {
      assert first[..0] == [];
    }
  }

  function Repairable(db: Db, w: WarehouseId): SkuId -> int {
    (k: SkuId) => if Mismatch(db, w, k) && HasHome(db.balances, w, k) then 1 else 0
  }

  function SkuSet(order: seq<SkuId>): set<SkuId> { set k | k in order }

  /** A sync repairs each listed SKU on its own, and counts those it could repair. */
  lemma {:induction false} RepairAllEffect(db: Db, w: WarehouseId, order: seq<SkuId>)
    requires forall i, j :: 0 <= i < j < |order| ==> order[i] != order[j]
    requires forall k :: k in order ==> k in SkusAt(db.balances, w)
    ensures RepairedBy(db, RepairAll(db, w, Reconcile(db, w, order)).0, w, SkuSet(order))
    ensures RepairAll(db, w, Reconcile(db, w, order)).1 == SumOver(order, Repairable(db, w))
    decreases |order|
  {
    hide RepairedBy, SkusAt, Repair, SkuReport, Mismatch;
    if order == [] {
      assert SkuSet(order) == {};
      RepairedNothing(db, w);
    } else {
      var m := |order| - 1;
      var front := order[..m];
      var k := order[m];
      assert order == front + [k] && k !in front;
      assert SkuSet(order) == SkuSet(front) + {k};
      RepairAllEffect(db, w, front);
      var mid := RepairAll(db, w, Reconcile(db, w, front)).0;
      RepairConcat(db, w, Reconcile(db, w, front), SkuReport(db, w, k));
      RepairOneSku(mid, db, w, k);
      RepairOneMore(db, mid, w, SkuSet(front), k);
      if !Mismatch(db, w, k) {
        MatchedUntouched(db, mid, w, SkuSet(front), k);
      }
    }
  }

  lemma RepairedNothing(db: Db, w: WarehouseId)
    ensures RepairedBy(db, db, w, {})
  {
  }

  /** A SKU that already agrees is not touched, and may be counted among the handled ones. */
  lemma MatchedUntouched(db: Db, mid: Db, w: WarehouseId, ks: set<SkuId>, k: SkuId)
    requires RepairedBy(db, mid, w, ks) && k !in ks && !Mismatch(db, w, k)
    ensures RepairedBy(db, mid, w, ks + {k})
  {
    hide SumOver, GetBalance;
  }

  /** `sync_warehouse` with repair: which mismatches are cured, exactly, and that nothing else is touched. */
  lemma SyncCures(db: Db, w: WarehouseId, order: seq<SkuId>)
    requires Lists(order, SkusAt(db.balances, w))
    ensures
      var (after, repaired, errors) := Sync(db, w, order, true);
      && RepairedBy(db, after, w, SkusAt(db.balances, w))
      && repaired == SumOver(order, Repairable(db, w))
  {
    RepairAllEffect(db, w, order);
    assert SkuSet(order) == SkusAt(db.balances, w);
  }

  /** Exactly when repair converges, that is, when a second sync finds nothing left to repair: every mismatched
      SKU with a home row must have no units reserved on its other rows. */
  lemma SecondSyncRepairsNothingIff(db: Db, w: WarehouseId, order: seq<SkuId>, order': seq<SkuId>)
    requires Lists(order, SkusAt(db.balances, w)) && Lists(order', SkusAt(db.balances, w))
    ensures
      Sync(Sync(db, w, order, true).0, w, order', true).1 == 0 <==>
      forall k :: k in SkusAt(db.balances, w) && Mismatch(db, w, k) && HasHome(db.balances, w, k) ==>
        ReservedElsewhere(db.balances, w, k) == 0
  {
    hide Sync, Mismatch, GetBalance;
    var after := Sync(db, w, order, true).0;
    SyncCures(db, w, order);
    SkusSame(db.balances, after.balances, w);
    HomesStable(db.balances, after.balances);
    SyncCures(after, w, order');
    SumOfFlags(order', Repairable(after, w));
    assert forall k :: k in order' ==> (Repairable(after, w)(k) == 0 <==>
      (Mismatch(db, w, k) && HasHome(db.balances, w, k) ==> ReservedElsewhere(db.balances, w, k) == 0));
  }

  lemma SumOfFlags<T>(s: seq<T>, f: T -> int)
    requires forall x :: x in s ==> 0 <= f(x)
    ensures SumOver(s, f) >= 0
    ensures SumOver(s, f) == 0 <==> forall x :: x in s ==> f(x) == 0
  {
    SumNonNegative(s, f);
    if SumOver(s, f) == 0 {
      forall x | x in s ensures f(x) == 0 {
        var i :| 0 <= i < |s| && s[i] == x;
        SumCoversElement(s, i, f);
      }
    } else if forall x :: x in s ==> f(x) == 0 {
      SumZero(s, f);
    }
  }

  // ----- the health of the network

  /** Every discrepancy at the warehouse is a mismatch that repair can handle. */
  ghost predicate Curable(db: Db, w: WarehouseId) {
    && (forall k :: k in SkusAt(db.balances, w) && Mismatch(db, w, k) ==> HasHome(db.balances, w, k))
    && (forall i :: 0 <= i < |db.balances| && db.balances[i].warehouse == w ==> 0 <= db.balances[i].Raw())
  }

  function Unrepaired(db: Db, w: WarehouseId): SkuId -> int {
    (k: SkuId) => |SkuReport(db, w, k)| - Repairable(db, w)(k)
  }

  lemma {:induction false} FoundSplits(db: Db, w: WarehouseId, order: seq<SkuId>)
    ensures |Reconcile(db, w, order)| == SumOver(order, Repairable(db, w)) + SumOver(order, Unrepaired(db, w))
    decreases |order|
  {
    hide SkuReport, Mismatch;
    if order != [] {
      FoundSplits(db, w, order[..|order| - 1]);
    }
  }

  /** Nothing of a SKU's report is left over exactly when it is curable. */
  lemma UnrepairedZero(db: Db, w: WarehouseId, k: SkuId)
    ensures 0 <= Unrepaired(db, w)(k)
    ensures Unrepaired(db, w)(k) == 0 <==>
            && (Mismatch(db, w, k) ==> HasHome(db.balances, w, k))
            && forall b :: b in db.balances && b.At(w, k) ==> 0 <= b.Raw()
  {
    RowsAtMembers(db.balances, w, k);
    var held, rows := ActiveSum(db.reservations, w, k), RowsAt(db.balances, w, k);
    NoNegatives(held, rows);
    hide Mismatch, Negatives, RowsAt, SumOver;
    assert Repairable(db, w)(k) == if Mismatch(db, w, k) && HasHome(db.balances, w, k) then 1 else 0;
    assert Unrepaired(db, w)(k) == |SkuReport(db, w, k)| - Repairable(db, w)(k);
    assert |SkuReport(db, w, k)| == (if Mismatch(db, w, k) then 1 else 0) + |Negatives(held, rows)|;
  }

  /** Repairs never outnumber findings, and reach them exactly at a curable warehouse. */
  lemma FoundAllRepairedIff(db: Db, w: WarehouseId, order: seq<SkuId>)
    requires Lists(order, SkusAt(db.balances, w))
    ensures
      var (after, repaired, errors) := Sync(db, w, order, true);
      && repaired <= Found(db, w, order)
      && (repaired == Found(db, w, order) <==> Curable(db, w))
  {
    hide Sync, Mismatch, SkuReport, Unrepaired, GetBalance;
    SyncCures(db, w, order);
    FoundSplits(db, w, order);
    forall k {
      UnrepairedZero(db, w, k);
    }
    SumOfFlags(order, Unrepaired(db, w));
    if forall k :: k in order ==> Unrepaired(db, w)(k) == 0 {
      forall i | 0 <= i < |db.balances| && db.balances[i].warehouse == w ensures 0 <= db.balances[i].Raw() {
        assert db.balances[i] in db.balances;
        assert db.balances[i].sku in SkusAt(db.balances, w);
      }
    }
    if Curable(db, w) {
      forall k | k in order ensures Unrepaired(db, w)(k) == 0 {
        forall b | b in db.balances && b.At(w, k) ensures 0 <= b.Raw() {
          var i :| 0 <= i < |db.balances| && db.balances[i] == b;
        }
      }
    }
  }

  /** A warehouse as the reconciler sees it, before and after work elsewhere. */
  ghost predicate Untouched(before: Db, after: Db, w: WarehouseId) {
    && after.reservations == before.reservations
    && SameKeys(before.balances, after.balances)
    && (forall i :: 0 <= i < |before.balances| && before.balances[i].warehouse == w ==>
        after.balances[i] == before.balances[i])
    && (forall k :: ReservedSum(after.balances, w, k) == ReservedSum(before.balances, w, k))
  }

  lemma UntouchedCurable(before: Db, after: Db, w: WarehouseId)
    requires Untouched(before, after, w)
    ensures Curable(before, w) <==> Curable(after, w)
  {
    hide SumOver, GetBalance, SkusAt;
    HomesStable(before.balances, after.balances);
    SkusSame(before.balances, after.balances, w);
  }

  ghost predicate Visits(ws: seq<Warehouse>, w: WarehouseId) {
    exists i :: 0 <= i < |ws| && ws[i].id == w
  }

  ghost predicate AllCurable(db: Db, ws: seq<Warehouse>) {
    forall i :: 0 <= i < |ws| ==> Curable(db, ws[i].id)
  }

  lemma {:induction false} SyncAllCounts(db: Db, ws: seq<Warehouse>, orders: seq<seq<SkuId>>)
    requires DistinctWarehouses(ws) && |orders| == |ws|
    requires forall i :: 0 <= i < |ws| ==> Lists(orders[i], SkusAt(db.balances, ws[i].id))
    ensures
      var (after, found, repaired) := SyncAll(db, ws, orders, true);
      && after.reservations == db.reservations && SameKeys(db.balances, after.balances)
      && (forall w :: !Visits(ws, w) ==> Untouched(db, after, w))
      && repaired <= found
      && (repaired == found <==> AllCurable(db, ws))
    decreases |ws|
  {
    hide Sync, Found, Curable, SkusAt, SumOver;
    if ws != [] {
      var m := |ws| - 1;
      var w := ws[m].id;
      forall i, j | 0 <= i < j < m ensures WarehouseKey()(ws[..m][i]) != WarehouseKey()(ws[..m][j]) {
        assert WarehouseKey()(ws[i]) != WarehouseKey()(ws[j]);
      }
      SyncAllCounts(db, ws[..m], orders[..m]);
      var mid := SyncAll(db, ws[..m], orders[..m], true).0;
      forall i | 0 <= i < m ensures ws[..m][i].id != w {
        assert WarehouseKey()(ws[i]) != WarehouseKey()(ws[m]);
      }
      assert !Visits(ws[..m], w);
      UntouchedCurable(db, mid, w);
      SkusSame(db.balances, mid.balances, w);
      FoundAllRepairedIff(mid, w, orders[m]);
      SyncCures(mid, w, orders[m]);
      forall w' | !Visits(ws, w') ensures !Visits(ws[..m], w') && w' != w {
        assert forall i :: 0 <= i < m ==> ws[..m][i] == ws[i];
      }
    }
  }

  /** Without repair nothing changes, nothing is repaired, and nothing is found exactly when all is balanced. */
  lemma {:induction false} DrySync(db: Db, ws: seq<Warehouse>, orders: seq<seq<SkuId>>)
    requires |orders| == |ws|
    requires forall i :: 0 <= i < |ws| ==> Lists(orders[i], SkusAt(db.balances, ws[i].id))
    ensures
      var (after, found, repaired) := SyncAll(db, ws, orders, false);
      && after == db && repaired == 0
      && (found == 0 <==> forall i :: 0 <= i < |ws| ==> Balanced(db, ws[i].id))
    decreases |ws|
  {
    hide Reconcile, Balanced, SkusAt;
    if ws != [] {
      var m := |ws| - 1;
      DrySync(db, ws[..m], orders[..m]);
      VerdictIsExact(db, ws[m].id, orders[m]);
      assert forall i :: 0 <= i < m ==> ws[..m][i] == ws[i];
    }
  }

  /** `sync_network` reports a healthy network exactly when, beforehand, every active warehouse was in order: with
      repair, no row overdrawn and a home row for every mismatched SKU; without, no discrepancy at all. */
  lemma HealthyIff(db: Db, orders: seq<seq<SkuId>>, autoRepair: bool)
    requires DistinctWarehouses(db.warehouses)
    requires |orders| == |ListActive(db.warehouses)|
    requires forall i :: 0 <= i < |orders| ==> Lists(orders[i], SkusAt(db.balances, ListActive(db.warehouses)[i].id))
    ensures
      var (after, found, repaired) := SyncAll(db, ListActive(db.warehouses), orders, autoRepair);
      NetworkReport([], found, repaired).IsHealthy() <==>
      forall w :: ActiveId(db.warehouses, w) ==> if autoRepair then Curable(db, w) else Balanced(db, w)
  {
    hide Curable, Balanced, SyncAll, SkusAt, Untouched, ListActive;
    var ws := ListActive(db.warehouses);
    ListActiveDistinct(db.warehouses);
    if autoRepair {
      SyncAllCounts(db, ws, orders);
      CurableEverywhere(db, ws);
      var (after, found, repaired) := SyncAll(db, ws, orders, true);
      assert repaired == found <==> forall w :: ActiveId(db.warehouses, w) ==> Curable(db, w);
    } else {
      DrySync(db, ws, orders);
      BalancedEverywhere(db, ws);
    }
  }

  lemma BalancedEverywhere(db: Db, ws: seq<Warehouse>)
    requires forall w :: w in ws <==> w in db.warehouses && w.isActive
    ensures (forall i :: 0 <= i < |ws| ==> Balanced(db, ws[i].id)) <==>
            forall w :: ActiveId(db.warehouses, w) ==> Balanced(db, w)
  {
    hide Balanced;
    if forall i :: 0 <= i < |ws| ==> Balanced(db, ws[i].id) {
      forall w | ActiveId(db.warehouses, w) ensures Balanced(db, w) {
        var row :| row in db.warehouses && row.isActive && row.id == w;
        assert row in ws;
      }
    }
    if forall w :: ActiveId(db.warehouses, w) ==> Balanced(db, w) {
      forall i | 0 <= i < |ws| ensures Balanced(db, ws[i].id) {
        assert ws[i] in ws;
        assert ActiveId(db.warehouses, ws[i].id);
      }
    }
  }

  lemma CurableEverywhere(db: Db, ws: seq<Warehouse>)
    requires forall w :: w in ws <==> w in db.warehouses && w.isActive
    ensures AllCurable(db, ws) <==> forall w :: ActiveId(db.warehouses, w) ==> Curable(db, w)
  {
    hide Curable;
    if AllCurable(db, ws) {
      forall w | ActiveId(db.warehouses, w) ensures Curable(db, w) {
        var row :| row in db.warehouses && row.isActive && row.id == w;
        assert row in ws;
      }
    }
    if forall w :: ActiveId(db.warehouses, w) ==> Curable(db, w) {
      forall i | 0 <= i < |ws| ensures Curable(db, ws[i].id) {
        assert ws[i] in ws;
        assert ActiveId(db.warehouses, ws[i].id);
      }
    }
  }

  // ----- whether the next report is clean

  /** What a row's raw availability becomes: a mismatched SKU's home row carries the active reservations instead. */
  function RawRepaired(db: Db, w: WarehouseId, i: nat): int
    requires i < |db.balances|
  {
    var b := db.balances[i];
    if Mismatch(db, w, b.sku) && GetBalance(db.balances, w, b.sku) == Some(i)
    then b.Raw() + b.reserved - ActiveSum(db.reservations, w, b.sku) else b.Raw()
  }

  /** Every mismatch at the warehouse can be cured, and no row of it is overdrawn once it is. */
  ghost predicate CleanAfterRepair(db: Db, w: WarehouseId) {
    && (forall k :: k in SkusAt(db.balances, w) && Mismatch(db, w, k) ==>
          HasHome(db.balances, w, k) && ReservedElsewhere(db.balances, w, k) == 0)
    && forall i :: 0 <= i < |db.balances| && db.balances[i].warehouse == w ==> 0 <= RawRepaired(db, w, i)
  }

  /** A reconciliation after a sync reports nothing exactly when the tables before the sync allow it. */
  lemma SyncThenCleanIff(db: Db, w: WarehouseId, order: seq<SkuId>, order': seq<SkuId>)
    requires Lists(order, SkusAt(db.balances, w)) && Lists(order', SkusAt(db.balances, w))
    ensures Reconcile(Sync(db, w, order, true).0, w, order') == [] <==> CleanAfterRepair(db, w)
  {
    hide Sync, Mismatch, Reconcile, SkusAt, SumOver;
    var after := Sync(db, w, order, true).0;
    SyncCures(db, w, order);
    SkusSame(db.balances, after.balances, w);
    VerdictIsExact(after, w, order');
    forall i | 0 <= i < |db.balances| && db.balances[i].warehouse == w
      ensures after.balances[i].warehouse == w && after.balances[i].Raw() == RawRepaired(db, w, i)
    {
      RowListed(db.balances, w, i);
    }
  }

  lemma RowListed(bs: seq<Balance>, w: WarehouseId, i: nat)
    requires i < |bs| && bs[i].warehouse == w
    ensures bs[i].sku in SkusAt(bs, w)
  {
    assert bs[i] in bs;
  }

  /** A healthy verdict does not mean a balanced network: when repair finds more units reserved than a row can
      bear, the verdict is still healthy and the next reconciliation complains. */
  lemma RepairMayOverdraw(db: Db, wh: Warehouse, b: Balance, k: SkuId)
    requires db.balances == [b] && b.IsHome(wh.id, k) && 0 <= b.Raw()
    requires b.Raw() + b.reserved < ActiveSum(db.reservations, wh.id, k)
    ensures
      var (after, found, repaired) := SyncAll(db, [wh], [[k]], true);
      && NetworkReport([], found, repaired).IsHealthy()
      && Reconcile(after, wh.id, [k]) != []
  {
    hide SyncAll, Reconcile;
    assert db.balances[0] == b;
    assert SkusAt(db.balances, wh.id) == {k};
    assert GetBalance(db.balances, wh.id, k) == Some(0);
    SumSingle(db.balances, 0, ReservedAt(wh.id, k));
    SyncAllCounts(db, [wh], [[k]]);
    OneWarehouse(db, wh, [k]);
    SyncCures(db, wh.id, [k]);
    var after := Sync(db, wh.id, [k], true).0;
    HomesStable(db.balances, after.balances);
    SumSingle(after.balances, 0, ReservedAt(wh.id, k));
    SkusSame(db.balances, after.balances, wh.id);
    VerdictIsExact(after, wh.id, [k]);
  }

  lemma OneWarehouse(db: Db, wh: Warehouse, order: seq<SkuId>)
    ensures SyncAll(db, [wh], [order], true).0 == Sync(db, wh.id, order, true).0
  {
    assert [wh][..0] == [] && [order][..0] == [];
  }
}
