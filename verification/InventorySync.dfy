/** Synchronisation of balances with the reservation table, warehouse by warehouse. */
module InventorySync {
  import opened Sums
  import opened Tables
  import opened Visibility
  import opened RedisCacheModel
  import opened Reconciliation
  import opened AllocationLaws

  datatype SyncResult = SyncResult(warehouse: WarehouseId, skusSynced: nat, found: nat, repaired: nat,
                                   cacheInvalidated: bool, errors: nat)

  datatype NetworkReport = NetworkReport(results: seq<SyncResult>, totalFound: nat, totalRepaired: nat)
  {
    predicate IsHealthy() { totalFound == 0 || totalRepaired == totalFound }
  }

  /** Attempts a repair for every mismatch in the list; counts the repairs and the missing home rows. */
  function RepairAll(db: Db, w: WarehouseId, report: seq<Discrepancy>): (Db, nat, nat)
    decreases |report|
  {
    if report == [] then (db, 0, 0)
    else
      var d := report[|report| - 1];
      var (mid, repaired, errors) := RepairAll(db, w, report[..|report| - 1]);
      if d.kind != ReservationMismatch then (mid, repaired, errors)
      else
        var (after, outcome) := Repair(mid, w, d.sku);
        (after,
         if outcome == Repaired then repaired + 1 else repaired,
         if outcome == NoHomeRow then errors + 1 else errors)
  }

  function Sync(db: Db, w: WarehouseId, order: seq<SkuId>, autoRepair: bool): (Db, nat, nat) {
    if autoRepair then RepairAll(db, w, Reconcile(db, w, order)) else (db, 0, 0)
  }

  function Found(db: Db, w: WarehouseId, order: seq<SkuId>): nat { |Reconcile(db, w, order)| }

  /** Each warehouse in turn; `orders` holds the iteration order used at each of them. */
  function SyncAll(db: Db, ws: seq<Warehouse>, orders: seq<seq<SkuId>>, autoRepair: bool): (Db, nat, nat)
    requires |orders| == |ws|
    decreases |ws|
  {
    if ws == [] then (db, 0, 0)
    else
      var m := |ws| - 1;
      var (mid, found, repaired) := SyncAll(db, ws[..m], orders[..m], autoRepair);
      var (after, fixed, errors) := Sync(mid, ws[m].id, orders[m], autoRepair);
      (after, found + Found(mid, ws[m].id, orders[m]), repaired + fixed)
  }

  /** A sync drops the warehouse's inventory entries and every network entry. */
  function Invalidated(store: Store, w: WarehouseId): Store {
    store - (InventoryPattern(store, w) + NetworkPattern(store))
  }

  /** What a sync of one warehouse reports. */
  function ResultAt(db: Db, w: WarehouseId, order: seq<SkuId>, autoRepair: bool, cached: bool): SyncResult {
    var (after, repaired, errors) := Sync(db, w, order, autoRepair);
    SyncResult(w, |SkusAt(db.balances, w)|, Found(db, w, order), repaired, cached, errors)
  }

  /** The per-warehouse results, each on the tables its predecessors left. */
  function ResultsOf(db: Db, ws: seq<Warehouse>, orders: seq<seq<SkuId>>, autoRepair: bool, cached: bool)
    : seq<SyncResult>
    requires |orders| == |ws|
    decreases |ws|
  {
    if ws == [] then []
    else
      var m := |ws| - 1;
      ResultsOf(db, ws[..m], orders[..m], autoRepair, cached)
        + [ResultAt(SyncAll(db, ws[..m], orders[..m], autoRepair).0, ws[m].id, orders[m], autoRepair, cached)]
  }

  function InvalidatedAll(store: Store, ws: seq<Warehouse>): Store
    decreases |ws|
  {
    if ws == [] then store else Invalidated(InvalidatedAll(store, ws[..|ws| - 1]), ws[|ws| - 1].id)
  }

  /** Repairs rewrite counters; they never add, drop or re-key a row. */
  lemma {:induction false} RepairAllKeepsKeys(db: Db, w: WarehouseId, report: seq<Discrepancy>)
    ensures SameKeys(db.balances, RepairAll(db, w, report).0.balances)
    decreases |report|
  {
    if report != [] {
      RepairAllKeepsKeys(db, w, report[..|report| - 1]);
    }
  }

  lemma SkusSame(before: seq<Balance>, after: seq<Balance>, w: WarehouseId)
    requires SameKeys(before, after)
    ensures SkusAt(before, w) == SkusAt(after, w)
  {
    forall k | k in SkusAt(before, w) ensures k in SkusAt(after, w) {
      var i :| 0 <= i < |before| && before[i].warehouse == w && before[i].sku == k;
      assert after[i] in after;
    }
    forall k | k in SkusAt(after, w) ensures k in SkusAt(before, w) {
      var i :| 0 <= i < |after| && after[i].warehouse == w && after[i].sku == k;
      assert before[i] in before;
    }
  }

  class InventorySyncService {
    const session: Session
    const cache: RedisCache?
    const reconciler: InventoryReconciler

    constructor (session: Session, cache: RedisCache?)
      ensures this.session == session && this.cache == cache && reconciler.session == session
    {
      this.session := session;
      this.cache := cache;
      this.reconciler := new InventoryReconciler(session);
    }

    method RepairFound(w: WarehouseId, found: seq<Discrepancy>) returns (repaired: nat, errors: nat)
      requires reconciler.session == session
      modifies session
      ensures (session.View(), repaired, errors) == RepairAll(old(session.View()), w, found)
    {
      hide Repair;
      ghost var before := session.View();
      repaired, errors := 0, 0;
      for i := 0 to |found|
        invariant (session.View(), repaired, errors) == RepairAll(before, w, found[..i])
      {
        assert found[..i + 1][..i] == found[..i];
        if found[i].kind == ReservationMismatch {
          var outcome := reconciler.AutoRepairReservationMismatch(w, found[i].sku);
          if outcome == Repaired {
            repaired := repaired + 1;
          } else if outcome == NoHomeRow {
            errors := errors + 1;
          }
        }
      }
      assert found[..|found|] == found;
    }

    method InvalidateCache(w: WarehouseId) returns (invalidated: bool)
      modifies cache
      ensures invalidated <==> cache != null
      ensures cache != null ==> cache.store == Invalidated(old(cache.store), w)
      ensures cache != null ==>
                forall key :: key in cache.store <==>
                  key in old(cache.store) && !key.NetworkKey? && !(key.InventoryKey? && key.warehouse == w)
    {
      invalidated := false;
      if cache != null {
        var count := cache.InvalidateAll(InventoryPattern(cache.store, w));
        var other := cache.InvalidateAll(NetworkPattern(cache.store));
        invalidated := count >= 0;
      }
    }

    method SyncWarehouse(w: WarehouseId, autoRepair: bool) returns (result: SyncResult, order: seq<SkuId>)
      requires reconciler.session == session
      modifies session, cache
      ensures Lists(order, SkusAt(old(session.balances), w))
      ensures session.View() == Sync(old(session.View()), w, order, autoRepair).0
      ensures result == ResultAt(old(session.View()), w, order, autoRepair, cache != null)
      ensures cache != null ==> cache.store == Invalidated(old(cache.store), w)
    {
      hide RepairAll, Reconcile;
      var report;
      report, order := reconciler.ReconcileWarehouse(w);
      var repaired: nat, errors: nat := 0, 0;
      if autoRepair {
        repaired, errors := RepairFound(w, report.discrepancies);
      }
      var invalidated := InvalidateCache(w);
      result := SyncResult(w, report.skusChecked, |report.discrepancies|, repaired, invalidated, errors);
    }

    method SyncNetwork(autoRepair: bool) returns (report: NetworkReport, orders: seq<seq<SkuId>>)
      requires reconciler.session == session
      modifies session, cache
      ensures |orders| == |ListActive(old(session.warehouses))|
      ensures forall i :: 0 <= i < |orders| ==>
                Lists(orders[i], SkusAt(old(session.balances), ListActive(old(session.warehouses))[i].id))
      ensures (session.View(), report.totalFound, report.totalRepaired)
           == SyncAll(old(session.View()), ListActive(old(session.warehouses)), orders, autoRepair)
      ensures report.results ==
              ResultsOf(old(session.View()), ListActive(old(session.warehouses)), orders, autoRepair, cache != null)
      ensures cache != null ==> cache.store == InvalidatedAll(old(cache.store), ListActive(old(session.warehouses)))
    {
      hide Sync, Found, SkusAt, RepairAll, Invalidated, ResultAt, SyncAll, ResultsOf, InvalidatedAll, SameKeys,
           ListActive;
      ghost var before := session.View();
      var ws := ListActive(session.warehouses);
      report := NetworkReport([], 0, 0);
      orders := [];
      NothingSynced(before, autoRepair, cache != null);
      for n := 0 to |ws|
        invariant |orders| == n
        invariant SameKeys(before.balances, session.balances)
        invariant forall i :: 0 <= i < n ==> Lists(orders[i], SkusAt(before.balances, ws[i].id))
        invariant (session.View(), report.totalFound, report.totalRepaired) ==
                  SyncAll(before, ws[..n], orders, autoRepair)
        invariant report.results == ResultsOf(before, ws[..n], orders, autoRepair, cache != null)
        invariant cache != null ==> cache.store == InvalidatedAll(old(cache.store), ws[..n])
      {
        ghost var reached := session.View();
        assert ws[..n + 1] == ws[..n] + [ws[n]];
        SkusSame(before.balances, session.balances, ws[n].id);
        var result, order := SyncWarehouse(ws[n].id, autoRepair);
        SyncKeepsKeys(reached, ws[n].id, order, autoRepair);
        KeysTransitive(before.balances, reached.balances, session.balances);
        SyncSnoc(before, ws, n, orders, order, autoRepair, cache != null);
        ResultCounts(reached, ws[n].id, order, autoRepair, cache != null);
        orders := orders + [order];
        report := NetworkReport(report.results + [result], report.totalFound + result.found,
                                report.totalRepaired + result.repaired);
      }
      assert ws[..|ws|] == ws;
    }
  }

  lemma NothingSynced(db: Db, autoRepair: bool, cached: bool)
    ensures SyncAll(db, [], [], autoRepair) == (db, 0, 0) && ResultsOf(db, [], [], autoRepair, cached) == []
    ensures SameKeys(db.balances, db.balances)
    ensures forall store :: InvalidatedAll(store, []) == store
  {
  }

  lemma KeysTransitive(a: seq<Balance>, b: seq<Balance>, c: seq<Balance>)
    requires SameKeys(a, b) && SameKeys(b, c)
    ensures SameKeys(a, c)
  {
  }

  lemma SyncKeepsKeys(db: Db, w: WarehouseId, order: seq<SkuId>, autoRepair: bool)
    ensures SameKeys(db.balances, Sync(db, w, order, autoRepair).0.balances)
  {
    RepairAllKeepsKeys(db, w, Reconcile(db, w, order));
  }

  lemma ResultCounts(db: Db, w: WarehouseId, order: seq<SkuId>, autoRepair: bool, cached: bool)
    ensures ResultAt(db, w, order, autoRepair, cached).found == Found(db, w, order)
    ensures ResultAt(db, w, order, autoRepair, cached).repaired == Sync(db, w, order, autoRepair).1
  {
  }

  lemma SyncSnoc(db: Db, ws: seq<Warehouse>, n: nat, orders: seq<seq<SkuId>>, order: seq<SkuId>, autoRepair: bool,
                 cached: bool)
    requires n < |ws| && |orders| == n
    ensures
      var (mid, found, repaired) := SyncAll(db, ws[..n], orders, autoRepair);
      var (after, fixed, errors) := Sync(mid, ws[n].id, order, autoRepair);
      && SyncAll(db, ws[..n + 1], orders + [order], autoRepair)
         == (after, found + Found(mid, ws[n].id, order), repaired + fixed)
      && ResultsOf(db, ws[..n + 1], orders + [order], autoRepair, cached)
         == ResultsOf(db, ws[..n], orders, autoRepair, cached) + [ResultAt(mid, ws[n].id, order, autoRepair, cached)]
    ensures forall store :: InvalidatedAll(store, ws[..n + 1]) == Invalidated(InvalidatedAll(store, ws[..n]), ws[n].id)
  {
    hide Sync, Found, ResultAt;
    assert ws[..n + 1][..n] == ws[..n];
    assert (orders + [order])[..n] == orders;
  }
}
