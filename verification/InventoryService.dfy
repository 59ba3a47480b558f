/** The inventory service: the ledger behind a cache of network visibility. */
module InventoryServiceModel {
  import opened Sums
  import opened Sorting
  import opened Tables
  import opened Visibility
  import opened RedisCacheModel
  import opened Allocation
  import opened AllocationLaws
  import opened Ledger
  import opened TransferLaws
  import opened Reconciliation
  import opened InventorySync
  import opened SyncLaws

  /** The store after `invalidate_inventory` for each warehouse an allocation drew on. */
  function InvalidateDraws(store: Store, draws: seq<Draw>, k: SkuId): Store
    decreases |draws|
  {
    if draws == [] then store
    else InvalidateDraws(store, draws[..|draws| - 1], k) - InventoryKeys(draws[|draws| - 1].warehouse, k)
  }

  function Adjust(db: Db, w: WarehouseId, k: SkuId, delta: int): Db {
    match GetBalance(db.balances, w, k)
    case Some(h) =>
      var b := db.balances[h];
      db.(balances := db.balances[h := b.(onHand := b.onHand + delta, version := b.version + 1)])
    case None =>
      db.(balances := db.balances + [Balance(w, k, None, Max(0, delta), 0, 0, 0, 0, 0, 1)])
  }

  class InventoryService {
    const session: Session
    const cache: RedisCache?
    const engine: AllocationEngine

    constructor (session: Session, cache: RedisCache?)
      ensures this.session == session && this.cache == cache && engine.session == session
    {
      this.session := session;
      this.cache := cache;
      this.engine := new AllocationEngine(session);
    }

    method AllocateForOrderLine(request: AllocationRequest, now: Time) returns (result: Result<AllocationResult>)
      requires engine.session == session
      modifies session, cache
      ensures (session.View(), result) == Allocate(old(session.View()), request, now)
      ensures cache != null ==>
                cache.store == (if result.Success?
                                then InvalidateDraws(old(cache.store), result.value.allocations, request.sku)
                                else old(cache.store))
    {
      hide Allocate;
      result := engine.AllocateStock(request, now);
      if result.Failure? || cache == null {
        return;
      }
      var draws := result.value.allocations;
      for i := 0 to |draws|
        invariant (session.View(), result) == Allocate(old(session.View()), request, now)
        invariant cache.store == InvalidateDraws(old(cache.store), draws[..i], request.sku)
      {
        assert draws[..i + 1][..i] == draws[..i];
        cache.InvalidateInventory(draws[i].warehouse, request.sku);
      }
      assert draws[..|draws|] == draws;
    }

    method GetNetworkVisibility(k: SkuId, useCache: bool) returns (lines: Entry)
      modifies cache
      ensures lines == if cache != null && useCache && NetworkKey(k) in old(cache.store)
                       then old(cache.store)[NetworkKey(k)] else NetworkVisibility(session.balances, k)
      ensures cache != null ==>
                cache.store == (if useCache && NetworkKey(k) in old(cache.store)
                                then old(cache.store) else old(cache.store)[NetworkKey(k) := lines])
    {
      if cache != null && useCache {
        var cached := cache.Get(NetworkKey(k));
        if cached.Some? {
          return cached.value;
        }
      }
      lines := NetworkVisibility(session.balances, k);
      if cache != null {
        cache.Put(NetworkKey(k), lines);
      }
    }

    method AdjustInventory(w: WarehouseId, k: SkuId, delta: int)
      modifies session, cache
      ensures session.View() == Adjust(old(session.View()), w, k, delta)
      ensures cache != null ==> cache.store == old(cache.store) - InventoryKeys(w, k)
    {
      var home := GetBalance(session.balances, w, k);
      if home.Some? {
        var b := session.balances[home.value];
        session.balances := session.balances[home.value := b.(onHand := b.onHand + delta, version := b.version + 1)];
      } else {
        session.balances := session.balances + [Balance(w, k, None, Max(0, delta), 0, 0, 0, 0, 0, 1)];
      }
      if cache != null {
        cache.InvalidateInventory(w, k);
      }
    }
  }

  // ----- the service as a state machine

  /** The tables and the cache the service works on. */
  datatype Served = Served(db: Db, store: Store)

  datatype ServiceStep =
    | ServeAllocation(request: AllocationRequest, now: Time)
    | ServeRead(sku: SkuId, useCache: bool)
    | ServeAdjustment(warehouse: WarehouseId, sku: SkuId, delta: int)
    | ServeSync(warehouse: WarehouseId, order: seq<SkuId>, autoRepair: bool)
    | Evict(key: CacheKey)

  function Read(s: Served, k: SkuId, useCache: bool): (Entry, Store) {
    if useCache && NetworkKey(k) in s.store then (s.store[NetworkKey(k)], s.store)
    else
      var lines := NetworkVisibility(s.db.balances, k);
      (lines, s.store[NetworkKey(k) := lines])
  }

  function ServeNext(s: Served, step: ServiceStep): Served {
    match step
    case ServeAllocation(request, now) =>
      var (after, result) := Allocate(s.db, request, now);
      Served(after,
             if result.Success? then InvalidateDraws(s.store, result.value.allocations, request.sku) else s.store)
    case ServeRead(k, useCache) => Served(s.db, Read(s, k, useCache).1)
    case ServeAdjustment(w, k, delta) => Served(Adjust(s.db, w, k, delta), s.store - InventoryKeys(w, k))
    case ServeSync(w, order, autoRepair) => Served(Sync(s.db, w, order, autoRepair).0, Invalidated(s.store, w))
    case Evict(key) => Served(s.db, s.store - {key})
  }

  function ServeRun(s: Served, steps: seq<ServiceStep>): Served
    decreases |steps|
  {
    if steps == [] then s else ServeNext(ServeRun(s, steps[..|steps| - 1]), steps[|steps| - 1])
  }

  /** Every cached network entry is what a recomputation would give. */
  ghost predicate Coherent(s: Served) {
    forall k :: NetworkKey(k) in s.store ==> s.store[NetworkKey(k)] == NetworkVisibility(s.db.balances, k)
  }

  /** Net availability on rows other than the home row. */
  function RawElsewhere(bs: seq<Balance>, w: WarehouseId, k: SkuId): int {
    match GetBalance(bs, w, k)
    case None => RawSum(bs, w, k)
    case Some(h) => RawSum(bs, w, k) - bs[h].Raw()
  }

  /** No stock is shown that the home rows do not hold, so allocation cannot raise half-way. */
  ghost predicate HomesHoldStock(db: Db) {
    && DistinctWarehouses(db.warehouses)
    && forall w, k :: RawElsewhere(db.balances, w, k) <= 0
  }

  lemma HomesHoldStockCoverable(db: Db, k: SkuId)
    requires HomesHoldStock(db)
    ensures Coverable(db, k)
  {
    hide SumOver, FindHome;
    forall w | ActiveId(db.warehouses, w) && 0 < AggregatedAvailable(db.balances, w, k)
      ensures HomeCovers(db.balances, w, k, AggregatedAvailable(db.balances, w, k))
    {
      assert RawElsewhere(db.balances, w, k) <= 0;
    }
  }

  /** Rewriting a home row's counters leaves the rest of its key alone. */
  lemma HomeRowRewritten(db: Db, after: Db, h: nat)
    requires HomesHoldStock(db) && after.warehouses == db.warehouses
    requires h < |db.balances| && GetBalance(db.balances, db.balances[h].warehouse, db.balances[h].sku) == Some(h)
    requires |after.balances| == |db.balances| && after.balances == db.balances[h := after.balances[h]]
    requires SameKeys(db.balances, after.balances)
    ensures HomesHoldStock(after)
  {
    hide SumOver, FindHome;
    RowMoved(db.balances, h, after.balances[h]);
    HomesStable(db.balances, after.balances);
    forall w, k ensures RawElsewhere(after.balances, w, k) <= 0 {
      assert RawElsewhere(db.balances, w, k) <= 0;
    }
  }

  lemma {:induction false} CommitHoldsStock(db: Db, request: AllocationRequest, now: Time, draws: seq<Draw>)
    requires HomesHoldStock(db)
    ensures HomesHoldStock(Commit(db, request, now, draws).0)
    decreases |draws|
  {
    hide HomesHoldStock, FindHome;
    if draws != [] {
      var (next, raised) := Take(db, request, now, draws[0]);
      if raised.None? {
        HomeRowRewritten(db, next, GetBalance(db.balances, draws[0].warehouse, request.sku).value);
        CommitHoldsStock(next, request, now, draws[1..]);
      } else {
        HoldsStockSame(db, next);
      }
    }
  }

  lemma HoldsStockSame(db: Db, after: Db)
    requires HomesHoldStock(db) && after.warehouses == db.warehouses && after.balances == db.balances
    ensures HomesHoldStock(after)
  {
  }

  lemma AdjustHoldsStock(db: Db, w: WarehouseId, k: SkuId, delta: int)
    requires HomesHoldStock(db)
    ensures HomesHoldStock(Adjust(db, w, k, delta))
  {
    hide SumOver, FindHome;
    match GetBalance(db.balances, w, k)
    case Some(h) => HomeRowRewritten(db, Adjust(db, w, k, delta), h);
    case None =>
      var row := Balance(w, k, None, Max(0, delta), 0, 0, 0, 0, 0, 1);
      forall w', k' ensures RawElsewhere(db.balances + [row], w', k') <= 0 {
        assert RawElsewhere(db.balances, w', k') <= 0;
        SumSnoc(db.balances, row, RawAt(w', k'));
        assert (db.balances + [row])[|db.balances|] == row;
        assert forall i :: 0 <= i < |db.balances| ==> (db.balances + [row])[i] == db.balances[i];
        HomeFoundAfterAppend(db.balances, row, w', k', 0);
      }
  }

  lemma {:induction false} RepairAllHoldsStock(db: Db, w: WarehouseId, report: seq<Discrepancy>)
    requires HomesHoldStock(db)
    ensures HomesHoldStock(RepairAll(db, w, report).0)
    decreases |report|
  {
    hide HomesHoldStock, FindHome, Mismatch, SkusAt;
    if report != [] {
      var mid := RepairAll(db, w, report[..|report| - 1]).0;
      var d := report[|report| - 1];
      RepairAllHoldsStock(db, w, report[..|report| - 1]);
      if d.kind == ReservationMismatch && Repair(mid, w, d.sku).1 == Repaired {
        HomeRowRewritten(mid, Repair(mid, w, d.sku).0, GetBalance(mid.balances, w, d.sku).value);
      }
    }
  }

  lemma ServeHoldsStock(s: Served, step: ServiceStep)
    requires HomesHoldStock(s.db)
    ensures HomesHoldStock(ServeNext(s, step).db)
  {
    hide HomesHoldStock, Commit, RepairAll, Adjust;
    match step
    case ServeAllocation(request, now) =>
      CommitHoldsStock(s.db, request, now, Draws(Rank(s.db, request), request.quantity, request.allowSplit));
    case ServeAdjustment(w, k, delta) => AdjustHoldsStock(s.db, w, k, delta);
    case ServeSync(w, order, _) => RepairAllHoldsStock(s.db, w, Reconcile(s.db, w, order));
    case _ =>
  }

  // ----- what one step does to the rows, the lines and the cache

  /** An adjustment changes what stands at one warehouse by the delta; without a home row one is made, and a negative
      delta then counts as nothing. */
  lemma AdjustmentMoves(db: Db, w: WarehouseId, k: SkuId, delta: int)
    ensures
      var after := Adjust(db, w, k, delta);
      var change := if HasHome(db.balances, w, k) || 0 < delta then delta else 0;
      && UnitsMoved(db.balances, after.balances, k, w, change, w, 0) && HasHome(after.balances, w, k)
      && Stamped(db.balances, after.balances, GetBalance(db.balances, w, k))
      && after == db.(balances := after.balances)
  {
    hide SumOver, UnitsMoved;
    var bs, after := db.balances, Adjust(db, w, k, delta).balances;
    match GetBalance(bs, w, k)
    case None =>
      NewRowUnits(bs, w, k, Max(0, delta), w);
      assert after[|bs|].IsHome(w, k);
    case Some(h) =>
      RowUnits(bs, h, after[h]);
      assert after[h].IsHome(w, k);
  }

  lemma {:induction false} GroupsByKeys(before: seq<Balance>, after: seq<Balance>, k: SkuId)
    requires SameKeys(before, after)
    ensures Groups(before, k) == Groups(after, k)
    decreases |before|
  {
    if before != [] {
      GroupsByKeys(before[..|before| - 1], after[..|after| - 1], k);
    }
  }

  /** What is drawn from a warehouse is no more than it shows. */
  lemma DrawnWithin(db: Db, request: AllocationRequest, now: Time, w: WarehouseId)
    requires DistinctWarehouses(db.warehouses) && Allocate(db, request, now).1.Success?
    ensures
      var drawn := SumOver(Allocate(db, request, now).1.value.allocations, DrawnFrom(w));
      0 <= drawn <= AggregatedAvailable(db.balances, w, request.sku)
  {
    hide Rank, Draws, Commit, RawSum;
    AllocateMaximal(db, request, now);
    var draws := Allocate(db, request, now).1.value.allocations;
    if i :| 0 <= i < |draws| && draws[i].warehouse == w {
      forall j | 0 <= j < |draws| && j != i ensures DrawnFrom(w)(draws[j]) == 0 {
        assert if i < j then DrawKey()(draws[i]) != DrawKey()(draws[j]) else DrawKey()(draws[j]) != DrawKey()(draws[i]);
      }
      SumSingle(draws, i, DrawnFrom(w));
      assert draws[i] in draws;
    } else {
      SumZero(draws, DrawnFrom(w));
    }
  }

  /** After a successful allocation a read, cached or not, shows each warehouse as before, with the units drawn from it
      moved from available to reserved, exactly. */
  lemma AllocationShows(s: Served, request: AllocationRequest, now: Time, useCache: bool)
    requires DistinctWarehouses(s.db.warehouses) && Allocate(s.db, request, now).1.Success?
    ensures
      var draws := Allocate(s.db, request, now).1.value.allocations;
      var before := NetworkVisibility(s.db.balances, request.sku);
      var after := Read(ServeNext(s, ServeAllocation(request, now)), request.sku, useCache).0;
      && |after| == |before|
      && forall i :: 0 <= i < |before| ==>
           var drawn := SumOver(draws, DrawnFrom(before[i].warehouse));
           after[i] == VisibleStock(before[i].warehouse, before[i].onHand, before[i].reserved + drawn,
                                    before[i].available - drawn)
  {
    hide Rank, Draws, Commit, SumOver, Groups, InvalidateDraws;
    var draws := Allocate(s.db, request, now).1.value.allocations;
    var bs, after := s.db.balances, Allocate(s.db, request, now).0.balances;
    AllocateMaximal(s.db, request, now);
    assert draws != [] by {
      SumZero([], DrawQuantity());
    }
    DrawsInvalidate(s.store, draws, request.sku);
    AllocateEffect(s.db, request, now);
    GroupsByKeys(bs, after, request.sku);
    forall w
      ensures VisibleAt(after, request.sku, w) ==
              var line, drawn := VisibleAt(bs, request.sku, w), SumOver(draws, DrawnFrom(w));
              VisibleStock(w, line.onHand, line.reserved + drawn, line.available - drawn)
    {
      DrawnWithin(s.db, request, now, w);
      SumCongruence(bs, after, OnHandAt(w, request.sku), OnHandAt(w, request.sku));
    }
  }

  /** After a successful allocation exactly the entries of the warehouses drawn on, for its SKU, are gone. */
  lemma {:induction false} DrawsDrop(store: Store, draws: seq<Draw>, k: SkuId)
    ensures forall key :: key in InvalidateDraws(store, draws, k) <==>
              && key in store
              && (draws != [] ==> key != NetworkKey(k))
              && forall d :: d in draws ==> key != InventoryKey(d.warehouse, k) && key != SafetyStockKey(d.warehouse, k)
    decreases |draws|
  {
    if draws != [] {
      var m := |draws| - 1;
      assert draws == draws[..m] + [draws[m]];
      DrawsDrop(store, draws[..m], k);
    }
  }

  // ----- coherence

  lemma {:induction false} DrawsInvalidate(store: Store, draws: seq<Draw>, k: SkuId)
    ensures forall key :: key in InvalidateDraws(store, draws, k) ==>
              key in store && InvalidateDraws(store, draws, k)[key] == store[key]
    ensures draws != [] ==> NetworkKey(k) !in InvalidateDraws(store, draws, k)
    decreases |draws|
  {
    if draws != [] {
      DrawsInvalidate(store, draws[..|draws| - 1], k);
    }
  }

  /** One table change: coherent afterwards if the SKUs it touches are no longer cached. */
  lemma CoherentAfter(s: Served, after: Db, store: Store, touched: set<SkuId>)
    requires Coherent(s)
    requires forall key :: key in store ==> key in s.store && store[key] == s.store[key]
    requires forall k :: k in touched ==> NetworkKey(k) !in store
    requires forall k :: k !in touched ==> NetworkVisibility(after.balances, k) == NetworkVisibility(s.db.balances, k)
    ensures Coherent(Served(after, store))
  {
  }

  lemma OthersVisible(before: seq<Balance>, after: seq<Balance>, k: SkuId)
    requires OnlyReservedMoved(before, after, k)
    ensures forall k' :: k' != k ==> NetworkVisibility(after, k') == NetworkVisibility(before, k')
  {
    forall k' | k' != k ensures NetworkVisibility(after, k') == NetworkVisibility(before, k') {
      VisibilitySame(before, after, k');
    }
  }

  // ----- an allocation that raises half-way

  /** Written draws only add to the reserved units; the first, if its home row covers it, adds some. */
  lemma {:induction false} ReservedOnlyGrows(db: Db, request: AllocationRequest, now: Time, draws: seq<Draw>,
                                             w: WarehouseId)
    requires forall d :: d in draws ==> 0 < d.quantity
    ensures
      var after := Commit(db, request, now, draws).0;
      && ReservedSum(db.balances, w, request.sku) <= ReservedSum(after.balances, w, request.sku)
      && (draws != [] && w == draws[0].warehouse && HomeCovers(db.balances, w, request.sku, draws[0].quantity) ==>
            ReservedSum(db.balances, w, request.sku) < ReservedSum(after.balances, w, request.sku))
      && (draws != [] && !HomeCovers(db.balances, draws[0].warehouse, request.sku, draws[0].quantity) ==>
            after.balances == db.balances)
    decreases |draws|
  {
    if draws != [] {
      assert draws[0] in draws;
      var (next, raised) := Take(db, request, now, draws[0]);
      if raised.None? {
        TakeEffect(db, request, now, draws[0]);
        SumCons([draws[0]], DrawnFrom(w));
        ReservedOnlyGrows(next, request, now, draws[1..], w);
      }
    }
  }

  lemma VisibleReserved(bs: seq<Balance>, after: seq<Balance>, w: WarehouseId, k: SkuId)
    requires Stocks(bs, w, k) && ReservedSum(bs, w, k) != ReservedSum(after, w, k)
    ensures NetworkVisibility(bs, k) != NetworkVisibility(after, k)
  {
    VisibilityLists(bs, k);
    VisibilityLists(after, k);
    assert Shows(NetworkVisibility(bs, k), w);
    var i :| 0 <= i < |NetworkVisibility(bs, k)| && NetworkVisibility(bs, k)[i].warehouse == w;
  }

  /** A raise half-way has changed what a read of the SKU must show, and only that. */
  lemma StopEffect(db: Db, request: AllocationRequest, now: Time)
    requires DistinctWarehouses(db.warehouses) && Stops(db.balances, request.sku, DrawsOf(db, request))
    ensures
      var after := Allocate(db, request, now).0;
      && (forall k :: k != request.sku ==> NetworkVisibility(after.balances, k) == NetworkVisibility(db.balances, k))
      && (NetworkVisibility(after.balances, request.sku) == NetworkVisibility(db.balances, request.sku) <==>
            !StopsHalfWay(db, request))
  {
    hide NetworkVisibility, Rank, Draws, Stops, SumOver;
    var draws := DrawsOf(db, request);
    PositiveDraws(Rank(db, request), request.quantity, request.allowSplit);
    AllocateStopsIff(db, request, now);
    CommitEffect(db, request, now, draws);
    var after := Allocate(db, request, now).0;
    OthersVisible(db.balances, after.balances, request.sku);
    if draws != [] {
      var w := draws[0].warehouse;
      ReservedOnlyGrows(db, request, now, draws, w);
      if HomeCovers(db.balances, w, request.sku, draws[0].quantity) {
        assert db.balances[GetBalance(db.balances, w, request.sku).value].At(w, request.sku);
        VisibleReserved(db.balances, after.balances, w, request.sku);
      }
    }
  }

  /** A failed allocation skips the invalidation. Whatever the outcome, the cache is right afterwards exactly unless
      the SKU is cached and the first draw is written before a later one raises. */
  lemma FailedAllocationCoherentIff(s: Served, request: AllocationRequest, now: Time)
    requires Coherent(s) && DistinctWarehouses(s.db.warehouses)
    ensures Coherent(ServeNext(s, ServeAllocation(request, now))) <==>
            !(NetworkKey(request.sku) in s.store && StopsHalfWay(s.db, request))
  {
    hide NetworkVisibility, Commit, Rank, Draws, Stops, HomeCovers, Unfillable;
    var (after, result) := Allocate(s.db, request, now);
    AllocateRaisesExactly(s.db, request, now);
    if result.Success? {
      CommitEffect(s.db, request, now, DrawsOf(s.db, request));
      DrawsInvalidate(s.store, DrawsOf(s.db, request), request.sku);
      OthersVisible(s.db.balances, after.balances, request.sku);
      CoherentAfter(s, after, InvalidateDraws(s.store, DrawsOf(s.db, request), request.sku), {request.sku});
    } else if !Unfillable(s.db, request) {
      StopEffect(s.db, request, now);
    }
  }

  /** One such input: five units at the home row of one warehouse, five on a location row of another, ten asked for.
      The five of the first are reserved, the second raises, and the cached entry still shows them available. */
  lemma StaleAfterRaise()
    ensures
      var db := Db([Warehouse(1, true, 1), Warehouse(2, true, 1)],
                   [Balance(1, 0, None, 5, 0, 0, 0, 0, 0, 1), Balance(2, 0, Some(7), 5, 0, 0, 0, 0, 0, 1)], [], []);
      var s := Served(db, map[NetworkKey(0) := NetworkVisibility(db.balances, 0)]);
      && Coherent(s)
      && !Coherent(ServeNext(s, ServeAllocation(AllocationRequest(0, 0, 0, 10, Some(1), true), 0)))
  {
    hide NetworkVisibility, Rank, Allocate;
    var db := Db([Warehouse(1, true, 1), Warehouse(2, true, 1)],
                 [Balance(1, 0, None, 5, 0, 0, 0, 0, 0, 1), Balance(2, 0, Some(7), 5, 0, 0, 0, 0, 0, 1)], [], []);
    var s := Served(db, map[NetworkKey(0) := NetworkVisibility(db.balances, 0)]);
    TwoWarehousesDraw(db, AllocationRequest(0, 0, 0, 10, Some(1), true));
    FailedAllocationCoherentIff(s, AllocationRequest(0, 0, 0, 10, Some(1), true), 0);
  }

  lemma TwoListed(ws: seq<Warehouse>)
    requires ws == [Warehouse(1, true, 1), Warehouse(2, true, 1)]
    ensures ListActive(ws) == ws && DistinctWarehouses(ws)
    ensures forall w :: w in {1, 2} ==> ActiveId(ws, w)
  {
    assert ws[..1] == [ws[0]] && ws[..1][..0] == [] && ws[1..] == [ws[1]] && ws[1..][1..] == [];
    assert ActiveOnly(ws[..1]) == [ws[0]];
    assert ActiveOnly(ws) == ws;
    assert Sort(ws[1..], ByPriority()) == [ws[1]];
    assert ws[0] in ws && ws[1] in ws;
  }

  lemma TwoStocked(bs: seq<Balance>)
    requires bs == [Balance(1, 0, None, 5, 0, 0, 0, 0, 0, 1), Balance(2, 0, Some(7), 5, 0, 0, 0, 0, 0, 1)]
    ensures AggregatedAvailable(bs, 1, 0) == 5 && AggregatedAvailable(bs, 2, 0) == 5
    ensures HomeCovers(bs, 1, 0, 5) && !HomeCovers(bs, 2, 0, 5)
  {
    assert bs[..1][..0] == [];
    forall w ensures SumOver(bs, RawAt(w, 0)) == (if w == 1 then 5 else 0) + (if w == 2 then 5 else 0) {
      assert SumOver(bs[..1], RawAt(w, 0)) == if w == 1 then 5 else 0;
    }
  }

  lemma TwoWarehousesDraw(db: Db, request: AllocationRequest)
    requires db.warehouses == [Warehouse(1, true, 1), Warehouse(2, true, 1)]
    requires db.balances == [Balance(1, 0, None, 5, 0, 0, 0, 0, 0, 1), Balance(2, 0, Some(7), 5, 0, 0, 0, 0, 0, 1)]
    requires request == AllocationRequest(0, 0, 0, 10, Some(1), true)
    ensures DistinctWarehouses(db.warehouses) && StopsHalfWay(db, request) && TotalAvailable(db, 0) == 10
  {
    hide Rank, Draws, AggregatedAvailable, ListActive, DistinctWarehouses, HomeCovers;
    var ws, available := db.warehouses, AvailableAt(db.balances, 0);
    TwoListed(ws);
    TwoStocked(db.balances);
    assert ws[..1][..0] == [] && SumOver(ws[..1], available) == 5;
    assert TotalAvailable(db, 0) == 10;
    RankFaithful(db, request);
    PreferredDrawnFirst(db, request, 0);
    DrawsDrain(Rank(db, request), 10);
    var s :| s in Rank(db, request) && s.warehouse == 2;
    assert Draw(2, 5) in DrawsOf(db, request);
    var i :| 0 <= i < |DrawsOf(db, request)| && DrawsOf(db, request)[i] == Draw(2, 5);
  }

  lemma AdjustmentCoherent(s: Served, w: WarehouseId, k: SkuId, delta: int)
    requires Coherent(s)
    ensures Coherent(ServeNext(s, ServeAdjustment(w, k, delta)))
  {
    hide NetworkVisibility, FindHome;
    var after := Adjust(s.db, w, k, delta);
    forall k' | k' != k ensures NetworkVisibility(after.balances, k') == NetworkVisibility(s.db.balances, k') {
      if HasHome(s.db.balances, w, k) {
        VisibilitySame(s.db.balances, after.balances, k');
      } else {
        VisibilityIgnoresNewRow(s.db.balances, Balance(w, k, None, Max(0, delta), 0, 0, 0, 0, 0, 1), k');
      }
    }
    CoherentAfter(s, after, s.store - InventoryKeys(w, k), {k});
  }

  /** The one way a step of the service can leave a cached entry wrong. */
  ghost predicate GoesStale(s: Served, step: ServiceStep) {
    step.ServeAllocation? && NetworkKey(step.request.sku) in s.store && StopsHalfWay(s.db, step.request)
  }

  /** From a coherent state a step leads to a coherent one exactly unless it is an allocation of a cached SKU that
      stops half-way. */
  lemma ServeCoherent(s: Served, step: ServiceStep)
    requires Coherent(s) && DistinctWarehouses(s.db.warehouses)
    ensures Coherent(ServeNext(s, step)) <==> !GoesStale(s, step)
  {
    hide NetworkVisibility, Sync, StopsHalfWay, Allocate, DistinctBy;
    match step
    case ServeAllocation(request, now) => FailedAllocationCoherentIff(s, request, now);
    case ServeAdjustment(w, k, delta) => AdjustmentCoherent(s, w, k, delta);
    case _ =>
  }

  lemma {:induction false} RepairAllWarehouses(db: Db, w: WarehouseId, report: seq<Discrepancy>)
    ensures RepairAll(db, w, report).0.warehouses == db.warehouses
    decreases |report|
  {
    if report != [] {
      RepairAllWarehouses(db, w, report[..|report| - 1]);
    }
  }

  lemma ServeKeepsWarehouses(s: Served, step: ServiceStep)
    ensures ServeNext(s, step).db.warehouses == s.db.warehouses
  {
    hide Commit, RepairAll, Adjust, Draws, Rank;
    match step
    case ServeAllocation(request, now) => CommitEffect(s.db, request, now, DrawsOf(s.db, request));
    case ServeAdjustment(w, k, delta) => AdjustKeepsWarehouses(s.db, w, k, delta);
    case ServeSync(w, order, _) => RepairAllWarehouses(s.db, w, Reconcile(s.db, w, order));
    case _ =>
  }

  lemma AdjustKeepsWarehouses(db: Db, w: WarehouseId, k: SkuId, delta: int)
    ensures Adjust(db, w, k, delta).warehouses == db.warehouses
  {
  }

  /** No step of the run is an allocation of a cached SKU that stops half-way. */
  ghost predicate NeverGoesStale(s: Served, steps: seq<ServiceStep>) {
    forall i :: 0 <= i < |steps| ==> !GoesStale(ServeRun(s, steps[..i]), steps[i])
  }

  /** The cache theorem: over every run of the service without such a step, entries expiring at any moment, a cached
      read and an uncached read return the same lines. */
  lemma {:induction false} CachedReadsAreFresh(s: Served, steps: seq<ServiceStep>, k: SkuId)
    requires Coherent(s) && DistinctWarehouses(s.db.warehouses) && NeverGoesStale(s, steps)
    ensures
      var reached := ServeRun(s, steps);
      && Coherent(reached) && reached.db.warehouses == s.db.warehouses
      && Read(reached, k, true).0 == Read(reached, k, false).0 == NetworkVisibility(reached.db.balances, k)
    decreases |steps|
  {
    hide DistinctBy, NetworkVisibility, ServeNext, GoesStale;
    if steps != [] {
      var m := |steps| - 1;
      var front := ServeRun(s, steps[..m]);
      forall i | 0 <= i < m ensures !GoesStale(ServeRun(s, steps[..m][..i]), steps[..m][i]) {
        assert steps[..m][..i] == steps[..i];
      }
      CachedReadsAreFresh(s, steps[..m], k);
      ServeKeepsWarehouses(front, steps[m]);
      ServeCoherent(front, steps[m]);
    }
  }

  /** When home rows hold all stock that is shown, no run whatever goes stale. */
  lemma {:induction false} HomeStockNeverStale(s: Served, steps: seq<ServiceStep>)
    requires HomesHoldStock(s.db)
    ensures HomesHoldStock(ServeRun(s, steps).db) && NeverGoesStale(s, steps)
    decreases |steps|
  {
    hide HomesHoldStock, ServeNext, GoesStale;
    if steps != [] {
      var m := |steps| - 1;
      HomeStockNeverStale(s, steps[..m]);
      HomeStockStepFresh(ServeRun(s, steps[..m]), steps[m]);
      ServeHoldsStock(ServeRun(s, steps[..m]), steps[m]);
      forall i | 0 <= i < |steps| ensures !GoesStale(ServeRun(s, steps[..i]), steps[i]) {
        if i < m {
          assert steps[..m][..i] == steps[..i] && steps[..m][i] == steps[i];
        }
      }
    }
  }

  lemma HomeStockStepFresh(s: Served, step: ServiceStep)
    requires HomesHoldStock(s.db)
    ensures !GoesStale(s, step)
  {
    if step.ServeAllocation? {
      HomesHoldStockCoverable(s.db, step.request.sku);
      CoverableNeverStops(s.db, step.request);
    }
  }

  /** The engines under the service do not know the cache: a release made through them keeps the cache right exactly
      when the reservation's SKU is not cached. */
  lemma ReleaseBehindTheCacheGoesStale(s: Served, id: nat)
    requires Coherent(s) && Inv(s.db)
    requires id < |s.db.reservations| && s.db.reservations[id].status == Active
    ensures Coherent(Served(ReleaseSingle(s.db, id), s.store)) <==> NetworkKey(s.db.reservations[id].sku) !in s.store
  {
    hide NetworkVisibility, SumOver;
    var r := s.db.reservations[id];
    ActiveCovered(s.db, id);
    var h := GetBalance(s.db.balances, r.warehouse, r.sku).value;
    var after := ReleaseSingle(s.db, id).balances;
    assert s.db.balances[h].At(r.warehouse, r.sku);
    assert 0 < r.quantity;
    RowMoved(s.db.balances, h, ReleaseRow(s.db.balances[h], r));
    VisibleReserved(s.db.balances, after, r.warehouse, r.sku);
    OthersVisible(s.db.balances, after, r.sku);
  }
}
