/** The inventory ledger as a state machine: what every public operation keeps, over whole runs. */
module Ledger {
  import opened Sums
  import opened Tables
  import opened Allocation
  import opened AllocationLaws
  import opened Reservations
  import opened Transfers

  // ----- the invariant

  /** Rows at a storage location carry no reserved, moving or available units. */
  ghost predicate LocationsIdle(bs: seq<Balance>) {
    forall i :: 0 <= i < |bs| && bs[i].location.Some? ==>
      bs[i].reserved == 0 && bs[i].inTransit == 0 && bs[i].Raw() == 0
  }

  ghost predicate RawNonNegative(bs: seq<Balance>) {
    forall i :: 0 <= i < |bs| ==> 0 <= bs[i].Raw()
  }

  /** The `reserved` counters and the reservation table tell the same story. */
  ghost predicate Accounted(db: Db) {
    forall w, k :: ReservedSum(db.balances, w, k) == ActiveSum(db.reservations, w, k)
  }

  ghost predicate ReservationsSound(db: Db) {
    forall i :: 0 <= i < |db.reservations| ==>
      var r := db.reservations[i];
      0 < r.quantity && (r.status != Released ==> HasHome(db.balances, r.warehouse, r.sku))
  }

  ghost predicate TransferSound(bs: seq<Balance>, t: Transfer) {
    && t.source != t.destination && 0 < t.quantity && HasHome(bs, t.source, t.sku)
    && match t.status {
         case Pending | Picking => t.received == 0
         case Shipped | InTransit => t.received == 0 && t.shipped == t.quantity
         case Received => 0 <= t.received <= t.quantity
       }
  }

  ghost predicate TransfersSound(db: Db) {
    forall i :: 0 <= i < |db.transfers| ==> TransferSound(db.balances, db.transfers[i])
  }

  function OutstandingFrom(w: WarehouseId, k: SkuId): Transfer -> int {
    (t: Transfer) => if t.source == w && t.sku == k then t.quantity - t.received else 0
  }

  /** Units sent from a warehouse and not received anywhere yet. */
  function OutstandingSum(ts: seq<Transfer>, w: WarehouseId, k: SkuId): int { SumOver(ts, OutstandingFrom(w, k)) }

  function UnitsOf(k: SkuId): Balance -> int {
    (b: Balance) => if b.sku == k then b.onHand + b.inTransit else 0
  }

  /** Units of a SKU in the whole network, standing or moving. */
  function NetworkTotal(bs: seq<Balance>, k: SkuId): int { SumOver(bs, UnitsOf(k)) }

  ghost predicate TransitCovered(db: Db) {
    forall w, k :: OutstandingSum(db.transfers, w, k) <= InTransitSum(db.balances, w, k)
  }

  ghost predicate Inv(db: Db) {
    && DistinctWarehouses(db.warehouses)
    && UniqueHomes(db.balances)
    && LocationsIdle(db.balances)
    && RawNonNegative(db.balances)
    && Accounted(db)
    && ReservationsSound(db)
    && TransfersSound(db)
    && TransitCovered(db)
  }

  /** What no operation may change: allocated stock beyond the confirmed reservations, stock in transit beyond
      the outstanding transfers, and the units of each SKU in the network. */
  ghost predicate Conserves(before: Db, after: Db) {
    && (forall w, k :: AllocatedSum(after.balances, w, k) - ConfirmedSum(after.reservations, w, k)
                       == AllocatedSum(before.balances, w, k) - ConfirmedSum(before.reservations, w, k))
    && (forall w, k :: InTransitSum(after.balances, w, k) - OutstandingSum(after.transfers, w, k)
                       == InTransitSum(before.balances, w, k) - OutstandingSum(before.transfers, w, k))
    && (forall k :: NetworkTotal(after.balances, k) == NetworkTotal(before.balances, k))
  }

  // ----- one row at a time

  /** How replacing one row moves every sum. */
  lemma RowMoved(bs: seq<Balance>, h: nat, row: Balance)
    requires h < |bs|
    requires row.warehouse == bs[h].warehouse && row.sku == bs[h].sku && row.location == bs[h].location
    ensures SameKeys(bs, bs[h := row])
    ensures forall w, k :: ReservedSum(bs[h := row], w, k)
              == ReservedSum(bs, w, k) + (if row.At(w, k) then row.reserved - bs[h].reserved else 0)
    ensures forall w, k :: AllocatedSum(bs[h := row], w, k)
              == AllocatedSum(bs, w, k) + (if row.At(w, k) then row.allocatedQty - bs[h].allocatedQty else 0)
    ensures forall w, k :: InTransitSum(bs[h := row], w, k)
              == InTransitSum(bs, w, k) + (if row.At(w, k) then row.inTransit - bs[h].inTransit else 0)
    ensures forall w, k :: RawSum(bs[h := row], w, k)
              == RawSum(bs, w, k) + (if row.At(w, k) then row.Raw() - bs[h].Raw() else 0)
    ensures forall k :: NetworkTotal(bs[h := row], k)
              == NetworkTotal(bs, k)
                 + (if row.sku == k then row.onHand + row.inTransit - bs[h].onHand - bs[h].inTransit else 0)
  {
    hide SumOver;
    forall w, k {
      SumUpdate(bs, h, row, ReservedAt(w, k));
    }
    forall w, k {
      SumUpdate(bs, h, row, AllocatedAt(w, k));
    }
    forall w, k {
      SumUpdate(bs, h, row, InTransitAt(w, k));
    }
    forall w, k {
      SumUpdate(bs, h, row, RawAt(w, k));
    }
    forall k {
      SumUpdate(bs, h, row, UnitsOf(k));
    }
  }

  /** With one home row per key and idle locations, the home row is the whole of each sum. */
  lemma HomeIsAll(bs: seq<Balance>, w: WarehouseId, k: SkuId)
    requires UniqueHomes(bs) && LocationsIdle(bs)
    ensures match GetBalance(bs, w, k)
            case None => ReservedSum(bs, w, k) == 0 && InTransitSum(bs, w, k) == 0 && RawSum(bs, w, k) == 0
            case Some(h) => && ReservedSum(bs, w, k) == bs[h].reserved && InTransitSum(bs, w, k) == bs[h].inTransit
                            && RawSum(bs, w, k) == bs[h].Raw()
  {
    hide SumOver;
    match GetBalance(bs, w, k)
    case None =>
      SumZero(bs, ReservedAt(w, k));
      SumZero(bs, InTransitAt(w, k));
      SumZero(bs, RawAt(w, k));
    case Some(h) =>
      SumSingle(bs, h, ReservedAt(w, k));
      SumSingle(bs, h, InTransitAt(w, k));
      SumSingle(bs, h, RawAt(w, k));
  }

  /** In an invariant state no allocation can raise from inside its loop. */
  lemma InvCoverable(db: Db, k: SkuId)
    requires Inv(db)
    ensures Coverable(db, k)
  {
    forall w | ActiveId(db.warehouses, w) && 0 < AggregatedAvailable(db.balances, w, k)
      ensures HomeCovers(db.balances, w, k, AggregatedAvailable(db.balances, w, k))
    {
      HomeIsAll(db.balances, w, k);
    }
  }

  /** An active reservation is covered by the `reserved` counter of its home row. */
  lemma ActiveCovered(db: Db, id: nat)
    requires Inv(db) && id < |db.reservations| && db.reservations[id].status == Active
    ensures
      var r := db.reservations[id];
      var home := GetBalance(db.balances, r.warehouse, r.sku);
      home.Some? && r.quantity <= db.balances[home.value].reserved
  {
    var r := db.reservations[id];
    HomeIsAll(db.balances, r.warehouse, r.sku);
    forall x | x in db.reservations ensures 0 <= QuantityIn(r.warehouse, r.sku, Active)(x) {
      var i :| 0 <= i < |db.reservations| && db.reservations[i] == x;
      assert 0 < db.reservations[i].quantity;
    }
    SumCoversElement(db.reservations, id, QuantityIn(r.warehouse, r.sku, Active));
  }

  /** Changing one reservation's status moves its quantity from one sum to the other. */
  lemma StatusMoved(rs: seq<Reservation>, id: nat, status: ReservationStatus)
    requires id < |rs|
    ensures forall w, k :: ActiveSum(rs[id := rs[id].(status := status)], w, k)
              == ActiveSum(rs, w, k) + (if rs[id].warehouse == w && rs[id].sku == k
                   then (if status == Active then rs[id].quantity else 0)
                        - (if rs[id].status == Active then rs[id].quantity else 0)
                   else 0)
    ensures forall w, k :: ConfirmedSum(rs[id := rs[id].(status := status)], w, k)
              == ConfirmedSum(rs, w, k) + (if rs[id].warehouse == w && rs[id].sku == k
                   then (if status == Confirmed then rs[id].quantity else 0)
                        - (if rs[id].status == Confirmed then rs[id].quantity else 0)
                   else 0)
  {
    hide SumOver;
    forall w, k {
      SumUpdate(rs, id, rs[id].(status := status), QuantityIn(w, k, Active));
    }
    forall w, k {
      SumUpdate(rs, id, rs[id].(status := status), QuantityIn(w, k, Confirmed));
    }
  }

  ghost predicate OffsetsKept(before: Db, after: Db) {
    && (forall w, k :: AllocatedSum(after.balances, w, k) - ConfirmedSum(after.reservations, w, k)
                       == AllocatedSum(before.balances, w, k) - ConfirmedSum(before.reservations, w, k))
    && (forall w, k :: InTransitSum(after.balances, w, k) - OutstandingSum(after.transfers, w, k)
                       == InTransitSum(before.balances, w, k) - OutstandingSum(before.transfers, w, k))
  }

  ghost predicate RowsSound(bs: seq<Balance>, rs: seq<Reservation>, ts: seq<Transfer>) {
    && (forall i :: 0 <= i < |rs| ==>
        0 < rs[i].quantity && (rs[i].status != Released ==> HasHome(bs, rs[i].warehouse, rs[i].sku)))
    && (forall i :: 0 <= i < |ts| ==> TransferSound(bs, ts[i]))
  }

  /** One home row rewritten, together with reservation and transfer rows that move the same units. */
  lemma HomeStep(db: Db, h: nat, row: Balance, rs: seq<Reservation>, ts: seq<Transfer>)
    requires Inv(db) && h < |db.balances| && db.balances[h].location.None?
    requires row.warehouse == db.balances[h].warehouse && row.sku == db.balances[h].sku && row.location.None?
    requires 0 <= row.Raw()
    requires RowsSound(db.balances, rs, ts)
    requires forall w, k :: ActiveSum(rs, w, k)
               == ActiveSum(db.reservations, w, k)
                  + (if row.At(w, k) then row.reserved - db.balances[h].reserved else 0)
    requires forall w, k :: ConfirmedSum(rs, w, k)
               == ConfirmedSum(db.reservations, w, k)
                  + (if row.At(w, k) then row.allocatedQty - db.balances[h].allocatedQty else 0)
    requires forall w, k :: OutstandingSum(ts, w, k)
               == OutstandingSum(db.transfers, w, k)
                  + (if row.At(w, k) then row.inTransit - db.balances[h].inTransit else 0)
    ensures
      var after := db.(balances := db.balances[h := row], reservations := rs, transfers := ts);
      && Inv(after)
      && OffsetsKept(db, after)
      && (forall k :: NetworkTotal(after.balances, k) == NetworkTotal(db.balances, k)
            + (if row.sku == k
               then row.onHand + row.inTransit - db.balances[h].onHand - db.balances[h].inTransit
               else 0))
  {
    hide SumOver, GetBalance;
    RowMoved(db.balances, h, row);
    HomesStable(db.balances, db.balances[h := row]);
  }

  lemma ReleaseKeeps(db: Db, id: nat)
    requires Inv(db) && id < |db.reservations| && db.reservations[id].status == Active
    ensures Inv(ReleaseSingle(db, id)) && Conserves(db, ReleaseSingle(db, id))
  {
    hide SumOver;
    var r := db.reservations[id];
    ActiveCovered(db, id);
    StatusMoved(db.reservations, id, Released);
    var h := GetBalance(db.balances, r.warehouse, r.sku).value;
    HomeStep(db, h, ReleaseRow(db.balances[h], r), db.reservations[id := r.(status := Released)], db.transfers);
  }

  lemma ConfirmKeeps(db: Db, id: nat, now: Time)
    requires Inv(db)
    ensures Inv(ConfirmAllocation(db, id, now).0) && Conserves(db, ConfirmAllocation(db, id, now).0)
  {
    hide SumOver;
    if id < |db.reservations| && db.reservations[id].status == Active {
      var r := db.reservations[id];
      if r.expiresAt < now {
        ReleaseKeeps(db, id);
      } else {
        ActiveCovered(db, id);
        StatusMoved(db.reservations, id, Confirmed);
        var h := GetBalance(db.balances, r.warehouse, r.sku).value;
        HomeStep(db, h, ConfirmRow(db.balances[h], r), db.reservations[id := r.(status := Confirmed)], db.transfers);
      }
    }
  }

  lemma TakeKeeps(db: Db, request: AllocationRequest, now: Time, d: Draw)
    requires Inv(db) && 0 < d.quantity && Take(db, request, now, d).1.None?
    ensures Inv(Take(db, request, now, d).0) && Conserves(db, Take(db, request, now, d).0)
  {
    hide SumOver;
    var h := GetBalance(db.balances, d.warehouse, request.sku).value;
    var b := db.balances[h];
    var r := NewReservation(request, now, d);
    forall w, k {
      SumSnoc(db.reservations, r, QuantityIn(w, k, Active));
    }
    forall w, k {
      SumSnoc(db.reservations, r, QuantityIn(w, k, Confirmed));
    }
    HomeStep(db, h, b.(reserved := b.reserved + d.quantity, version := b.version + 1), db.reservations + [r],
             db.transfers);
  }

  lemma {:induction false} CommitKeeps(db: Db, request: AllocationRequest, now: Time, draws: seq<Draw>)
    requires Inv(db) && Commit(db, request, now, draws).1.None?
    requires forall d :: d in draws ==> 0 < d.quantity
    ensures Inv(Commit(db, request, now, draws).0) && Conserves(db, Commit(db, request, now, draws).0)
    decreases |draws|
  {
    hide Inv, Conserves, Take;
    if draws == [] {
      ConservesNothing(db);
    } else {
      var next := Take(db, request, now, draws[0]).0;
      TakeKeeps(db, request, now, draws[0]);
      CommitKeeps(next, request, now, draws[1..]);
      ConservesTransitive(db, next, Commit(db, request, now, draws).0);
    }
  }

  lemma ConservesNothing(db: Db)
    ensures Conserves(db, db)
  {
  }

  lemma ConservesTransitive(a: Db, b: Db, c: Db)
    requires Conserves(a, b) && Conserves(b, c)
    ensures Conserves(a, c)
  {
    hide SumOver;
  }

  lemma AllocateKeeps(db: Db, request: AllocationRequest, now: Time)
    requires Inv(db)
    ensures Inv(Allocate(db, request, now).0) && Conserves(db, Allocate(db, request, now).0)
    ensures Allocate(db, request, now).1.Failure? ==> !Allocate(db, request, now).1.error.MidLoop()
  {
    var draws := Draws(Rank(db, request), request.quantity, request.allowSplit);
    InvCoverable(db, request.sku);
    CoverableCommits(db, request, now);
    PositiveDraws(Rank(db, request), request.quantity, request.allowSplit);
    CommitKeeps(db, request, now, draws);
  }

  ghost predicate ActiveIds(rs: seq<Reservation>, ids: seq<nat>) {
    && (forall j :: 0 <= j < |ids| ==> ids[j] < |rs| && rs[ids[j]].status == Active)
    && (forall a, b :: 0 <= a < b < |ids| ==> ids[a] != ids[b])
  }

  /** Only the listed reservations change, and they change only by being released. */
  ghost predicate OnlyReleased(before: seq<Reservation>, after: seq<Reservation>, ids: seq<nat>) {
    && |after| == |before|
    && forall i: nat :: i < |before| ==>
         after[i] == if i in ids then before[i].(status := Released) else before[i]
  }

  lemma {:induction false} ReleaseManyFates(db: Db, ids: seq<nat>)
    requires ActiveIds(db.reservations, ids)
    ensures OnlyReleased(db.reservations, ReleaseMany(db, ids).reservations, ids)
    decreases |ids|
  {
    if ids != [] {
      var m := |ids| - 1;
      ReleaseManyFates(db, ids[..m]);
      assert ids == ids[..m] + [ids[m]];
    }
  }

  lemma {:induction false} ReleaseManyKeeps(db: Db, ids: seq<nat>)
    requires Inv(db) && ActiveIds(db.reservations, ids)
    ensures Inv(ReleaseMany(db, ids)) && Conserves(db, ReleaseMany(db, ids))
    decreases |ids|
  {
    hide Inv, Conserves;
    if ids == [] {
      ConservesNothing(db);
    } else {
      var m := |ids| - 1;
      ReleaseManyKeeps(db, ids[..m]);
      ReleaseManyFates(db, ids[..m]);
      assert ids[m] !in ids[..m];
      ReleaseKeeps(ReleaseMany(db, ids[..m]), ids[m]);
      ConservesTransitive(db, ReleaseMany(db, ids[..m]), ReleaseMany(db, ids));
    }
  }

  /** The reservations whose turn comes after they have lapsed. */
  function LapsedAt(rs: seq<Reservation>, ids: seq<nat>, clock: nat -> Time, w: WarehouseId, k: SkuId): int
    requires forall j :: 0 <= j < |ids| ==> ids[j] < |rs|
    decreases |ids|
  {
    if ids == [] then 0
    else
      var m := |ids| - 1;
      var r := rs[ids[m]];
      LapsedAt(rs, ids[..m], clock, w, k)
        + (if r.warehouse == w && r.sku == k && r.expiresAt < clock(m) then r.quantity else 0)
  }

  function UnexpiredCount(rs: seq<Reservation>, ids: seq<nat>, clock: nat -> Time): nat
    requires forall j :: 0 <= j < |ids| ==> ids[j] < |rs|
    decreases |ids|
  {
    if ids == [] then 0
    else
      var m := |ids| - 1;
      UnexpiredCount(rs, ids[..m], clock) + (if rs[ids[m]].expiresAt < clock(m) then 0 else 1)
  }

  function Fate(r: Reservation, now: Time): Reservation {
    r.(status := if r.expiresAt < now then Released else Confirmed)
  }

  /** Confirming keeps availability; a reservation that has lapsed gives its units back. */
  lemma ConfirmMoves(db: Db, id: nat, now: Time)
    requires Inv(db) && id < |db.reservations| && db.reservations[id].status == Active
    ensures
      var (after, outcome) := ConfirmAllocation(db, id, now);
      var r := db.reservations[id];
      && outcome == (if r.expiresAt < now then Lapsed else Done)
      && after.reservations == db.reservations[id := Fate(r, now)]
      && (forall w, k :: RawSum(after.balances, w, k) == RawSum(db.balances, w, k)
            + (if r.warehouse == w && r.sku == k && r.expiresAt < now then r.quantity else 0))
  {
    hide SumOver;
    var r := db.reservations[id];
    ActiveCovered(db, id);
    var h := GetBalance(db.balances, r.warehouse, r.sku).value;
    RowMoved(db.balances, h, ReleaseRow(db.balances[h], r));
    RowMoved(db.balances, h, ConfirmRow(db.balances[h], r));
  }

  /** What one confirmation does to the reservation table, whatever the balances say. */
  lemma ConfirmFate(db: Db, id: nat, now: Time)
    requires id < |db.reservations| && db.reservations[id].status == Active
    ensures ConfirmAllocation(db, id, now).0.reservations == db.reservations[id := Fate(db.reservations[id], now)]
    ensures ConfirmAllocation(db, id, now).1 == (if db.reservations[id].expiresAt < now then Lapsed else Done)
  {
    hide GetBalance;
  }

  /** What bulk confirmation does to each reservation, listed or not. */
  lemma {:induction false} ConfirmManyFates(db: Db, ids: seq<nat>, clock: nat -> Time)
    requires ActiveIds(db.reservations, ids)
    ensures
      var after := ConfirmMany(db, ids, clock).0;
      && |after.reservations| == |db.reservations|
      && (forall j :: 0 <= j < |ids| ==> after.reservations[ids[j]] == Fate(db.reservations[ids[j]], clock(j)))
      && (forall i: nat :: i < |db.reservations| && i !in ids ==> after.reservations[i] == db.reservations[i])
    decreases |ids|
  {
    hide ConfirmAllocation, Fate;
    if ids != [] {
      var m := |ids| - 1;
      var front := ids[..m];
      ConfirmManyFates(db, front, clock);
      assert ids[m] !in front;
      assert ids == front + [ids[m]];
      ConfirmFate(ConfirmMany(db, front, clock).0, ids[m], clock(m));
      var mid, after := ConfirmMany(db, front, clock).0.reservations, ConfirmMany(db, ids, clock).0.reservations;
      assert after == mid[ids[m] := Fate(db.reservations[ids[m]], clock(m))];
      hide ConfirmMany, ActiveIds;
      forall j | 0 <= j < |ids| ensures after[ids[j]] == Fate(db.reservations[ids[j]], clock(j)) {
        if j < m {
          assert ids[j] == front[j] && ids[j] in front;
        }
      }
    }
  }

  /** Bulk confirmation keeps the ledger in order, counts the unexpired, and gives back what has lapsed. */
  lemma {:induction false} ConfirmManyKeeps(db: Db, ids: seq<nat>, clock: nat -> Time)
    requires Inv(db) && ActiveIds(db.reservations, ids)
    ensures
      var (after, confirmed) := ConfirmMany(db, ids, clock);
      && Inv(after) && Conserves(db, after)
      && confirmed == UnexpiredCount(db.reservations, ids, clock)
      && (forall w, k :: RawSum(after.balances, w, k)
                         == RawSum(db.balances, w, k) + LapsedAt(db.reservations, ids, clock, w, k))
    decreases |ids|
  {
    hide Inv, Conserves, ConfirmAllocation, RawSum;
    if ids == [] {
      ConservesNothing(db);
    } else {
      var m := |ids| - 1;
      var mid := ConfirmMany(db, ids[..m], clock).0;
      ConfirmManyKeeps(db, ids[..m], clock);
      ConfirmManyFates(db, ids[..m], clock);
      assert ids[m] !in ids[..m];
      ConfirmKeeps(mid, ids[m], clock(m));
      ConfirmMoves(mid, ids[m], clock(m));
      ConservesTransitive(db, mid, ConfirmMany(db, ids, clock).0);
    }
  }

  /** Bulk confirmation counts the reservations unexpired at their turn, whatever the balances say. */
  lemma {:induction false} ConfirmManyCounts(db: Db, ids: seq<nat>, clock: nat -> Time)
    requires ActiveIds(db.reservations, ids)
    ensures ConfirmMany(db, ids, clock).1 == UnexpiredCount(db.reservations, ids, clock)
    decreases |ids|
  {
    hide ConfirmAllocation;
    if ids != [] {
      var m := |ids| - 1;
      ConfirmManyCounts(db, ids[..m], clock);
      ConfirmManyFates(db, ids[..m], clock);
      assert ids[m] !in ids[..m];
      ConfirmFate(ConfirmMany(db, ids[..m], clock).0, ids[m], clock(m));
    }
  }

  /** `confirm_all_for_order` leaves nothing of the order active and counts exactly the reservations unexpired at their
      turn, whatever state the tables are in. */
  lemma ConfirmAllSettles(db: Db, order: OrderId, clock: nat -> Time)
    ensures
      var ids := ActiveForOrder(db.reservations, order);
      var (after, confirmed) := ConfirmAll(db, order, clock);
      && (forall i :: 0 <= i < |after.reservations| && after.reservations[i].order == order ==>
            after.reservations[i].status != Active)
      && confirmed == UnexpiredCount(db.reservations, ids, clock)
  {
    hide ConfirmMany;
    var ids := ActiveForOrder(db.reservations, order);
    ConfirmManyCounts(db, ids, clock);
    ConfirmManyFates(db, ids, clock);
    var after := ConfirmAll(db, order, clock).0;
    forall i: nat | i < |after.reservations| && after.reservations[i].order == order
      ensures after.reservations[i].status != Active
    {
      if i in ids {
        var j :| 0 <= j < |ids| && ids[j] == i;
      } else {
        assert !ActiveOf(order)(db.reservations[i]);
      }
    }
  }

  /** In an invariant state it changes availability only by what has lapsed: confirmed units stay out of it. */
  lemma ConfirmAllFreesLapsed(db: Db, order: OrderId, clock: nat -> Time)
    requires Inv(db)
    ensures
      var ids := ActiveForOrder(db.reservations, order);
      forall w, k :: RawSum(ConfirmAll(db, order, clock).0.balances, w, k)
                     == RawSum(db.balances, w, k) + LapsedAt(db.reservations, ids, clock, w, k)
  {
    hide Inv, ConfirmMany, RawSum;
    ConfirmManyKeeps(db, ActiveForOrder(db.reservations, order), clock);
  }

  /** The clamp in a release is never reached: the counter falls by exactly the reserved quantity. */
  lemma ReleaseNeverClamps(db: Db, id: nat)
    requires Inv(db) && id < |db.reservations| && db.reservations[id].status == Active
    ensures
      var r := db.reservations[id];
      var home := GetBalance(db.balances, r.warehouse, r.sku);
      && home.Some?
      && ReleaseSingle(db, id).balances[home.value].reserved == db.balances[home.value].reserved - r.quantity
  {
    ActiveCovered(db, id);
  }

  // ----- transfers

  /** A receipt that is not refused must not receive more than was shipped. */
  predicate Receivable(db: Db, id: nat, quantity: Option<int>) {
    id < |db.transfers| && Receive(db, id, quantity).1 == Moved ==>
      0 <= ReceivedQuantity(db.transfers[id], quantity) <= db.transfers[id].shipped
  }

  lemma OutstandingMoved(ts: seq<Transfer>, id: nat, t: Transfer)
    requires id < |ts| && t.source == ts[id].source && t.sku == ts[id].sku
    ensures forall w, k ::
              OutstandingSum(ts[id := t], w, k) == OutstandingSum(ts, w, k)
                + (if t.source == w && t.sku == k then t.quantity - t.received - (ts[id].quantity - ts[id].received)
                   else 0)
  {
    hide SumOver;
    forall w, k {
      SumUpdate(ts, id, t, OutstandingFrom(w, k));
    }
  }

  lemma InitiateKeeps(db: Db, source: WarehouseId, destination: WarehouseId, k: SkuId, q: int)
    requires Inv(db) && 0 < q
    ensures
      var after := Initiate(db, source, destination, k, q).0;
      Inv(after) && Conserves(db, after)
  {
    hide SumOver;
    if source != destination && q <= AggregatedAvailable(db.balances, source, k) {
      HomeIsAll(db.balances, source, k);
      var h := GetBalance(db.balances, source, k).value;
      var t := Transfer(source, destination, k, q, 0, 0, Pending);
      forall w, s {
        SumSnoc(db.transfers, t, OutstandingFrom(w, s));
      }
      HomeStep(db, h, InitiateRow(db.balances[h], q), db.reservations, db.transfers + [t]);
    }
  }

  lemma ShipKeeps(db: Db, id: nat)
    requires Inv(db)
    ensures Inv(Ship(db, id).0) && Conserves(db, Ship(db, id).0)
  {
    hide SumOver;
    if Ship(db, id).1 == Moved {
      OutstandingMoved(db.transfers, id, db.transfers[id].(status := Shipped, shipped := db.transfers[id].quantity));
    }
  }

  /** A shipped transfer is covered by the `in_transit` counter of its source's home row. */
  lemma TransferCovered(db: Db, id: nat)
    requires Inv(db) && id < |db.transfers|
    ensures
      var t := db.transfers[id];
      var home := GetBalance(db.balances, t.source, t.sku);
      home.Some? && t.quantity - t.received <= db.balances[home.value].inTransit
  {
    var t := db.transfers[id];
    assert TransferSound(db.balances, t);
    HomeIsAll(db.balances, t.source, t.sku);
    forall x | x in db.transfers ensures 0 <= OutstandingFrom(t.source, t.sku)(x) {
      var i :| 0 <= i < |db.transfers| && db.transfers[i] == x;
      assert TransferSound(db.balances, db.transfers[i]);
    }
    SumCoversElement(db.transfers, id, OutstandingFrom(t.source, t.sku));
  }

  /** The first half of a receipt: the units leave the source's `in_transit`. */
  lemma DebitKeeps(db: Db, id: nat, quantity: Option<int>)
    requires Inv(db) && Receivable(db, id, quantity) && Receive(db, id, quantity).1 == Moved
    ensures
      var t := db.transfers[id];
      var q := ReceivedQuantity(t, quantity);
      var mid := db.(transfers := db.transfers[id := t.(received := q, status := TransferStatus.Received)],
                     balances := DebitSource(db.balances, t, q));
      && Inv(mid) && OffsetsKept(db, mid)
      && (forall k :: NetworkTotal(mid.balances, k) == NetworkTotal(db.balances, k) - (if k == t.sku then q else 0))
  {
    hide SumOver;
    var t := db.transfers[id];
    var q := ReceivedQuantity(t, quantity);
    assert TransferSound(db.balances, t);
    TransferCovered(db, id);
    OutstandingMoved(db.transfers, id, t.(received := q, status := TransferStatus.Received));
    var h := GetBalance(db.balances, t.source, t.sku).value;
    HomeStep(db, h, db.balances[h].(inTransit := db.balances[h].inTransit - q), db.reservations,
             db.transfers[id := t.(received := q, status := TransferStatus.Received)]);
  }

  lemma {:induction false} HomeFoundAfterAppend(bs: seq<Balance>, row: Balance, w: WarehouseId, k: SkuId, from: nat)
    requires from <= |bs|
    ensures FindHome(bs, w, k, from).Some? ==> FindHome(bs + [row], w, k, from) == FindHome(bs, w, k, from)
    decreases |bs| - from
  {
    if from < |bs| {
      HomeFoundAfterAppend(bs, row, w, k, from + 1);
    }
  }

  /** A destination without a home row gets one, holding the units received. */
  lemma NewRowKeeps(db: Db, row: Balance)
    requires Inv(db) && row.location.None? && !HasHome(db.balances, row.warehouse, row.sku)
    requires 0 <= row.Raw() && row.reserved == 0 && row.allocatedQty == 0 && row.inTransit == 0
    ensures
      var after := db.(balances := db.balances + [row]);
      && Inv(after) && OffsetsKept(db, after)
      && (forall k :: NetworkTotal(after.balances, k)
                      == NetworkTotal(db.balances, k) + (if row.sku == k then row.onHand else 0))
  {
    hide SumOver, FindHome;
    forall w, k {
      SumSnoc(db.balances, row, ReservedAt(w, k));
    }
    forall w, k {
      SumSnoc(db.balances, row, AllocatedAt(w, k));
    }
    forall w, k {
      SumSnoc(db.balances, row, InTransitAt(w, k));
    }
    forall k {
      SumSnoc(db.balances, row, UnitsOf(k));
    }
    forall w, k {
      HomeFoundAfterAppend(db.balances, row, w, k, 0);
    }
  }

  /** The second half of a receipt: the units arrive at the destination. */
  lemma CreditKeeps(db: Db, t: Transfer, q: int)
    requires Inv(db) && 0 <= q
    ensures
      var after := db.(balances := CreditDestination(db.balances, t, q));
      && Inv(after) && OffsetsKept(db, after)
      && (forall k :: NetworkTotal(after.balances, k) == NetworkTotal(db.balances, k) + (if k == t.sku then q else 0))
  {
    hide SumOver;
    match GetBalance(db.balances, t.destination, t.sku)
    case None => NewRowKeeps(db, NewBalance(t.destination, t.sku, q));
    case Some(h) =>
      var b := db.balances[h];
      HomeStep(db, h, b.(onHand := b.onHand + q, version := b.version + 1), db.reservations, db.transfers);
  }

  lemma ReceiveKeeps(db: Db, id: nat, quantity: Option<int>)
    requires Inv(db) && Receivable(db, id, quantity)
    ensures
      var after := Receive(db, id, quantity).0;
      Inv(after) && Conserves(db, after)
  {
    if Receive(db, id, quantity).1 == Moved {
      var t := db.transfers[id];
      var q := ReceivedQuantity(t, quantity);
      var mid := db.(transfers := db.transfers[id := t.(received := q, status := TransferStatus.Received)],
                     balances := DebitSource(db.balances, t, q));
      DebitKeeps(db, id, quantity);
      CreditKeeps(mid, t, q);
    }
  }

  /** Exactly when a receipt keeps the network's units: the source must still show as many in transit; a source without
      a home row is debited nothing, so the receipt must be of nothing. */
  lemma ReceiptConservesIff(db: Db, id: nat, quantity: Option<int>)
    requires Receive(db, id, quantity).1 == Moved
    ensures
      var t := db.transfers[id];
      NetworkTotal(Receive(db, id, quantity).0.balances, t.sku) == NetworkTotal(db.balances, t.sku) <==>
      match GetBalance(db.balances, t.source, t.sku)
      case None => ReceivedQuantity(t, quantity) == 0
      case Some(h) => ReceivedQuantity(t, quantity) <= db.balances[h].inTransit
  {
    hide SumOver;
    var t := db.transfers[id];
    var q := ReceivedQuantity(t, quantity);
    if HasHome(db.balances, t.source, t.sku) {
      var h := GetBalance(db.balances, t.source, t.sku).value;
      RowMoved(db.balances, h, db.balances[h].(inTransit := Max(0, db.balances[h].inTransit - q)));
    }
    var mid := DebitSource(db.balances, t, q);
    match GetBalance(mid, t.destination, t.sku)
    case None => SumSnoc(mid, NewBalance(t.destination, t.sku, q), UnitsOf(t.sku));
    case Some(d) => RowMoved(mid, d, mid[d].(onHand := mid[d].onHand + q, version := mid[d].version + 1));
  }

  // ----- runs

  datatype Step =
    | Allocating(request: AllocationRequest, now: Time)
    | Confirming(reservation: nat, now: Time)
    | Releasing(order: OrderId)
    | Expiring(now: Time)
    | ConfirmingAll(order: OrderId, clock: nat -> Time)
    | Extending(reservation: nat, minutes: int, now: Time)
    | Initiating(source: WarehouseId, destination: WarehouseId, sku: SkuId, quantity: int)
    | Shipping(transfer: nat)
    | Receiving(transfer: nat, received: Option<int>)

  function Next(db: Db, step: Step): Db {
    match step
    case Allocating(request, now) => Allocate(db, request, now).0
    case Confirming(id, now) => ConfirmAllocation(db, id, now).0
    case Releasing(order) => ReleaseMany(db, ActiveForOrder(db.reservations, order))
    case Expiring(now) => ProcessExpired(db, now)
    case ConfirmingAll(order, clock) => ConfirmAll(db, order, clock).0
    case Extending(id, minutes, now) => Extend(db, id, minutes, now).0
    case Initiating(source, destination, k, q) => Initiate(db, source, destination, k, q).0
    case Shipping(id) => Ship(db, id).0
    case Receiving(id, quantity) => Receive(db, id, quantity).0
  }

  predicate Admissible(db: Db, step: Step) {
    match step
    case Initiating(_, _, _, q) => 0 < q
    case Receiving(id, quantity) => Receivable(db, id, quantity)
    case _ => true
  }

  function Run(db: Db, steps: seq<Step>): Db
    decreases |steps|
  {
    if steps == [] then db else Next(Run(db, steps[..|steps| - 1]), steps[|steps| - 1])
  }

  ghost predicate AdmissibleRun(db: Db, steps: seq<Step>) {
    forall i :: 0 <= i < |steps| ==> Admissible(Run(db, steps[..i]), steps[i])
  }

  lemma ExtendKeeps(db: Db, id: nat, minutes: int, now: Time)
    requires Inv(db)
    ensures Inv(Extend(db, id, minutes, now).0) && Conserves(db, Extend(db, id, minutes, now).0)
  {
    hide SumOver;
    var after := Extend(db, id, minutes, now).0;
    forall w, k {
      SumCongruence(db.reservations, after.reservations, QuantityIn(w, k, Active), QuantityIn(w, k, Active));
    }
    forall w, k {
      SumCongruence(db.reservations, after.reservations, QuantityIn(w, k, Confirmed), QuantityIn(w, k, Confirmed));
    }
  }

  /** Every admissible step keeps the invariant and conserves the stock. */
  lemma NextKeeps(db: Db, step: Step)
    requires Inv(db) && Admissible(db, step)
    ensures Inv(Next(db, step)) && Conserves(db, Next(db, step))
  {
    hide Inv, Conserves, Allocate, ConfirmAllocation, ReleaseMany, ConfirmMany, Extend, Initiate, Ship, Receive;
    match step
    case Allocating(request, now) => AllocateKeeps(db, request, now);
    case Confirming(id, now) => ConfirmKeeps(db, id, now);
    case Releasing(order) => ReleaseManyKeeps(db, ActiveForOrder(db.reservations, order));
    case Expiring(now) => ReleaseManyKeeps(db, Expired(db.reservations, now));
    case ConfirmingAll(order, clock) => ConfirmManyKeeps(db, ActiveForOrder(db.reservations, order), clock);
    case Extending(id, minutes, now) => ExtendKeeps(db, id, minutes, now);
    case Initiating(source, destination, k, q) => InitiateKeeps(db, source, destination, k, q);
    case Shipping(id) => ShipKeeps(db, id);
    case Receiving(id, quantity) => ReceiveKeeps(db, id, quantity);
  }

  /** The ledger theorem: over every run the two records of reserved stock agree, availability never goes
      negative, and the allocated, moving and total units are accounted for. */
  lemma {:induction false} RunKeeps(db: Db, steps: seq<Step>)
    requires Inv(db) && AdmissibleRun(db, steps)
    ensures Inv(Run(db, steps)) && Conserves(db, Run(db, steps))
    decreases |steps|
  {
    hide Inv, Conserves, Next;
    if steps == [] {
      ConservesNothing(db);
    } else {
      var m := |steps| - 1;
      forall i | 0 <= i < m ensures Admissible(Run(db, steps[..m][..i]), steps[..m][i]) {
        assert steps[..m][..i] == steps[..i];
        assert Admissible(Run(db, steps[..i]), steps[i]);
      }
      RunKeeps(db, steps[..m]);
      NextKeeps(Run(db, steps[..m]), steps[m]);
      ConservesTransitive(db, Run(db, steps[..m]), Run(db, steps));
    }
  }

  // ----- histories

  /** Rows are never dropped, keep their identity, and leave their open states at most once. */
  ghost predicate Advances(before: Db, after: Db) {
    && |before.reservations| <= |after.reservations|
    && |before.transfers| <= |after.transfers|
    && (forall i :: 0 <= i < |before.reservations| ==>
          var r, r' := before.reservations[i], after.reservations[i];
          && r' == r.(status := r'.status, expiresAt := r'.expiresAt)
          && (r.status != Active ==> r' == r))
    && (forall i :: 0 <= i < |before.transfers| ==>
          var t, t' := before.transfers[i], after.transfers[i];
          && t' == t.(status := t'.status, shipped := t'.shipped, received := t'.received)
          && (t.status == TransferStatus.Received ==> t' == t))
  }

  lemma ConfirmAdvances(db: Db, id: nat, now: Time)
    ensures Advances(db, ConfirmAllocation(db, id, now).0)
  {
  }

  lemma {:induction false} ConfirmManyAdvances(db: Db, ids: seq<nat>, clock: nat -> Time)
    ensures Advances(db, ConfirmMany(db, ids, clock).0)
    decreases |ids|
  {
    hide ConfirmAllocation;
    if ids != [] {
      var m := |ids| - 1;
      ConfirmManyAdvances(db, ids[..m], clock);
      ConfirmAdvances(ConfirmMany(db, ids[..m], clock).0, ids[m], clock(m));
    }
  }

  lemma {:induction false} ReleaseManyTransfers(db: Db, ids: seq<nat>)
    requires forall j :: 0 <= j < |ids| ==> ids[j] < |db.reservations|
    ensures ReleaseMany(db, ids).transfers == db.transfers
    decreases |ids|
  {
    if ids != [] {
      ReleaseManyTransfers(db, ids[..|ids| - 1]);
    }
  }

  lemma {:induction false} CommitAppends(db: Db, request: AllocationRequest, now: Time, draws: seq<Draw>)
    ensures db.reservations <= Commit(db, request, now, draws).0.reservations
    ensures Commit(db, request, now, draws).0.transfers == db.transfers
    decreases |draws|
  {
    if draws != [] {
      CommitAppends(Take(db, request, now, draws[0]).0, request, now, draws[1..]);
    }
  }

  lemma NextAdvances(db: Db, step: Step)
    ensures Advances(db, Next(db, step))
  {
    hide ConfirmAllocation, ReleaseMany, ConfirmMany, Allocate, Advances;
    match step
    case Allocating(request, now) => AllocateAdvances(db, request, now);
    case Confirming(id, now) => ConfirmAdvances(db, id, now);
    case Releasing(order) => ReleaseAdvances(db, ActiveForOrder(db.reservations, order));
    case Expiring(now) => ReleaseAdvances(db, Expired(db.reservations, now));
    case ConfirmingAll(order, clock) => ConfirmManyAdvances(db, ActiveForOrder(db.reservations, order), clock);
    case Extending(id, minutes, now) => ExtendAdvances(db, id, minutes, now);
    case _ => TransferAdvances(db, step);
  }

  lemma AllocateAdvances(db: Db, request: AllocationRequest, now: Time)
    ensures Advances(db, Allocate(db, request, now).0)
  {
    hide Rank, Draws, Commit;
    CommitAppends(db, request, now, Draws(Rank(db, request), request.quantity, request.allowSplit));
  }

  lemma ReleaseAdvances(db: Db, ids: seq<nat>)
    requires ActiveIds(db.reservations, ids)
    ensures Advances(db, ReleaseMany(db, ids))
  {
    hide ReleaseMany;
    ReleaseManyFates(db, ids);
    ReleaseManyTransfers(db, ids);
  }

  lemma ExtendAdvances(db: Db, id: nat, minutes: int, now: Time)
    ensures Advances(db, Extend(db, id, minutes, now).0)
  {
  }

  lemma TransferAdvances(db: Db, step: Step)
    requires step.Initiating? || step.Shipping? || step.Receiving?
    ensures Advances(db, Next(db, step))
  {
    hide GetBalance;
  }

  /** Over every run, whatever the steps: a settled reservation and a received transfer stay as they are,
      so no transfer is received twice. */
  lemma {:induction false} RunAdvances(db: Db, steps: seq<Step>)
    ensures Advances(db, Run(db, steps))
    decreases |steps|
  {
    hide Next;
    if steps != [] {
      RunAdvances(db, steps[..|steps| - 1]);
      NextAdvances(Run(db, steps[..|steps| - 1]), steps[|steps| - 1]);
    }
  }

  /** A stocked network with no reservation or transfer yet starts in order. */
  lemma StockedNetworkStarts(ws: seq<Warehouse>, bs: seq<Balance>)
    requires DistinctWarehouses(ws) && UniqueHomes(bs)
    requires forall i :: 0 <= i < |bs| ==>
               bs[i].location.None? && bs[i].reserved == 0 && bs[i].inTransit == 0 && 0 <= bs[i].Raw()
    ensures Inv(Db(ws, bs, [], []))
  {
    forall w, k {
      SumZero(bs, ReservedAt(w, k));
    }
    forall w, k {
      SumZero(bs, InTransitAt(w, k));
    }
  }
}
