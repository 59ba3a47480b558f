/** Releasing an order's reservations undoes the allocation that made them. */
module ReleaseLaws {
  import opened Sums
  import opened Tables
  import opened Allocation
  import opened AllocationLaws

  function PendingOf(rs: seq<Reservation>, w: WarehouseId, k: SkuId): nat -> int {
    (i: nat) => if i < |rs| && rs[i].warehouse == w && rs[i].sku == k then rs[i].quantity else 0
  }

  /** Units the listed reservations hold at a warehouse. */
  function PendingAt(rs: seq<Reservation>, ids: seq<nat>, w: WarehouseId, k: SkuId): int {
    SumOver(ids, PendingOf(rs, w, k))
  }

  ghost predicate ReleasableIds(rs: seq<Reservation>, ids: seq<nat>) {
    && (forall j :: 0 <= j < |ids| ==> ids[j] < |rs| && rs[ids[j]].status == Active && 0 <= rs[ids[j]].quantity)
    && (forall a, b :: 0 <= a < b < |ids| ==> ids[a] != ids[b])
  }

  /** What a home row gains or loses is decided by its key; other rows are not concerned. */
  predicate IsHomeRow(bs: seq<Balance>, i: nat)
    requires i < |bs|
  {
    GetBalance(bs, bs[i].warehouse, bs[i].sku) == Some(i)
  }

  /** Each home row carries at least the units about to be released from it. */
  ghost predicate CoversPending(db: Db, ids: seq<nat>) {
    forall i :: 0 <= i < |db.balances| && IsHomeRow(db.balances, i) ==>
      PendingAt(db.reservations, ids, db.balances[i].warehouse, db.balances[i].sku) <= db.balances[i].reserved
  }

  /** `reserved` moved by `change` units on the home row of each warehouse and SKU, and nothing else did. */
  ghost predicate ReservedShifted(before: seq<Balance>, after: seq<Balance>, change: (WarehouseId, SkuId) -> int) {
    && |after| == |before|
    && forall i :: 0 <= i < |before| ==>
         after[i] == before[i].(
           reserved := before[i].reserved +
             (if IsHomeRow(before, i) then change(before[i].warehouse, before[i].sku) else 0),
           version := after[i].version)
  }

  lemma ShiftsCompose(a: seq<Balance>, b: seq<Balance>, c: seq<Balance>,
                      f: (WarehouseId, SkuId) -> int, g: (WarehouseId, SkuId) -> int, h: (WarehouseId, SkuId) -> int)
    requires ReservedShifted(a, b, f) && ReservedShifted(b, c, g)
    requires forall w, k :: h(w, k) == f(w, k) + g(w, k)
    ensures ReservedShifted(a, c, h)
  {
    HomesStable(a, b);
    forall i | 0 <= i < |a|
      ensures c[i] == a[i].(reserved := a[i].reserved + (if IsHomeRow(a, i) then h(a[i].warehouse, a[i].sku) else 0),
                            version := c[i].version)
    {
      assert IsHomeRow(a, i) <==> IsHomeRow(b, i);
      assert b[i].warehouse == a[i].warehouse && b[i].sku == a[i].sku;
    }
  }

  function Lowered(rs: seq<Reservation>, ids: seq<nat>): (WarehouseId, SkuId) -> int {
    (w: WarehouseId, k: SkuId) => -PendingAt(rs, ids, w, k)
  }

  function Drawn(request: AllocationRequest, draws: seq<Draw>): (WarehouseId, SkuId) -> int {
    (w: WarehouseId, k: SkuId) => DrawnAt(request, draws, w, k)
  }

  lemma {:induction false} ReleaseSingleShift(db: Db, id: nat)
    requires id < |db.reservations| && db.reservations[id].status == Active
    requires
      var r := db.reservations[id];
      GetBalance(db.balances, r.warehouse, r.sku).Some? ==>
        r.quantity <= db.balances[GetBalance(db.balances, r.warehouse, r.sku).value].reserved
    ensures ReservedShifted(db.balances, ReleaseSingle(db, id).balances, Lowered(db.reservations, [id]))
  {
    assert forall w, k :: PendingAt(db.reservations, [id], w, k) == PendingOf(db.reservations, w, k)(id) by {
      forall w, k ensures PendingAt(db.reservations, [id], w, k) == PendingOf(db.reservations, w, k)(id) {
        SumSnoc([], id, PendingOf(db.reservations, w, k));
        assert [] + [id] == [id];
      }
    }
  }

  /** What the first releases take leaves enough for the next one. */
  lemma StillCovered(db: Db, mid: Db, front: seq<nat>, id: nat)
    requires CoversPending(db, front + [id]) && id < |db.reservations|
    requires ReservedShifted(db.balances, mid.balances, Lowered(db.reservations, front))
    ensures
      var r := db.reservations[id];
      var home := GetBalance(mid.balances, r.warehouse, r.sku);
      home.Some? ==> r.quantity <= mid.balances[home.value].reserved
  {
    hide SumOver;
    var r := db.reservations[id];
    PendingSplits(db.reservations, front, id);
    HomesStable(db.balances, mid.balances);
    var home := GetBalance(db.balances, r.warehouse, r.sku);
    if home.Some? {
      assert IsHomeRow(db.balances, home.value);
    }
  }

  /** When the home rows cover the units, no clamp fires: every row loses exactly its own pending units. */
  lemma {:induction false} ReleaseManyExact(db: Db, ids: seq<nat>)
    requires ReleasableIds(db.reservations, ids) && CoversPending(db, ids)
    ensures
      var after := ReleaseMany(db, ids);
      && after.warehouses == db.warehouses && after.transfers == db.transfers
      && ReservedShifted(db.balances, after.balances, Lowered(db.reservations, ids))
      && |after.reservations| == |db.reservations|
      && (forall i: nat :: i < |db.reservations| ==>
            after.reservations[i] == if i in ids then db.reservations[i].(status := Released)
                                     else db.reservations[i])
    decreases |ids|
  {
    if ids != [] {
      var m := |ids| - 1;
      var front := ids[..m];
      var r := db.reservations[ids[m]];
      PendingSplits(db.reservations, front, ids[m]);
      assert front + [ids[m]] == ids;
      ReleaseManyExact(db, front);
      var mid := ReleaseMany(db, front);
      assert ids[m] !in front;
      HomesStable(db.balances, mid.balances);
      StillCovered(db, mid, front, ids[m]);
      ReleaseSingleShift(mid, ids[m]);
      hide SumOver, ReservedShifted, IsHomeRow, GetBalance, PendingAt, CoversPending;
      PendingSame(db.reservations, mid.reservations, [ids[m]]);
      ShiftsCompose(db.balances, mid.balances, ReleaseMany(db, ids).balances, Lowered(db.reservations, front),
                    Lowered(mid.reservations, [ids[m]]), Lowered(db.reservations, ids));
    }
  }

  lemma PendingSplits(rs: seq<Reservation>, front: seq<nat>, id: nat)
    requires id < |rs|
    ensures forall w, k :: PendingAt(rs, front + [id], w, k) == PendingAt(rs, front, w, k) + PendingAt(rs, [id], w, k)
    ensures PendingAt(rs, [id], rs[id].warehouse, rs[id].sku) == rs[id].quantity
  {
    forall w, k ensures PendingAt(rs, front + [id], w, k) == PendingAt(rs, front, w, k) + PendingAt(rs, [id], w, k) {
      SumConcat(front, [id], PendingOf(rs, w, k));
    }
    assert [id][..0] == [];
  }

  lemma PendingSame(rs: seq<Reservation>, rs': seq<Reservation>, ids: seq<nat>)
    requires |rs| == |rs'|
    requires forall i :: 0 <= i < |rs| ==> rs'[i] == rs[i].(status := rs'[i].status)
    ensures forall w, k :: PendingAt(rs', ids, w, k) == PendingAt(rs, ids, w, k)
  {
    forall w, k ensures PendingAt(rs', ids, w, k) == PendingAt(rs, ids, w, k) {
      SumCongruence(ids, ids, PendingOf(rs', w, k), PendingOf(rs, w, k));
    }
  }

  lemma TakeShift(db: Db, request: AllocationRequest, now: Time, d: Draw)
    requires Take(db, request, now, d).1.None?
    ensures ReservedShifted(db.balances, Take(db, request, now, d).0.balances, Drawn(request, [d]))
  {
    forall w ensures SumOver([d], DrawnFrom(w)) == DrawnFrom(w)(d) {
      SumCons([d], DrawnFrom(w));
    }
  }

  /** Committed draws add exactly their units to the home rows they name. */
  lemma {:induction false} CommitShift(db: Db, request: AllocationRequest, now: Time, draws: seq<Draw>)
    requires Commit(db, request, now, draws).1.None?
    ensures ReservedShifted(db.balances, Commit(db, request, now, draws).0.balances, Drawn(request, draws))
    decreases |draws|
  {
    if draws != [] {
      var next := Take(db, request, now, draws[0]).0;
      TakeShift(db, request, now, draws[0]);
      CommitShift(next, request, now, draws[1..]);
      forall w, k
        ensures DrawnAt(request, draws, w, k)
                == DrawnAt(request, [draws[0]], w, k) + DrawnAt(request, draws[1..], w, k)
      {
        assert draws == [draws[0]] + draws[1..];
        SumConcat([draws[0]], draws[1..], DrawnFrom(w));
      }
      ShiftsCompose(db.balances, next.balances, Commit(db, request, now, draws).0.balances,
                    Drawn(request, [draws[0]]), Drawn(request, draws[1..]), Drawn(request, draws));
    }
  }

  lemma {:induction false} NoPositions(rs: seq<Reservation>, keep: Reservation -> bool)
    requires forall i :: 0 <= i < |rs| ==> !keep(rs[i])
    ensures Positions(rs, keep) == []
    decreases |rs|
  {
    if rs != [] {
      NoPositions(rs[..|rs| - 1], keep);
    }
  }

  lemma {:induction false} PositionsFrom(all: seq<Reservation>, n: nat, keep: Reservation -> bool)
    requires n <= |all|
    requires forall i :: 0 <= i < |all| ==> (keep(all[i]) <==> n <= i)
    ensures Positions(all, keep) == NewIds(n, |all| - n)
    decreases |all|
  {
    if n == |all| {
      NoPositions(all, keep);
    } else {
      PositionsFrom(all[..|all| - 1], n, keep);
    }
  }

  /** A filter that keeps none of the old rows and all of the new ones finds just the new ones. */
  lemma PositionsAppended(rs: seq<Reservation>, added: seq<Reservation>, keep: Reservation -> bool)
    requires forall i :: 0 <= i < |rs| ==> !keep(rs[i])
    requires forall i :: 0 <= i < |added| ==> keep(added[i])
    ensures Positions(rs + added, keep) == NewIds(|rs|, |added|)
  {
    hide Positions, NewIds;
    PositionsFrom(rs + added, |rs|, keep);
  }

  lemma {:induction false} NewIdsAre(from: nat, count: nat)
    ensures forall j :: 0 <= j < count ==> NewIds(from, count)[j] == from + j
    decreases count
  {
    if count > 0 {
      NewIdsAre(from, count - 1);
    }
  }

  ghost predicate ReservedNonNegative(bs: seq<Balance>) {
    forall i :: 0 <= i < |bs| ==> 0 <= bs[i].reserved
  }

  /** Two balance tables that agree on every quantity field, whatever their version counters say. */
  ghost predicate SameQuantities(before: seq<Balance>, after: seq<Balance>) {
    && |before| == |after|
    && forall i :: 0 <= i < |before| ==> after[i] == before[i].(version := after[i].version)
  }

  /** The reservations of an order that held nothing before are exactly the new ones. */
  lemma NewReservationsFound(db: Db, request: AllocationRequest, now: Time, draws: seq<Draw>)
    requires Commit(db, request, now, draws).1.None?
    requires ActiveForOrder(db.reservations, request.order) == []
    ensures
      var mid := Commit(db, request, now, draws).0;
      && ActiveForOrder(mid.reservations, request.order) == NewIds(|db.reservations|, |draws|)
      && mid.reservations == db.reservations + AddedReservations(request, now, draws)
  {
    CommitReserves(db, request, now, draws);
    var keep := ActiveOf(request.order);
    forall i: nat | i < |db.reservations| ensures !keep(db.reservations[i]) {
      assert i !in Positions(db.reservations, keep);
    }
    PositionsAppended(db.reservations, AddedReservations(request, now, draws), keep);
  }

  /** Each listed row is the reservation of its draw. */
  ghost predicate HoldDraws(all: seq<Reservation>, ids: seq<nat>, request: AllocationRequest, now: Time,
                            draws: seq<Draw>)
  {
    && |ids| == |draws|
    && forall j :: 0 <= j < |draws| ==> ids[j] < |all| && all[ids[j]] == NewReservation(request, now, draws[j])
  }

  /** They hold exactly what was drawn, warehouse by warehouse and in total. */
  lemma NewReservationsHold(rs: seq<Reservation>, request: AllocationRequest, now: Time, draws: seq<Draw>)
    ensures
      var all := rs + AddedReservations(request, now, draws);
      var ids := NewIds(|rs|, |draws|);
      && SumOver(ids, QuantityOf(all)) == TotalDrawn(draws)
      && forall w, k :: PendingAt(all, ids, w, k) == DrawnAt(request, draws, w, k)
  {
    hide SumOver, NewIds, AddedReservations, PendingAt, DrawnAt, HoldDraws;
    var all := rs + AddedReservations(request, now, draws);
    var ids := NewIds(|rs|, |draws|);
    NewReservationsAre(rs, request, now, draws);
    NewReservationsTotal(all, ids, request, now, draws);
    forall w, k ensures PendingAt(all, ids, w, k) == DrawnAt(request, draws, w, k) {
      NewReservationsHoldAt(all, ids, request, now, draws, w, k);
    }
  }

  lemma NewReservationsAre(rs: seq<Reservation>, request: AllocationRequest, now: Time, draws: seq<Draw>)
    ensures HoldDraws(rs + AddedReservations(request, now, draws), NewIds(|rs|, |draws|), request, now, draws)
  {
    hide NewIds, NewReservation;
    var added, ids := AddedReservations(request, now, draws), NewIds(|rs|, |draws|);
    NewIdsAre(|rs|, |draws|);
    AddedAre(request, now, draws);
    hide AddedReservations;
    forall j | 0 <= j < |draws|
      ensures ids[j] < |rs + added| && (rs + added)[ids[j]] == NewReservation(request, now, draws[j])
    {
      assert ids[j] == |rs| + j && (rs + added)[|rs| + j] == added[j];
    }
  }

  lemma AddedAre(request: AllocationRequest, now: Time, draws: seq<Draw>)
    ensures |AddedReservations(request, now, draws)| == |draws|
    ensures forall j :: 0 <= j < |draws| ==>
              AddedReservations(request, now, draws)[j] == NewReservation(request, now, draws[j])
  {
  }

  lemma NewReservationsTotal(all: seq<Reservation>, ids: seq<nat>, request: AllocationRequest, now: Time,
                             draws: seq<Draw>)
    requires HoldDraws(all, ids, request, now, draws)
    ensures SumOver(ids, QuantityOf(all)) == TotalDrawn(draws)
  {
    SumCongruence(ids, draws, QuantityOf(all), DrawQuantity());
  }

  lemma NewReservationsHoldAt(all: seq<Reservation>, ids: seq<nat>, request: AllocationRequest, now: Time,
                              draws: seq<Draw>, w: WarehouseId, k: SkuId)
    requires HoldDraws(all, ids, request, now, draws)
    ensures PendingAt(all, ids, w, k) == DrawnAt(request, draws, w, k)
  {
    if k == request.sku {
      SumCongruence(ids, draws, PendingOf(all, w, k), DrawnFrom(w));
    } else {
      SumZero(ids, PendingOf(all, w, k));
    }
  }

  /** Release right after allocate, for an order that held nothing: the balances are as before. */
  lemma ReleaseUndoesAllocate(db: Db, request: AllocationRequest, now: Time)
    requires Allocate(db, request, now).1.Success?
    requires ReservedNonNegative(db.balances)
    requires ActiveForOrder(db.reservations, request.order) == []
    ensures
      var (mid, result) := Allocate(db, request, now);
      var ids := ActiveForOrder(mid.reservations, request.order);
      && ids == result.value.reservationIds
      && SumOver(ids, QuantityOf(mid.reservations)) == result.value.totalAllocated
      && SameQuantities(db.balances, ReleaseMany(mid, ids).balances)
      && ActiveForOrder(ReleaseMany(mid, ids).reservations, request.order) == []
  {
    var draws := Allocate(db, request, now).1.value.allocations;
    PositiveDraws(Rank(db, request), request.quantity, request.allowSplit);
    UndoDraws(db, request, now, draws);
  }

  lemma UndoDraws(db: Db, request: AllocationRequest, now: Time, draws: seq<Draw>)
    requires Commit(db, request, now, draws).1.None?
    requires forall d :: d in draws ==> 0 < d.quantity
    requires ReservedNonNegative(db.balances)
    requires ActiveForOrder(db.reservations, request.order) == []
    ensures
      var mid := Commit(db, request, now, draws).0;
      var ids := ActiveForOrder(mid.reservations, request.order);
      && ids == NewIds(|db.reservations|, |draws|)
      && SumOver(ids, QuantityOf(mid.reservations)) == TotalDrawn(draws)
      && SameQuantities(db.balances, ReleaseMany(mid, ids).balances)
      && ActiveForOrder(ReleaseMany(mid, ids).reservations, request.order) == []
  {
    hide Commit, Positions, ReleaseMany, SumOver, PendingAt, DrawnAt, GetBalance, FindHome, NewIds;
    var mid := Commit(db, request, now, draws).0;
    var ids := NewIds(|db.reservations|, |draws|);
    CommitShift(db, request, now, draws);
    NewReservationsFound(db, request, now, draws);
    NewReservationsHold(db.reservations, request, now, draws);
    NewIdsAre(|db.reservations|, |draws|);
    HomesStable(db.balances, mid.balances);
    assert forall j :: 0 <= j < |draws| ==> draws[j] in draws;
    ReleaseManyExact(mid, ids);
    NoPositions(ReleaseMany(mid, ids).reservations, ActiveOf(request.order));
  }
}
