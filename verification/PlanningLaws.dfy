/** What a finished plan says about the order's lines. */
module PlanningLaws {
  import opened Sums
  import opened Sorting
  import opened Tables
  import opened Allocation
  import opened AllocationLaws
  import opened InventoryServiceModel
  import ReleaseLaws
  import opened Planning

  // ----- availability while an order is allocated

  lemma DrawnNonNegative(request: AllocationRequest, draws: seq<Draw>)
    requires forall d :: d in draws ==> 0 < d.quantity
    ensures forall w, k :: 0 <= DrawnAt(request, draws, w, k)
    ensures forall d :: d in draws ==> d.quantity <= DrawnAt(request, draws, d.warehouse, request.sku)
  {
    forall w, k ensures 0 <= DrawnAt(request, draws, w, k) {
      SumNonNegative(draws, DrawnFrom(w));
    }
    forall d | d in draws ensures d.quantity <= DrawnAt(request, draws, d.warehouse, request.sku) {
      var i :| 0 <= i < |draws| && draws[i] == d;
      SumCoversElement(draws, i, DrawnFrom(d.warehouse));
    }
  }

  /** Written draws only lower the raw availability, also when a later one raises. */
  lemma {:induction false} CommitLowersRaw(db: Db, request: AllocationRequest, now: Time, draws: seq<Draw>)
    requires forall d :: d in draws ==> 0 < d.quantity
    ensures
      var after := Commit(db, request, now, draws).0;
      && after.warehouses == db.warehouses
      && forall w, k :: RawSum(after.balances, w, k) <= RawSum(db.balances, w, k)
    decreases |draws|
  {
    hide SumOver, DrawnAt;
    if draws != [] {
      var d := draws[0];
      var (next, raised) := Take(db, request, now, d);
      if raised.None? {
        TakeEffect(db, request, now, d);
        DrawnNonNegative(request, [d]);
        CommitLowersRaw(next, request, now, draws[1..]);
      }
    }
  }

  /** No allocation, successful or raising, raises the availability of any SKU. */
  lemma AvailabilityFalls(db: Db, request: AllocationRequest, now: Time, k: SkuId)
    ensures Allocate(db, request, now).0.warehouses == db.warehouses
    ensures 0 <= TotalAvailable(Allocate(db, request, now).0, k) <= TotalAvailable(db, k)
  {
    hide SumOver, ListActive, RawSum, Commit, Rank, Draws;
    var draws := DrawsOf(db, request);
    var after := Allocate(db, request, now).0;
    PositiveDraws(Rank(db, request), request.quantity, request.allowSplit);
    CommitLowersRaw(db, request, now, draws);
    var ws := ListActive(db.warehouses);
    assert forall w :: RawSum(after.balances, w, k) <= RawSum(db.balances, w, k);
    SumMonotone(ws, AvailableAt(after.balances, k), AvailableAt(db.balances, k));
    SumNonNegative(ws, AvailableAt(after.balances, k));
  }

  /** A split allocation that ends short leaves nothing of the SKU available anywhere. */
  lemma ShortfallDrains(db: Db, request: AllocationRequest, now: Time)
    requires DistinctWarehouses(db.warehouses) && request.allowSplit
    requires Allocate(db, request, now).1.Success? && 0 < Allocate(db, request, now).1.value.backorder
    ensures TotalAvailable(Allocate(db, request, now).0, request.sku) == 0
  {
    hide Allocate, SumOver, ListActive, DrawnAt, RawSum;
    var draws := Allocate(db, request, now).1.value.allocations;
    var after := Allocate(db, request, now).0;
    ShortfallTakesAll(db, request, now);
    AllocateEffect(db, request, now);
    DrawnNonNegative(request, draws);
    ListActiveDistinct(db.warehouses);
    var ws := ListActive(db.warehouses);
    forall i | 0 <= i < |ws| ensures AvailableAt(after.balances, request.sku)(ws[i]) == 0 {
      assert ws[i] in ws && ActiveId(db.warehouses, ws[i].id);
    }
    SumZero(ws, AvailableAt(after.balances, request.sku));
  }

  lemma ShortfallTakesAll(db: Db, request: AllocationRequest, now: Time)
    requires DistinctWarehouses(db.warehouses) && request.allowSplit
    requires Allocate(db, request, now).1.Success? && 0 < Allocate(db, request, now).1.value.backorder
    ensures forall w :: ActiveId(db.warehouses, w) && 0 < AggregatedAvailable(db.balances, w, request.sku) ==>
              Draw(w, AggregatedAvailable(db.balances, w, request.sku))
              in Allocate(db, request, now).1.value.allocations
  {
    hide SumOver, AggregatedAvailable, ListActive, Commit;
    var scores := Rank(db, request);
    RankFaithful(db, request);
    AllocateMaximal(db, request, now);
    DrawsDrain(scores, request.quantity);
    hide Rank, Draws;
    forall w | ActiveId(db.warehouses, w) && 0 < AggregatedAvailable(db.balances, w, request.sku)
      ensures Draw(w, AggregatedAvailable(db.balances, w, request.sku))
              in Allocate(db, request, now).1.value.allocations
    {
      var s :| s in scores && s.warehouse == w;
    }
  }

  // ----- the planning invariant

  function TotalFor(id: LineId): AllocationResult -> int {
    (r: AllocationResult) => if r.line == id then r.totalAllocated else 0
  }

  function Growth(results: seq<AllocationResult>, id: LineId): int { SumOver(results, TotalFor(id)) }

  ghost predicate DistinctLines(lines: seq<OrderLine>) {
    forall i, j :: 0 <= i < j < |lines| ==> lines[i].id != lines[j].id
  }

  ghost predicate Has(lines: seq<OrderLine>, id: LineId) {
    exists i :: 0 <= i < |lines| && lines[i].id == id
  }

  /** Some result of the run belongs to the line. */
  ghost predicate Served(results: seq<AllocationResult>, id: LineId) {
    exists j :: 0 <= j < |results| && results[j].line == id
  }

  /** A result as its line sees it: the line is settled by it, and a shortfall means that nothing is left. */
  ghost predicate SettledBy(db: Db, line: OrderLine, r: AllocationResult) {
    && r.totalAllocated == TotalDrawn(r.allocations) > 0
    && |r.reservationIds| == |r.allocations|
    && line.backorder == r.backorder && line.allocatedQty + r.backorder == line.ordered
    && 0 <= r.backorder
    && (0 < r.backorder ==> TotalAvailable(db, line.sku) == 0)
  }

  ghost predicate PlanInv(start: seq<OrderLine>, p: Progress) {
    && DistinctWarehouses(p.db.warehouses)
    && |p.lines| == |start|
    && (forall i :: 0 <= i < |start| ==>
          && p.lines[i] == start[i].(allocatedQty := p.lines[i].allocatedQty, backorder := p.lines[i].backorder)
          && p.lines[i].allocatedQty == start[i].allocatedQty + Growth(p.results, start[i].id)
          && (!Served(p.results, start[i].id) ==> p.lines[i] == start[i]))
    && (forall j, j' :: 0 <= j < j' < |p.results| ==> p.results[j].line != p.results[j'].line)
    && (forall j :: 0 <= j < |p.results| ==> Has(start, p.results[j].line))
    && (forall i, j :: 0 <= i < |start| && 0 <= j < |p.results| && p.results[j].line == start[i].id ==>
          SettledBy(p.db, p.lines[i], p.results[j]))
  }

  /** A successful allocation for a line settles it. */
  lemma AllocationSettles(db: Db, c: Context, line: OrderLine, w: WarehouseId)
    requires DistinctWarehouses(db.warehouses)
    requires line.allocatedQty < line.ordered
    requires Allocate(db, RequestFor(c, line, w), c.now).1.Success?
    ensures
      var (after, result) := Allocate(db, RequestFor(c, line, w), c.now);
      var r := result.value;
      && r.line == line.id
      && 0 < TotalAvailable(db, line.sku)
      && SettledBy(after, line.(allocatedQty := line.allocatedQty + r.totalAllocated, backorder := r.backorder), r)
  {
    var request := RequestFor(c, line, w);
    AllocateMaximal(db, request, c.now);
    var r := Allocate(db, request, c.now).1.value;
    if c.allowSplit {
      if 0 < r.backorder {
        ShortfallDrains(db, request, c.now);
      }
    } else {
      var x :| r.allocations == [Draw(x, request.quantity)];
      SumCons(r.allocations, DrawQuantity());
    }
    TotalPositive(db, line.sku, r.allocations[0]);
  }

  lemma TotalPositive(db: Db, k: SkuId, d: Draw)
    requires DistinctWarehouses(db.warehouses)
    requires 0 < d.quantity <= AggregatedAvailable(db.balances, d.warehouse, k) && ActiveId(db.warehouses, d.warehouse)
    ensures 0 < TotalAvailable(db, k)
  {
    ListActiveDistinct(db.warehouses);
    var ws := ListActive(db.warehouses);
    var row :| row in db.warehouses && row.isActive && row.id == d.warehouse;
    assert row in ws;
    var i :| 0 <= i < |ws| && ws[i] == row;
    SumCoversElement(ws, i, AvailableAt(db.balances, k));
  }

  /** One more successful allocation keeps the invariant. */
  lemma ResultKeeps(start: seq<OrderLine>, p: Progress, i: nat, after: Db, r: AllocationResult)
    requires PlanInv(start, p) && DistinctLines(start) && i < |start|
    requires p.lines[i].allocatedQty < p.lines[i].ordered && 0 < TotalAvailable(p.db, p.lines[i].sku)
    requires r.line == start[i].id && DistinctWarehouses(after.warehouses)
    requires forall k :: 0 <= TotalAvailable(after, k) <= TotalAvailable(p.db, k)
    requires SettledBy(after, p.lines[i].(allocatedQty := p.lines[i].allocatedQty + r.totalAllocated,
                                          backorder := r.backorder), r)
    ensures
      var line := p.lines[i].(allocatedQty := p.lines[i].allocatedQty + r.totalAllocated, backorder := r.backorder);
      PlanInv(start, Progress(after, p.lines[i := line], p.results + [r]))
  {
    hide DistinctWarehouses, TotalAvailable, SumOver, TotalDrawn;
    assert !Served(p.results, start[i].id);
    forall id ensures Growth(p.results + [r], id) == Growth(p.results, id) + TotalFor(id)(r) {
      SumSnoc(p.results, r, TotalFor(id));
    }
    var results := p.results + [r];
    forall id | !Served(results, id) ensures !Served(p.results, id) && r.line != id {
      assert results[|p.results|] == r;
      assert forall j :: 0 <= j < |p.results| ==> results[j] == p.results[j];
    }
  }

  lemma TryLineKeeps(start: seq<OrderLine>, p: Progress, c: Context, w: WarehouseId, i: nat)
    requires PlanInv(start, p) && DistinctLines(start) && i < |start|
    ensures PlanInv(start, TryLine(p, c, w, i))
  {
    hide Allocate, TotalAvailable, PlanInv;
    PlanInvHolds(start, p);
    var line := p.lines[i];
    if line.allocatedQty < line.ordered {
      var request := RequestFor(c, line, w);
      if Allocate(p.db, request, c.now).1.Success? {
        SuccessKeeps(start, p, c, w, i);
      } else {
        FailureKeeps(start, p, request, c.now);
      }
    }
  }

  /** A swallowed raise leaves the lines alone, and what it has written only lowers the availability. */
  lemma FailureKeeps(start: seq<OrderLine>, p: Progress, request: AllocationRequest, now: Time)
    requires PlanInv(start, p)
    ensures PlanInv(start, p.(db := Allocate(p.db, request, now).0))
  {
    hide DistinctWarehouses, TotalAvailable, SumOver, TotalDrawn, Allocate;
    var after := Allocate(p.db, request, now).0;
    AvailabilityFalls(p.db, request, now, request.sku);
    forall k ensures 0 <= TotalAvailable(after, k) <= TotalAvailable(p.db, k) {
      AvailabilityFalls(p.db, request, now, k);
    }
  }

  lemma SuccessKeeps(start: seq<OrderLine>, p: Progress, c: Context, w: WarehouseId, i: nat)
    requires PlanInv(start, p) && DistinctLines(start) && i < |start|
    requires p.lines[i].allocatedQty < p.lines[i].ordered
    requires Allocate(p.db, RequestFor(c, p.lines[i], w), c.now).1.Success?
    ensures PlanInv(start, TryLine(p, c, w, i))
  {
    hide Allocate, TotalAvailable, PlanInv, DistinctWarehouses;
    PlanInvHolds(start, p);
    var request := RequestFor(c, p.lines[i], w);
    var (after, result) := Allocate(p.db, request, c.now);
    AllocationSettles(p.db, c, p.lines[i], w);
    forall k ensures after.warehouses == p.db.warehouses && 0 <= TotalAvailable(after, k) <= TotalAvailable(p.db, k) {
      AvailabilityFalls(p.db, request, c.now, k);
    }
    ResultKeeps(start, p, i, after, result.value);
  }

  lemma PlanInvHolds(start: seq<OrderLine>, p: Progress)
    requires PlanInv(start, p)
    ensures DistinctWarehouses(p.db.warehouses) && |p.lines| == |start|
    ensures forall i :: 0 <= i < |start| ==> p.lines[i].id == start[i].id
    ensures forall j :: 0 <= j < |p.results| ==> Has(start, p.results[j].line)
    ensures forall j, j' :: 0 <= j < j' < |p.results| ==> p.results[j].line != p.results[j'].line
  {
  }

  lemma {:induction false} TryLinesKeeps(start: seq<OrderLine>, p: Progress, c: Context, w: WarehouseId, n: nat)
    requires PlanInv(start, p) && DistinctLines(start) && n <= |start|
    ensures PlanInv(start, TryLines(p, c, w, n))
  {
    hide PlanInv, TryLine;
    PlanInvHolds(start, p);
    if n != 0 {
      TryLinesKeeps(start, p, c, w, n - 1);
      TryLineKeeps(start, TryLines(p, c, w, n - 1), c, w, n - 1);
    }
  }

  lemma {:induction false} TryWarehousesKeeps(start: seq<OrderLine>, p: Progress, c: Context,
                                              selected: seq<WarehouseId>)
    requires PlanInv(start, p) && DistinctLines(start)
    ensures PlanInv(start, TryWarehouses(p, c, selected))
    decreases |selected|
  {
    hide PlanInv, TryLines;
    if selected != [] {
      TryWarehousesKeeps(start, p, c, selected[..|selected| - 1]);
      var front := TryWarehouses(p, c, selected[..|selected| - 1]);
      PlanInvHolds(start, front);
      TryLinesKeeps(start, front, c, selected[|selected| - 1], |front.lines|);
    }
  }

  // ----- what planning writes down

  /** Reservations only come on top, and each new one is for a line of the order, good for half an hour. */
  ghost predicate ReservedForLines(before: seq<Reservation>, after: seq<Reservation>, c: Context,
                                   lines: seq<OrderLine>)
  {
    && |before| <= |after| && after[..|before|] == before
    && forall i :: |before| <= i < |after| ==>
         && after[i].order == c.order && after[i].status == Active && after[i].expiresAt == c.now + 1800
         && exists n :: 0 <= n < |lines| && lines[n].id == after[i].line && lines[n].sku == after[i].sku
  }

  lemma MoreReserved(before: seq<Reservation>, mid: seq<Reservation>, after: seq<Reservation>, c: Context,
                     lines: seq<OrderLine>)
    requires ReservedForLines(before, mid, c, lines) && ReservedForLines(mid, after, c, lines)
    ensures ReservedForLines(before, after, c, lines)
  {
    assert after[..|mid|][..|before|] == after[..|before|];
    forall i | |before| <= i < |mid| ensures after[i] == mid[i] {
      assert after[..|mid|][i] == mid[i];
    }
  }

  ghost predicate SameLines(start: seq<OrderLine>, lines: seq<OrderLine>) {
    |lines| == |start| && forall i :: 0 <= i < |start| ==> lines[i].id == start[i].id && lines[i].sku == start[i].sku
  }

  lemma TryLineReserves(start: seq<OrderLine>, p: Progress, c: Context, w: WarehouseId, i: nat)
    requires SameLines(start, p.lines) && i < |start|
    ensures SameLines(start, TryLine(p, c, w, i).lines)
    ensures ReservedForLines(p.db.reservations, TryLine(p, c, w, i).db.reservations, c, start)
  {
    hide Allocate, DrawsOf;
    var line := p.lines[i];
    if 0 < line.ordered - line.allocatedQty {
      var request := RequestFor(c, line, w);
      var after := Allocate(p.db, request, c.now).0.reservations;
      var taken := AllocationRecords(p.db, request, c.now);
      assert after[..|p.db.reservations|] == p.db.reservations;
      forall j | |p.db.reservations| <= j < |after|
        ensures after[j].order == c.order && after[j].status == Active && after[j].expiresAt == c.now + 1800
        ensures after[j].line == start[i].id && after[j].sku == start[i].sku
      {
        var m := j - |p.db.reservations|;
        var draws := DrawsOf(p.db, request);
        assert after[|p.db.reservations| + m] ==
               Reservation(request.order, request.line, draws[m].warehouse, request.sku, draws[m].quantity, Active,
                           c.now + 1800);
      }
    } else {
      assert p.db.reservations[..|p.db.reservations|] == p.db.reservations;
    }
  }

  lemma {:induction false} TryLinesReserve(start: seq<OrderLine>, p: Progress, c: Context, w: WarehouseId, n: nat)
    requires SameLines(start, p.lines) && n <= |start|
    ensures SameLines(start, TryLines(p, c, w, n).lines)
    ensures ReservedForLines(p.db.reservations, TryLines(p, c, w, n).db.reservations, c, start)
  {
    hide TryLine, ReservedForLines, SameLines;
    assert |p.lines| == |start| by { SameCount(start, p.lines); }
    if n == 0 {
      NothingReserved(p.db.reservations, c, start);
    } else {
      var front := TryLines(p, c, w, n - 1);
      TryLinesReserve(start, p, c, w, n - 1);
      TryLineReserves(start, front, c, w, n - 1);
      MoreReserved(p.db.reservations, front.db.reservations, TryLine(front, c, w, n - 1).db.reservations, c, start);
    }
  }

  lemma SameCount(start: seq<OrderLine>, lines: seq<OrderLine>)
    requires SameLines(start, lines)
    ensures |lines| == |start|
  {
  }

  lemma NothingReserved(rs: seq<Reservation>, c: Context, lines: seq<OrderLine>)
    ensures ReservedForLines(rs, rs, c, lines)
  {
    assert rs[..|rs|] == rs;
  }

  /** Whatever raises on the way, planning an order adds reservations for this order's own lines and SKUs only. */
  lemma {:induction false} PlanReservesItsLines(db: Db, lines: seq<OrderLine>, c: Context, selected: seq<WarehouseId>)
    ensures SameLines(lines, TryWarehouses(Progress(db, lines, []), c, selected).lines)
    ensures ReservedForLines(db.reservations, TryWarehouses(Progress(db, lines, []), c, selected).db.reservations, c,
                             lines)
    decreases |selected|
  {
    hide TryLines, ReservedForLines, SameLines;
    if selected == [] {
      NothingReserved(db.reservations, c, lines);
      assert SameLines(lines, lines) by { LinesThemselves(lines); }
    } else {
      var m := |selected| - 1;
      var front := TryWarehouses(Progress(db, lines, []), c, selected[..m]);
      PlanReservesItsLines(db, lines, c, selected[..m]);
      SameCount(lines, front.lines);
      TryLinesReserve(lines, front, c, selected[m], |front.lines|);
      MoreReserved(db.reservations, front.db.reservations,
                   TryLines(front, c, selected[m], |front.lines|).db.reservations, c, lines);
    }
  }

  lemma LinesThemselves(lines: seq<OrderLine>)
    ensures SameLines(lines, lines)
  {
  }

  /** An open line that gets stock while a warehouse is being tried gets it from that warehouse first, as much as it can
      give. */
  lemma TriedWarehouseGivesFirst(p: Progress, c: Context, w: WarehouseId, i: nat)
    requires DistinctWarehouses(p.db.warehouses) && i < |p.lines| && ActiveId(p.db.warehouses, w)
    requires |TryLine(p, c, w, i).results| == |p.results| + 1
    ensures
      var need, shown := p.lines[i].ordered - p.lines[i].allocatedQty,
                         AggregatedAvailable(p.db.balances, w, p.lines[i].sku);
      var r := TryLine(p, c, w, i).results[|p.results|];
      && r.line == p.lines[i].id && r.totalAllocated + r.backorder == need
      && (0 < shown && (c.allowSplit || need <= shown) ==>
            r.allocations != [] && r.allocations[0] == Draw(w, Min(need, shown)))
  {
    hide Allocate, AggregatedAvailable;
    var request := RequestFor(c, p.lines[i], w);
    AllocateMaximal(p.db, request, c.now);
    PreferredDrawnFirst(p.db, request, c.now);
  }

  // ----- the plan built from the results

  function PlannedFor(id: LineId): PlanLine -> int {
    (l: PlanLine) => if l.line == id then l.quantity else 0
  }

  lemma {:induction false} LinesOfSum(r: AllocationResult, n: nat, id: LineId)
    requires n <= |r.allocations|
    ensures SumOver(LinesOf(r, n), PlannedFor(id)) == if r.line == id then TotalDrawn(r.allocations[..n]) else 0
  {
    if n != 0 {
      LinesOfSum(r, n - 1, id);
      SumPrefix(r.allocations, n - 1, DrawQuantity());
      SumSnoc(LinesOf(r, n - 1), LinesOf(r, n)[|LinesOf(r, n)| - 1], PlannedFor(id));
    }
  }

  /** The planned quantities of a line add up to what its results allocated. */
  lemma {:induction false} PlannedIsGrowth(results: seq<AllocationResult>, id: LineId)
    requires forall j :: 0 <= j < |results| ==> results[j].totalAllocated == TotalDrawn(results[j].allocations)
    ensures SumOver(BuildPlan(results).lines, PlannedFor(id)) == Growth(results, id)
    decreases |results|
  {
    if results != [] {
      var m := |results| - 1;
      var r := results[m];
      PlannedIsGrowth(results[..m], id);
      SumConcat(BuildPlan(results[..m]).lines, LinesOf(r, |r.allocations|), PlannedFor(id));
      LinesOfSum(r, |r.allocations|, id);
      assert r.allocations[..|r.allocations|] == r.allocations;
    }
  }

  /** The result at `j` belongs to the line and fell short. */
  ghost predicate ShortAt(results: seq<AllocationResult>, id: LineId, j: nat) {
    j < |results| && results[j].line == id && 0 < results[j].backorder
  }

  ghost predicate Short(results: seq<AllocationResult>, id: LineId) {
    exists j :: ShortAt(results, id, j)
  }

  lemma ShortSnoc(front: seq<AllocationResult>, r: AllocationResult, id: LineId)
    ensures Short(front + [r], id) <==> Short(front, id) || (r.line == id && 0 < r.backorder)
  {
    var results := front + [r];
    if j: nat :| ShortAt(results, id, j) && j != |front| {
      assert ShortAt(front, id, j);
    }
    if j: nat :| ShortAt(front, id, j) {
      assert ShortAt(results, id, j);
    }
    if r.line == id && 0 < r.backorder {
      assert ShortAt(results, id, |front|);
    }
  }

  lemma NotShortBefore(results: seq<AllocationResult>, m: nat)
    requires m < |results|
    requires forall j, j' :: 0 <= j < j' < |results| ==> results[j].line != results[j'].line
    ensures !Short(results[..m], results[m].line)
  {
  }

  function EndsInBackorder(results: seq<AllocationResult>): nat -> bool {
    (i: nat) => i < |results| && 0 < results[i].backorder
  }

  function LineAt(results: seq<AllocationResult>): nat -> LineId {
    (i: nat) => if i < |results| then results[i].line else 0
  }

  /** The lines in backorder are listed in the order of their results. */
  lemma {:induction false} BackordersInOrder(results: seq<AllocationResult>) returns (at: seq<nat>)
    ensures Gathers(BuildPlan(results).backorderLines, at, |results|, EndsInBackorder(results), LineAt(results))
    decreases |results|
  {
    hide Gathers;
    if results == [] {
      at := [];
      GatherNothing(EndsInBackorder(results), LineAt(results));
    } else {
      var n := |results| - 1;
      var front := BuildPlan(results[..n]).backorderLines;
      at := BackordersInOrder(results[..n]);
      GatherAlike(front, at, n, EndsInBackorder(results[..n]), LineAt(results[..n]),
                  EndsInBackorder(results), LineAt(results));
      at := GatherNext(front, at, n, EndsInBackorder(results), LineAt(results));
    }
  }

  lemma {:induction false} BackordersListed(results: seq<AllocationResult>)
    requires forall j, j' :: 0 <= j < j' < |results| ==> results[j].line != results[j'].line
    ensures
      var plan := BuildPlan(results);
      && (plan.isPartial <==> plan.backorderLines != [])
      && (forall id :: id in plan.backorderLines <==> Short(results, id))
      && (forall a, b :: 0 <= a < b < |plan.backorderLines| ==> plan.backorderLines[a] != plan.backorderLines[b])
    decreases |results|
  {
    if results != [] {
      hide ShortAt;
      var m := |results| - 1;
      var front, r := results[..m], results[m];
      assert results == front + [r];
      BackordersListed(front);
      var listed := BuildPlan(front).backorderLines;
      forall id ensures Short(results, id) <==> Short(front, id) || (r.line == id && 0 < r.backorder) {
        ShortSnoc(front, r, id);
      }
      assert !Short(front, r.line) by { NotShortBefore(results, m); }
      assert forall a :: 0 <= a < |listed| ==> listed[a] in listed;
      assert forall id :: id in listed + [r.line] <==> id in listed || id == r.line;
    }
  }

  // ----- the main results

  /** A line that got stock and still ends short of its order. */
  predicate EndsShort(before: OrderLine, after: OrderLine) {
    before.allocatedQty < after.allocatedQty < after.ordered
  }

  lemma GrowthOfServed(start: seq<OrderLine>, p: Progress, id: LineId)
    requires PlanInv(start, p)
    ensures 0 <= Growth(p.results, id)
    ensures 0 < Growth(p.results, id) <==> Served(p.results, id)
  {
    forall r | r in p.results ensures 0 < r.totalAllocated {
      var j :| 0 <= j < |p.results| && p.results[j] == r;
      assert Has(start, p.results[j].line);
      var i :| 0 <= i < |start| && start[i].id == p.results[j].line;
      assert SettledBy(p.db, p.lines[i], p.results[j]);
    }
    hide PlanInv;
    SumNonNegative(p.results, TotalFor(id));
    if Served(p.results, id) {
      var j :| 0 <= j < |p.results| && p.results[j].line == id;
      SumCoversElement(p.results, j, TotalFor(id));
    } else {
      SumZero(p.results, TotalFor(id));
    }
  }

  lemma StartsInv(db: Db, lines: seq<OrderLine>)
    requires DistinctWarehouses(db.warehouses)
    ensures PlanInv(lines, Progress(db, lines, []))
  {
  }

  /** What the plan says about one line is what happened to it. */
  ghost predicate LineSound(before: OrderLine, after: OrderLine, plan: Plan) {
    && before.allocatedQty <= after.allocatedQty <= after.ordered == before.ordered
    && (before.allocatedQty < after.allocatedQty ==> after.allocatedQty + after.backorder == after.ordered)
    && (before.allocatedQty == after.allocatedQty ==> after == before)
    && SumOver(plan.lines, PlannedFor(before.id)) == after.allocatedQty - before.allocatedQty
    && (before.id in plan.backorderLines <==> EndsShort(before, after))
  }

  /** The planning theorem. Lines are never over-allocated; a line that got stock is settled; the plan's quantities
      are exactly the new allocations; and the plan is partial exactly when some line that got stock ends short,
      each such line being listed once. Raises from inside an allocation are swallowed, whatever they have written. */
  lemma PlanIsSound(db: Db, lines: seq<OrderLine>, c: Context, selected: seq<WarehouseId>)
    requires DistinctWarehouses(db.warehouses) && DistinctLines(lines)
    requires forall i :: 0 <= i < |lines| ==> lines[i].allocatedQty <= lines[i].ordered
    ensures
      var p := TryWarehouses(Progress(db, lines, []), c, selected);
      var plan := BuildPlan(p.results);
      && (forall i :: 0 <= i < |lines| ==> LineSound(lines[i], p.lines[i], plan))
      && (plan.isPartial <==> exists i :: 0 <= i < |lines| && EndsShort(lines[i], p.lines[i]))
      && (forall a, b :: 0 <= a < b < |plan.backorderLines| ==> plan.backorderLines[a] != plan.backorderLines[b])
  {
    hide LineSound, BuildPlan, PlanInv, TryWarehouses, Short;
    var p := TryWarehouses(Progress(db, lines, []), c, selected);
    var plan := BuildPlan(p.results);
    StartsInv(db, lines);
    TryWarehousesKeeps(lines, Progress(db, lines, []), c, selected);
    PlanInvHolds(lines, p);
    BackordersListed(p.results);
    forall i | 0 <= i < |lines| {
      LineIsSound(lines, p, i);
    }
    BackordersLocated(lines, p, plan);
  }

  lemma BackordersLocated(lines: seq<OrderLine>, p: Progress, plan: Plan)
    requires |p.lines| == |lines| && forall i :: 0 <= i < |lines| ==> LineSound(lines[i], p.lines[i], plan)
    requires forall j :: 0 <= j < |p.results| ==> Has(lines, p.results[j].line)
    requires forall id :: id in plan.backorderLines <==> Short(p.results, id)
    ensures plan.backorderLines != [] <==> exists i :: 0 <= i < |lines| && EndsShort(lines[i], p.lines[i])
  {
    if plan.backorderLines != [] {
      var id := plan.backorderLines[0];
      assert id in plan.backorderLines;
      var j: nat :| ShortAt(p.results, id, j);
      var i :| 0 <= i < |lines| && lines[i].id == id;
      assert LineSound(lines[i], p.lines[i], plan);
    }
    if i :| 0 <= i < |lines| && EndsShort(lines[i], p.lines[i]) {
      assert LineSound(lines[i], p.lines[i], plan);
    }
  }

  lemma LineIsSound(lines: seq<OrderLine>, p: Progress, i: nat)
    requires PlanInv(lines, p) && i < |lines| && lines[i].allocatedQty <= lines[i].ordered
    ensures LineSound(lines[i], p.lines[i], BuildPlan(p.results))
  {
    hide SumOver, TotalDrawn, DistinctWarehouses, TotalAvailable;
    var id := lines[i].id;
    GrowthOfServed(lines, p, id);
    forall j | 0 <= j < |p.results| ensures p.results[j].totalAllocated == TotalDrawn(p.results[j].allocations) {
      assert Has(lines, p.results[j].line);
      var i' :| 0 <= i' < |lines| && lines[i'].id == p.results[j].line;
      assert SettledBy(p.db, p.lines[i'], p.results[j]);
    }
    PlannedIsGrowth(p.results, id);
    BackordersListed(p.results);
    if Served(p.results, id) {
      var j :| 0 <= j < |p.results| && p.results[j].line == id;
      assert SettledBy(p.db, p.lines[i], p.results[j]);
      if EndsShort(lines[i], p.lines[i]) {
        assert ShortAt(p.results, id, j);
      }
    }
    if j: nat :| ShortAt(p.results, id, j) {
      assert SettledBy(p.db, p.lines[i], p.results[j]);
    }
  }

  /** An order for which nothing is available is planned all the same: an empty plan, not marked partial. */
  lemma {:induction false} NothingAvailableStillPlanned(db: Db, lines: seq<OrderLine>, c: Context,
                                                        selected: seq<WarehouseId>)
    requires DistinctWarehouses(db.warehouses)
    requires forall i :: 0 <= i < |lines| ==> TotalAvailable(db, lines[i].sku) == 0
    ensures TryWarehouses(Progress(db, lines, []), c, selected) == Progress(db, lines, [])
    ensures BuildPlan(TryWarehouses(Progress(db, lines, []), c, selected).results) == Plan([], false, [])
    decreases |selected|
  {
    hide TotalAvailable, DistinctWarehouses, TryLine;
    if selected != [] {
      NothingAvailableStillPlanned(db, lines, c, selected[..|selected| - 1]);
      NothingOnOnePass(db, lines, c, selected[|selected| - 1], |lines|);
    }
  }

  lemma NothingDrawable(db: Db, request: AllocationRequest)
    requires DistinctWarehouses(db.warehouses) && TotalAvailable(db, request.sku) == 0
    ensures Unfillable(db, request)
  {
    if w :| ActiveId(db.warehouses, w) && 0 < request.quantity <= AggregatedAvailable(db.balances, w, request.sku) {
      TotalPositive(db, request.sku, Draw(w, request.quantity));
    }
  }

  lemma {:induction false} NothingOnOnePass(db: Db, lines: seq<OrderLine>, c: Context, w: WarehouseId, n: nat)
    requires DistinctWarehouses(db.warehouses) && n <= |lines|
    requires forall i :: 0 <= i < |lines| ==> TotalAvailable(db, lines[i].sku) == 0
    ensures TryLines(Progress(db, lines, []), c, w, n) == Progress(db, lines, [])
  {
    hide TotalAvailable, Allocate;
    if n != 0 {
      NothingOnOnePass(db, lines, c, w, n - 1);
      var request := RequestFor(c, lines[n - 1], w);
      AllocateRaisesExactly(db, request, c.now);
      NothingDrawable(db, request);
    }
  }

  // ----- what each line gets, and when an order counts as planned though it is not filled

  ghost predicate DistinctSkus(lines: seq<OrderLine>) {
    forall i, j :: 0 <= i < j < |lines| ==> lines[i].sku != lines[j].sku
  }

  function Need(line: OrderLine): int { Max(0, line.ordered - line.allocatedQty) }

  /** Some active warehouse holds the whole quantity. */
  ghost predicate WholeSomewhere(db: Db, k: SkuId, q: int) {
    exists w :: ActiveId(db.warehouses, w) && q <= AggregatedAvailable(db.balances, w, k)
  }

  /** What an order's line gets from the tables as they stand before planning. */
  ghost function Expected(db: Db, c: Context, line: OrderLine): int {
    if c.allowSplit then Min(Need(line), TotalAvailable(db, line.sku))
    else if WholeSomewhere(db, line.sku, Need(line)) then Need(line) else 0
  }

  /** The rows of the SKU are the same in both tables, and at the same places. */
  ghost predicate SkuSame(before: seq<Balance>, after: seq<Balance>, k: SkuId) {
    && |before| == |after|
    && forall i :: 0 <= i < |before| ==>
         after[i].sku == before[i].sku && (before[i].sku == k ==> after[i] == before[i])
  }

  lemma {:induction false} HomeSame(before: seq<Balance>, after: seq<Balance>, w: WarehouseId, k: SkuId, from: nat)
    requires SkuSame(before, after, k) && from <= |before|
    ensures FindHome(after, w, k, from) == FindHome(before, w, k, from)
    decreases |before| - from
  {
    if from < |before| {
      HomeSame(before, after, w, k, from + 1);
    }
  }

  lemma SameStock(db: Db, after: Db, k: SkuId)
    requires SkuSame(db.balances, after.balances, k) && after.warehouses == db.warehouses
    ensures forall w :: AggregatedAvailable(after.balances, w, k) == AggregatedAvailable(db.balances, w, k)
    ensures TotalAvailable(after, k) == TotalAvailable(db, k)
    ensures forall w, q :: HomeCovers(after.balances, w, k, q) <==> HomeCovers(db.balances, w, k, q)
  {
    hide SumOver, FindHome, ListActive;
    forall w
      ensures AggregatedAvailable(after.balances, w, k) == AggregatedAvailable(db.balances, w, k)
      ensures GetBalance(after.balances, w, k) == GetBalance(db.balances, w, k)
    {
      SumCongruence(after.balances, db.balances, RawAt(w, k), RawAt(w, k));
      HomeSame(db.balances, after.balances, w, k, 0);
    }
    var ws := ListActive(db.warehouses);
    SumCongruence(ws, ws, AvailableAt(after.balances, k), AvailableAt(db.balances, k));
  }

  /** A request fares alike on two tables with the same rows of its SKU. */
  lemma SameDraws(db: Db, after: Db, request: AllocationRequest)
    requires SkuSame(db.balances, after.balances, request.sku) && after.warehouses == db.warehouses
    ensures DrawsOf(after, request) == DrawsOf(db, request)
    ensures Stops(after.balances, request.sku, DrawsOf(after, request)) <==>
            Stops(db.balances, request.sku, DrawsOf(db, request))
    ensures StopsHalfWay(after, request) <==> StopsHalfWay(db, request)
    ensures Unfillable(after, request) <==> Unfillable(db, request)
  {
    hide SumOver, ListActive, AggregatedAvailable, HomeCovers, SkuSame, TotalAvailable;
    SameStock(db, after, request.sku);
    var ws := ListActive(db.warehouses);
    assert Scores(after.balances, ws, request.sku) == Scores(db.balances, ws, request.sku);
  }

  lemma OtherSkusSame(db: Db, request: AllocationRequest, now: Time, k: SkuId)
    requires k != request.sku
    ensures SkuSame(db.balances, Allocate(db, request, now).0.balances, k)
  {
    hide SumOver, Commit, Rank, Draws;
    CommitEffect(db, request, now, DrawsOf(db, request));
  }

  /** The line's allocation raises when the warehouse is preferred: nothing can be drawn, or a draw is not covered. */
  ghost predicate Fails(db: Db, c: Context, line: OrderLine, w: WarehouseId) {
    || Unfillable(db, RequestFor(c, line, w))
    || Stops(db.balances, line.sku, DrawsOf(db, RequestFor(c, line, w)))
  }

  ghost predicate AllFail(db: Db, c: Context, line: OrderLine, tried: seq<WarehouseId>) {
    forall n :: 0 <= n < |tried| ==> Fails(db, c, line, tried[n])
  }

  /** Where a line stands after some of `total` tries: as it was, and its SKU's rows too while tries remain, or settled
      with what was to be expected. */
  ghost predicate LineFate(db: Db, c: Context, before: OrderLine, now: Db, after: OrderLine, tried: seq<WarehouseId>,
                           total: nat) {
    if after.allocatedQty == before.allocatedQty
    then
      && after == before && AllFail(db, c, before, tried)
      && (|tried| < total ==> SkuSame(db.balances, now.balances, before.sku))
    else
      && after == before.(allocatedQty := before.allocatedQty + Expected(db, c, before), backorder := after.backorder)
      && 0 < Expected(db, c, before) <= Need(before) && !AllFail(db, c, before, tried)
      && (Expected(db, c, before) < Need(before) ==> c.allowSplit && TotalAvailable(now, before.sku) == 0)
  }

  /** The warehouses tried for line `i` when the loops stand at warehouse `s` and line `n`. */
  function Tried(selected: seq<WarehouseId>, s: nat, n: nat, i: nat): seq<WarehouseId>
    requires s < |selected|
  {
    if i < n then selected[..s + 1] else selected[..s]
  }

  ghost predicate Fates(db: Db, c: Context, start: seq<OrderLine>, p: Progress, selected: seq<WarehouseId>, s: nat,
                        n: nat)
    requires s < |selected|
  {
    && p.db.warehouses == db.warehouses && |p.lines| == |start|
    && forall i :: 0 <= i < |start| ==>
         LineFate(db, c, start[i], p.db, p.lines[i], Tried(selected, s, n, i), |selected|)
  }

  /** An open line not served yet gets what was to be expected, or its allocation raises and its SKU's rows stay. */
  lemma NextTry(db: Db, c: Context, line: OrderLine, now: Db, w: WarehouseId)
    requires DistinctWarehouses(db.warehouses) && line.allocatedQty < line.ordered
    requires now.warehouses == db.warehouses && SkuSame(db.balances, now.balances, line.sku)
    ensures
      var (after, result) := Allocate(now, RequestFor(c, line, w), c.now);
      && after.warehouses == db.warehouses
      && if Fails(db, c, line, w)
         then
           && result.Failure?
           && (!StopsHalfWay(db, RequestFor(c, line, w)) ==> SkuSame(db.balances, after.balances, line.sku))
         else
           && result.Success? && result.value.totalAllocated == Expected(db, c, line)
           && 0 < Expected(db, c, line) <= Need(line)
           && (Expected(db, c, line) < Need(line) ==> c.allowSplit && TotalAvailable(after, line.sku) == 0)
  {
    hide SumOver, AggregatedAvailable, ListActive, Allocate, Stops, GetBalance, SkuSame, StopsHalfWay, DrawsOf,
         DistinctWarehouses;
    var request := RequestFor(c, line, w);
    SameDraws(db, now, request);
    SameStock(db, now, line.sku);
    AllocateRaisesExactly(now, request, c.now);
    AvailabilityFalls(now, request, c.now, line.sku);
    if Fails(db, c, line, w) {
      if Stops(now.balances, line.sku, DrawsOf(now, request)) && !StopsHalfWay(now, request) {
        StopsAtOnce(now, request, c.now);
      }
    } else {
      SuccessExpected(db, c, line, now, w);
    }
  }

  lemma SuccessExpected(db: Db, c: Context, line: OrderLine, now: Db, w: WarehouseId)
    requires DistinctWarehouses(db.warehouses) && line.allocatedQty < line.ordered
    requires now.warehouses == db.warehouses && TotalAvailable(now, line.sku) == TotalAvailable(db, line.sku)
    requires forall x :: AggregatedAvailable(now.balances, x, line.sku) == AggregatedAvailable(db.balances, x, line.sku)
    requires Allocate(now, RequestFor(c, line, w), c.now).1.Success?
    ensures
      var (after, result) := Allocate(now, RequestFor(c, line, w), c.now);
      && result.value.totalAllocated == Expected(db, c, line)
      && 0 < Expected(db, c, line) <= Need(line)
      && (Expected(db, c, line) < Need(line) ==> c.allowSplit && TotalAvailable(after, line.sku) == 0)
  {
    hide SumOver, AggregatedAvailable, ListActive, Allocate, DistinctWarehouses;
    var request := RequestFor(c, line, w);
    AllocateMaximal(now, request, c.now);
    var draws := Allocate(now, request, c.now).1.value.allocations;
    if c.allowSplit {
      if 0 < Allocate(now, request, c.now).1.value.backorder {
        ShortfallDrains(now, request, c.now);
      }
    } else {
      var x :| draws == [Draw(x, request.quantity)];
      WholeIsAll(x, request.quantity);
      assert draws[0] in draws;
    }
  }

  lemma WholeIsAll(w: WarehouseId, q: int)
    ensures TotalDrawn([Draw(w, q)]) == q
  {
    SumCons([Draw(w, q)], DrawQuantity());
  }

  /** A settled line that ended short finds nothing more. */
  lemma NothingMore(c: Context, line: OrderLine, now: Db, w: WarehouseId)
    requires DistinctWarehouses(now.warehouses) && c.allowSplit && TotalAvailable(now, line.sku) == 0
    ensures Allocate(now, RequestFor(c, line, w), c.now).1.Failure? &&
            Allocate(now, RequestFor(c, line, w), c.now).0 == now
  {
    hide Allocate, TotalAvailable;
    AllocateRaisesExactly(now, RequestFor(c, line, w), c.now);
  }

  /** Work on another SKU does not change where a line stands. */
  lemma OtherFateKept(db: Db, c: Context, before: OrderLine, now: Db, line: OrderLine, tried: seq<WarehouseId>,
                      total: nat, request: AllocationRequest)
    requires LineFate(db, c, before, now, line, tried, total) && request.sku != before.sku
    ensures LineFate(db, c, before, Allocate(now, request, c.now).0, line, tried, total)
  {
    hide Allocate, TotalAvailable, Expected, SkuSame, AllFail;
    var after := Allocate(now, request, c.now).0;
    OtherSkusSame(now, request, c.now, before.sku);
    AvailabilityFalls(now, request, c.now, before.sku);
    if SkuSame(db.balances, now.balances, before.sku) {
      SameAgain(db.balances, now.balances, after.balances, before.sku);
    }
  }

  lemma OneMoreTry(db: Db, c: Context, line: OrderLine, tried: seq<WarehouseId>, w: WarehouseId)
    ensures AllFail(db, c, line, tried + [w]) <==> AllFail(db, c, line, tried) && Fails(db, c, line, w)
  {
    hide Fails;
    assert (tried + [w])[|tried|] == w;
    assert forall n :: 0 <= n < |tried| ==> (tried + [w])[n] == tried[n];
  }

  /** One turn of a line itself. */
  lemma OwnFate(db: Db, c: Context, before: OrderLine, p: Progress, w: WarehouseId, i: nat, tried: seq<WarehouseId>,
                total: nat)
    requires DistinctWarehouses(db.warehouses) && i < |p.lines| && |tried| < total
    requires |tried| + 1 < total ==> !StopsHalfWay(db, RequestFor(c, before, w))
    requires p.db.warehouses == db.warehouses && LineFate(db, c, before, p.db, p.lines[i], tried, total)
    ensures LineFate(db, c, before, TryLine(p, c, w, i).db, TryLine(p, c, w, i).lines[i], tried + [w], total)
  {
    hide Allocate, TotalAvailable, SkuSame, DistinctWarehouses, Expected, Stops, StopsHalfWay, AllFail;
    var line := p.lines[i];
    OneMoreTry(db, c, before, tried, w);
    if line.allocatedQty < line.ordered {
      if line.allocatedQty == before.allocatedQty {
        NextTry(db, c, line, p.db, w);
      } else {
        NothingMore(c, line, p.db, w);
      }
    }
  }

  lemma TryLineFates(db: Db, c: Context, start: seq<OrderLine>, p: Progress, selected: seq<WarehouseId>, s: nat, n: nat)
    requires DistinctWarehouses(db.warehouses) && DistinctSkus(start) && n < |start| && s < |selected|
    requires Fates(db, c, start, p, selected, s, n)
    requires s + 1 < |selected| ==> !StopsHalfWay(db, RequestFor(c, start[n], selected[s]))
    ensures Fates(db, c, start, TryLine(p, c, selected[s], n), selected, s, n + 1)
  {
    hide Allocate, StopsHalfWay, DistinctWarehouses, LineFate;
    var w := selected[s];
    var request := RequestFor(c, p.lines[n], w);
    assert selected[..s + 1] == selected[..s] + [w];
    OwnFate(db, c, start[n], p, w, n, selected[..s], |selected|);
    SameLine(db, c, start[n], p.db, p.lines[n], selected[..s], |selected|);
    AvailabilityFalls(p.db, request, c.now, request.sku);
    forall j | 0 <= j < |start| && j != n
      ensures LineFate(db, c, start[j], TryLine(p, c, w, n).db, p.lines[j], Tried(selected, s, n + 1, j), |selected|)
    {
      OtherFateKept(db, c, start[j], p.db, p.lines[j], Tried(selected, s, n, j), |selected|, request);
    }
  }

  lemma SameLine(db: Db, c: Context, before: OrderLine, now: Db, line: OrderLine, tried: seq<WarehouseId>, total: nat)
    requires LineFate(db, c, before, now, line, tried, total)
    ensures line.sku == before.sku && line.id == before.id && line.ordered == before.ordered
  {
    hide Expected, SkuSame;
  }

  /** No try but the last stops after it has written a balance, as the tables stand before planning. */
  ghost predicate NoneHalfWay(db: Db, c: Context, lines: seq<OrderLine>, selected: seq<WarehouseId>) {
    forall i, s :: 0 <= i < |lines| && 0 <= s < |selected| - 1 ==>
      !StopsHalfWay(db, RequestFor(c, lines[i], selected[s]))
  }

  lemma {:induction false} TryLinesFates(db: Db, c: Context, start: seq<OrderLine>, p: Progress,
                                         selected: seq<WarehouseId>, s: nat, n: nat)
    requires DistinctWarehouses(db.warehouses) && DistinctSkus(start) && n <= |start| && s < |selected|
    requires Fates(db, c, start, p, selected, s, 0) && NoneHalfWay(db, c, start, selected)
    ensures |p.lines| == |start| && Fates(db, c, start, TryLines(p, c, selected[s], n), selected, s, n)
    decreases n
  {
    hide LineFate, StopsHalfWay, DistinctWarehouses, TryLine;
    if n != 0 {
      TryLinesFates(db, c, start, p, selected, s, n - 1);
      TryLineFates(db, c, start, TryLines(p, c, selected[s], n - 1), selected, s, n - 1);
    }
  }

  lemma {:induction false} TryWarehousesFates(db: Db, c: Context, start: seq<OrderLine>, selected: seq<WarehouseId>,
                                              s: nat)
    requires DistinctWarehouses(db.warehouses) && DistinctSkus(start) && s < |selected|
    requires NoneHalfWay(db, c, start, selected)
    ensures Fates(db, c, start, TryWarehouses(Progress(db, start, []), c, selected[..s + 1]), selected, s, |start|)
    decreases s
  {
    hide LineFate, NoneHalfWay, DistinctWarehouses, TryLines;
    assert selected[..s + 1][..s] == selected[..s];
    var front := TryWarehouses(Progress(db, start, []), c, selected[..s]);
    if s == 0 {
      FatesStart(db, c, start, selected);
    } else {
      TryWarehousesFates(db, c, start, selected, s - 1);
    }
    TryLinesFates(db, c, start, front, selected, s, |start|);
  }

  lemma FatesStart(db: Db, c: Context, start: seq<OrderLine>, selected: seq<WarehouseId>)
    requires selected != []
    ensures Fates(db, c, start, Progress(db, start, []), selected, 0, 0)
  {
    assert selected[..0] == [];
  }

  /** The line is open and fails at every selected warehouse. */
  ghost predicate GetsNothing(db: Db, c: Context, line: OrderLine, selected: seq<WarehouseId>) {
    0 < Need(line) && AllFail(db, c, line, selected)
  }

  /** What planning gives each line, as a function of the order and the tables beforehand: nothing if it fails at every
      selected warehouse, otherwise all it needs or, split, all there is. */
  lemma LinesGetExpected(db: Db, c: Context, lines: seq<OrderLine>, selected: seq<WarehouseId>, i: nat)
    requires DistinctWarehouses(db.warehouses) && DistinctSkus(lines) && selected != [] && i < |lines|
    requires NoneHalfWay(db, c, lines, selected) && lines[i].allocatedQty <= lines[i].ordered
    ensures
      var after := TryWarehouses(Progress(db, lines, []), c, selected).lines[i];
      && after.ordered == lines[i].ordered
      && (Need(lines[i]) == 0 || GetsNothing(db, c, lines[i], selected) ==> after == lines[i])
      && (0 < Need(lines[i]) && !GetsNothing(db, c, lines[i], selected) ==>
            && 0 < Expected(db, c, lines[i]) <= Need(lines[i])
            && after.allocatedQty == lines[i].allocatedQty + Expected(db, c, lines[i]))
  {
    hide DistinctWarehouses, TryWarehouses, Expected, TotalAvailable, AllFail, NoneHalfWay;
    var s := |selected| - 1;
    assert selected[..s + 1] == selected;
    TryWarehousesFates(db, c, lines, selected, s);
    assert LineFate(db, c, lines[i], TryWarehouses(Progress(db, lines, []), c, selected).db,
                    TryWarehouses(Progress(db, lines, []), c, selected).lines[i], selected, |selected|);
  }

  ghost predicate Unfilled(lines: seq<OrderLine>) {
    exists i :: 0 <= i < |lines| && lines[i].allocatedQty < lines[i].ordered
  }

  /** Exactly when an order is marked as planned, not as partially allocated, and still leaves a line unfilled: some
      open line gets nothing, and, if lines may be split, every other open line finds all it needs. */
  lemma PlannedYetUnfilledIff(db: Db, lines: seq<OrderLine>, c: Context, selected: seq<WarehouseId>)
    requires DistinctWarehouses(db.warehouses) && DistinctLines(lines) && DistinctSkus(lines) && selected != []
    requires NoneHalfWay(db, c, lines, selected)
    requires forall i :: 0 <= i < |lines| ==> lines[i].allocatedQty <= lines[i].ordered
    ensures
      var p := TryWarehouses(Progress(db, lines, []), c, selected);
      !BuildPlan(p.results).isPartial && Unfilled(p.lines) <==>
      && (exists i :: 0 <= i < |lines| && GetsNothing(db, c, lines[i], selected))
      && (c.allowSplit ==> forall i :: 0 <= i < |lines| ==>
            GetsNothing(db, c, lines[i], selected) || Need(lines[i]) <= TotalAvailable(db, lines[i].sku))
  {
    hide NoneHalfWay, DistinctWarehouses, TryWarehouses, BuildPlan, LineSound, GetsNothing, TotalAvailable;
    var p := TryWarehouses(Progress(db, lines, []), c, selected);
    PlanIsSound(db, lines, c, selected);
    forall i | 0 <= i < |lines|
      ensures p.lines[i].ordered == lines[i].ordered
      ensures GetsNothing(db, c, lines[i], selected) ==>
                p.lines[i] == lines[i] && p.lines[i].allocatedQty < p.lines[i].ordered
      ensures !GetsNothing(db, c, lines[i], selected) ==>
                (p.lines[i].allocatedQty < p.lines[i].ordered <==> EndsShort(lines[i], p.lines[i]))
      ensures !GetsNothing(db, c, lines[i], selected) ==>
                (EndsShort(lines[i], p.lines[i]) <==> c.allowSplit && TotalAvailable(db, lines[i].sku) < Need(lines[i]))
    {
      LinesGetExpected(db, c, lines, selected, i);
      OpenIfNothing(db, c, lines[i], selected);
      TotalNonNegative(db, lines[i].sku);
    }
    if i :| 0 <= i < |lines| && GetsNothing(db, c, lines[i], selected) {
      assert p.lines[i].allocatedQty < p.lines[i].ordered;
    }
    if !BuildPlan(p.results).isPartial && Unfilled(p.lines) {
      var i :| 0 <= i < |p.lines| && p.lines[i].allocatedQty < p.lines[i].ordered;
      assert !EndsShort(lines[i], p.lines[i]);
      assert GetsNothing(db, c, lines[i], selected);
    }
  }

  lemma OpenIfNothing(db: Db, c: Context, line: OrderLine, selected: seq<WarehouseId>)
    ensures GetsNothing(db, c, line, selected) ==> line.allocatedQty < line.ordered
  {
  }

  lemma TotalNonNegative(db: Db, k: SkuId)
    ensures 0 <= TotalAvailable(db, k)
  {
    SumNonNegative(ListActive(db.warehouses), AvailableAt(db.balances, k));
  }

  /** With the stock of its SKU in home rows, an open line gets nothing exactly when there is nothing to split, or no
      warehouse holds all it needs, and no try stops half-way. */
  lemma HomeStockGetsNothingIff(db: Db, c: Context, line: OrderLine, selected: seq<WarehouseId>)
    requires DistinctWarehouses(db.warehouses) && Coverable(db, line.sku) && selected != []
    ensures forall s :: 0 <= s < |selected| ==> !StopsHalfWay(db, RequestFor(c, line, selected[s]))
    ensures GetsNothing(db, c, line, selected) <==>
            && 0 < Need(line)
            && if c.allowSplit then TotalAvailable(db, line.sku) == 0 else !WholeSomewhere(db, line.sku, Need(line))
  {
    hide DistinctWarehouses, Coverable, TotalAvailable, AggregatedAvailable, Stops, DrawsOf;
    forall s | 0 <= s < |selected|
      ensures !Stops(db.balances, line.sku, DrawsOf(db, RequestFor(c, line, selected[s])))
    {
      CoverableNeverStops(db, RequestFor(c, line, selected[s]));
    }
    if 0 < Need(line) {
      var request := RequestFor(c, line, selected[0]);
      assert Unfillable(db, request) <==>
        if c.allowSplit then TotalAvailable(db, line.sku) == 0 else !WholeSomewhere(db, line.sku, Need(line));
      if Unfillable(db, request) {
        assert forall s :: 0 <= s < |selected| ==> Unfillable(db, RequestFor(c, line, selected[s]));
      } else {
        assert !Fails(db, c, line, selected[0]);
      }
    }
  }

  ghost predicate NothingFor(db: Db, c: Context, line: OrderLine) {
    && 0 < Need(line)
    && if c.allowSplit then TotalAvailable(db, line.sku) == 0 else !WholeSomewhere(db, line.sku, Need(line))
  }

  /** With home stock, an order is marked as planned and leaves a line unfilled exactly when there is nothing for some
      open line and, if lines may be split, enough for every other. */
  lemma HomeStockUnfilledIff(db: Db, lines: seq<OrderLine>, c: Context, selected: seq<WarehouseId>)
    requires DistinctWarehouses(db.warehouses) && DistinctLines(lines) && DistinctSkus(lines) && selected != []
    requires forall i :: 0 <= i < |lines| ==> Coverable(db, lines[i].sku)
    requires forall i :: 0 <= i < |lines| ==> lines[i].allocatedQty <= lines[i].ordered
    ensures
      var p := TryWarehouses(Progress(db, lines, []), c, selected);
      !BuildPlan(p.results).isPartial && Unfilled(p.lines) <==>
      && (exists i :: 0 <= i < |lines| && NothingFor(db, c, lines[i]))
      && (c.allowSplit ==> forall i :: 0 <= i < |lines| && 0 < TotalAvailable(db, lines[i].sku) ==>
            Need(lines[i]) <= TotalAvailable(db, lines[i].sku))
  {
    hide DistinctWarehouses, TryWarehouses, BuildPlan, GetsNothing, Unfilled, Coverable, TotalAvailable, StopsHalfWay;
    forall i | 0 <= i < |lines|
      ensures forall s :: 0 <= s < |selected| ==> !StopsHalfWay(db, RequestFor(c, lines[i], selected[s]))
      ensures GetsNothing(db, c, lines[i], selected) <==> NothingFor(db, c, lines[i])
      ensures 0 <= TotalAvailable(db, lines[i].sku)
    {
      HomeStockGetsNothingIff(db, c, lines[i], selected);
      TotalNonNegative(db, lines[i].sku);
    }
    PlannedYetUnfilledIff(db, lines, c, selected);
  }

  /** Stock on a location row can leave a line open though the network shows all it needs: ten units are shown, five of
      them at a home row, and the order for ten is marked as planned with nothing allocated. */
  lemma SwallowedStopUnfilled()
    ensures
      var db := Db([Warehouse(1, true, 1), Warehouse(2, true, 1)],
                   [Balance(1, 0, None, 5, 0, 0, 0, 0, 0, 1), Balance(2, 0, Some(7), 5, 0, 0, 0, 0, 0, 1)], [], []);
      var p := TryWarehouses(Progress(db, [OrderLine(0, 0, 10, 0, 0)], []), Context(0, true, 0), [1]);
      && TotalAvailable(db, 0) == 10
      && !BuildPlan(p.results).isPartial && p.lines == [OrderLine(0, 0, 10, 0, 0)]
  {
    hide TotalAvailable, TryWarehouses, BuildPlan, Stops, DrawsOf, StopsHalfWay;
    var db := Db([Warehouse(1, true, 1), Warehouse(2, true, 1)],
                 [Balance(1, 0, None, 5, 0, 0, 0, 0, 0, 1), Balance(2, 0, Some(7), 5, 0, 0, 0, 0, 0, 1)], [], []);
    var line, c := OrderLine(0, 0, 10, 0, 0), Context(0, true, 0);
    TwoWarehousesDraw(db, RequestFor(c, line, 1));
    HalfWayStops(db, RequestFor(c, line, 1));
    assert GetsNothing(db, c, line, [1]);
    assert GetsNothing(db, c, [line][0], [1]);
    LinesGetExpected(db, c, [line], [1], 0);
    PlannedYetUnfilledIff(db, [line], c, [1]);
  }

  lemma HalfWayStops(db: Db, request: AllocationRequest)
    requires StopsHalfWay(db, request)
    ensures Stops(db.balances, request.sku, DrawsOf(db, request))
  {
  }

  lemma SameAgain(a: seq<Balance>, b: seq<Balance>, c: seq<Balance>, k: SkuId)
    requires SkuSame(a, b, k) && SkuSame(b, c, k)
    ensures SkuSame(a, c, k)
  {
  }

  /** Exactly which plan lines name the reservation that holds their own units: the first of each result. */
  lemma PlanLineNamesItsReservationIff(db: Db, request: AllocationRequest, now: Time, n: nat)
    requires DistinctWarehouses(db.warehouses)
    requires Allocate(db, request, now).1.Success? && n < |Allocate(db, request, now).1.value.allocations|
    ensures
      var (after, result) := Allocate(db, request, now);
      var r := result.value;
      var line := LinesOf(r, n + 1)[|LinesOf(r, n + 1)| - 1];
      && line.reservation.Some? && line.reservation.value < |after.reservations|
      && (after.reservations[line.reservation.value].warehouse == line.warehouse <==> n == 0)
  {
    var draws := Allocate(db, request, now).1.value.allocations;
    AllocateMaximal(db, request, now);
    CommitReserves(db, request, now, draws);
    ReleaseLaws.NewIdsAre(|db.reservations|, |draws|);
    hide Commit, Draws, Rank;
    if 0 < n {
      assert DrawKey()(draws[0]) != DrawKey()(draws[n]);
    }
  }
}
