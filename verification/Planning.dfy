/** Fulfillment planning: allocating every line of an order and summing up the plan. */
module Planning {
  import opened Sums
  import opened Sorting
  import opened Tables
  import opened Allocation
  import opened AllocationLaws
  import opened ReleaseLaws
  import opened InventoryServiceModel

  datatype OrderStatus =
    | OrderReceived | Validating | Allocating | PartiallyAllocated | FulfillmentPlanned | OrderPicking
    | Packed | OrderShipped | Delivered | Cancelled | Backordered

  datatype OrderLine = OrderLine(id: LineId, sku: SkuId, ordered: int, allocatedQty: int, backorder: int)

  datatype PlanLine = PlanLine(line: LineId, quantity: int, warehouse: WarehouseId, reservation: Option<nat>)

  datatype Plan = Plan(lines: seq<PlanLine>, isPartial: bool, backorderLines: seq<LineId>)

  datatype PlanOutcome = Planned(plan: Plan) | OrderNotFound | NoLines | TerminalState | RoutingFailed

  /** What the allocation loops carry along: the tables, the order's lines and the results so far. */
  datatype Progress = Progress(db: Db, lines: seq<OrderLine>, results: seq<AllocationResult>)

  /** The order being planned, as the requests see it. */
  datatype Context = Context(order: OrderId, allowSplit: bool, now: Time)

  function RequestFor(c: Context, line: OrderLine, w: WarehouseId): AllocationRequest {
    AllocationRequest(c.order, line.id, line.sku, line.ordered - line.allocatedQty, Some(w), c.allowSplit)
  }

  /** One line tried against one preferred warehouse; a failed allocation is swallowed. */
  function TryLine(p: Progress, c: Context, w: WarehouseId, i: nat): Progress
    requires i < |p.lines|
  {
    var line := p.lines[i];
    if line.ordered - line.allocatedQty <= 0 then p
    else
      var (after, result) := Allocate(p.db, RequestFor(c, line, w), c.now);
      match result
      case Failure(_) => p.(db := after)
      case Success(r) =>
        Progress(after,
                 p.lines[i := line.(allocatedQty := line.allocatedQty + r.totalAllocated, backorder := r.backorder)],
                 p.results + [r])
  }

  function TryLines(p: Progress, c: Context, w: WarehouseId, n: nat): (r: Progress)
    requires n <= |p.lines|
    ensures |r.lines| == |p.lines|
  {
    if n == 0 then p else TryLine(TryLines(p, c, w, n - 1), c, w, n - 1)
  }

  function TryWarehouses(p: Progress, c: Context, selected: seq<WarehouseId>): (r: Progress)
    ensures |r.lines| == |p.lines|
    decreases |selected|
  {
    if selected == [] then p
    else
      var front := TryWarehouses(p, c, selected[..|selected| - 1]);
      TryLines(front, c, selected[|selected| - 1], |front.lines|)
  }

  /** Every plan line of a result carries the first reservation of that result. */
  function LinesOf(r: AllocationResult, n: nat): seq<PlanLine>
    requires n <= |r.allocations|
  {
    if n == 0 then []
    else
      var d := r.allocations[n - 1];
      LinesOf(r, n - 1) +
        [PlanLine(r.line, d.quantity, d.warehouse, if r.reservationIds == [] then None else Some(r.reservationIds[0]))]
  }

  function BuildPlan(results: seq<AllocationResult>): Plan {
    if results == [] then Plan([], false, [])
    else
      var front := BuildPlan(results[..|results| - 1]);
      var r := results[|results| - 1];
      Plan(front.lines + LinesOf(r, |r.allocations|), front.isPartial || 0 < r.backorder,
           if 0 < r.backorder then front.backorderLines + [r.line] else front.backorderLines)
  }

  class Order {
    const id: OrderId
    const allowPartial: bool
    var lines: seq<OrderLine>
    var status: OrderStatus

    constructor (id: OrderId, allowPartial: bool, lines: seq<OrderLine>)
      ensures this.id == id && this.allowPartial == allowPartial && this.lines == lines && status == OrderReceived
    {
      this.id, this.allowPartial, this.lines, this.status := id, allowPartial, lines, OrderReceived;
    }
  }

  class FulfillmentPlanner {
    const session: Session
    const engine: AllocationEngine

    constructor (session: Session)
      ensures this.session == session && engine.session == session
    {
      this.session := session;
      this.engine := new AllocationEngine(session);
    }

    /** The routing decision comes from outside: the selected warehouses, or none if routing raised. */
    method PlanFulfillment(order: Order?, selected: Option<seq<WarehouseId>>, now: Time) returns (outcome: PlanOutcome)
      requires engine.session == session
      modifies session, order
      ensures outcome.OrderNotFound? <==> order == null
      ensures outcome.NoLines? <==> order != null && old(order.lines) == []
      ensures outcome.TerminalState? <==>
                order != null && old(order.lines) != [] && old(order.status) in {OrderShipped, Delivered, Cancelled}
      ensures !outcome.Planned? ==> session.View() == old(session.View())
      ensures outcome.RoutingFailed? ==> order.status == Validating && order.lines == old(order.lines)
      ensures outcome.Planned? ==>
                && order != null && selected.Some?
                && var p := TryWarehouses(Progress(old(session.View()), old(order.lines), []),
                                          Context(order.id, order.allowPartial, now), selected.value);
                   && session.View() == p.db && order.lines == p.lines && outcome.plan == BuildPlan(p.results)
                   && order.status == if outcome.plan.isPartial then PartiallyAllocated else FulfillmentPlanned
    {
      if order == null {
        return OrderNotFound;
      }
      if order.lines == [] {
        return NoLines;
      }
      if order.status in {OrderShipped, Delivered, Cancelled} {
        return TerminalState;
      }
      order.status := Validating;
      if selected.None? {
        return RoutingFailed;
      }
      var results := AllocateInventory(order, selected.value, now);
      var plan := Build(results);
      order.status := if plan.isPartial then PartiallyAllocated else FulfillmentPlanned;
      return Planned(plan);
    }

    method AllocateInventory(order: Order, selected: seq<WarehouseId>, now: Time)
      returns (results: seq<AllocationResult>)
      requires engine.session == session
      modifies session, order`lines
      ensures Progress(session.View(), order.lines, results)
           == TryWarehouses(Progress(old(session.View()), old(order.lines), []),
                            Context(order.id, order.allowPartial, now), selected)
    {
      hide Allocate;
      ghost var start := Progress(session.View(), order.lines, []);
      ghost var c := Context(order.id, order.allowPartial, now);
      results := [];
      for s := 0 to |selected|
        invariant Progress(session.View(), order.lines, results) == TryWarehouses(start, c, selected[..s])
      {
        ghost var p := Progress(session.View(), order.lines, results);
        assert selected[..s + 1][..s] == selected[..s];
        for i := 0 to |order.lines|
          invariant |order.lines| == |p.lines|
          invariant Progress(session.View(), order.lines, results) == TryLines(p, c, selected[s], i)
        {
          var line := order.lines[i];
          var needed := line.ordered - line.allocatedQty;
          if 0 < needed {
            var request :=
              AllocationRequest(order.id, line.id, line.sku, needed, Some(selected[s]), order.allowPartial);
            var result := engine.AllocateStock(request, now);
            if result.Success? {
              results := results + [result.value];
              order.lines := order.lines[i := line.(allocatedQty := line.allocatedQty + result.value.totalAllocated,
                                                    backorder := result.value.backorder)];
            }
          }
        }
      }
      assert selected[..|selected|] == selected;
    }

    method Build(results: seq<AllocationResult>) returns (plan: Plan)
      ensures plan == BuildPlan(results)
    {
      plan := Plan([], false, []);
      for j := 0 to |results|
        invariant plan == BuildPlan(results[..j])
      {
        assert results[..j + 1][..j] == results[..j];
        var r := results[j];
        var lines := plan.lines;
        for n := 0 to |r.allocations|
          invariant lines == plan.lines + LinesOf(r, n)
        {
          var d := r.allocations[n];
          lines := lines +
            [PlanLine(r.line, d.quantity, d.warehouse,
                      if r.reservationIds == [] then None else Some(r.reservationIds[0]))];
        }
        plan := Plan(lines, plan.isPartial || 0 < r.backorder,
                     if 0 < r.backorder then plan.backorderLines + [r.line] else plan.backorderLines);
      }
      assert results[..|results|] == results;
    }
  }
}
