/** The purchase-order life cycle: its manager, and what every run of transactional requests keeps. */
module PurchaseOrders {
  import opened Sums
  import opened Tables

  type PurchaseOrderId = nat

  datatype Status = Draft | Submitted | Acknowledged | PartiallyReceived | Received | Closed | Cancelled

  datatype Line = Line(id: nat, ordered: int, received: int, unitCost: real, closed: bool)

  /** A purchase order; its id is its position in the table. */
  datatype Order = Order(warehouse: WarehouseId, supplier: nat, status: Status, lines: seq<Line>,
                         expectedDelivery: Option<Time>, notes: string)

  datatype Error = ValidationError | WorkflowError | NotFoundError

  datatype Result = Ok(order: Order) | Failed(error: Error)

  datatype Call =
    | SubmitOrder(id: PurchaseOrderId)
    | AcknowledgeOrder(id: PurchaseOrderId, expected: Option<Time>)
    | Receipt(id: PurchaseOrderId, quantities: map<nat, int>)
    | CloseOrder(id: PurchaseOrderId)
    | CancelOrder(id: PurchaseOrderId, reason: string)

  function Transitions(s: Status): set<Status> {
    match s
    case Draft => {Submitted, Cancelled}
    case Submitted => {Acknowledged, Cancelled}
    case Acknowledged => {PartiallyReceived, Status.Received, Cancelled}
    case PartiallyReceived => {Status.Received, Closed}
    case Received => {Closed}
    case Closed => {}
    case Cancelled => {}
  }

  // ----- the receipt pass over an order's lines

  /** The lines after the pass has stood at line `n`, and the line that raised, if any. */
  datatype Pass = Pass(lines: seq<Line>, failed: Option<nat>)

  predicate OverReceives(line: Line, quantities: map<nat, int>) {
    line.id in quantities && line.received + quantities[line.id] > line.ordered
  }

  function Taken(line: Line, quantities: map<nat, int>): Line {
    if line.id !in quantities then line
    else
      var received := line.received + quantities[line.id];
      line.(received := received, closed := line.closed || received >= line.ordered)
  }

  function ReceiptPass(lines: seq<Line>, quantities: map<nat, int>, n: nat): (p: Pass)
    requires n <= |lines|
    ensures |p.lines| == |lines| && (p.failed.Some? ==> p.failed.value < n)
  {
    if n == 0 then Pass(lines, None)
    else
      var p := ReceiptPass(lines, quantities, n - 1);
      if p.failed.Some? then p
      else if OverReceives(p.lines[n - 1], quantities) then Pass(p.lines, Some(n - 1))
      else Pass(p.lines[n - 1 := Taken(p.lines[n - 1], quantities)], None)
  }

  predicate AllClosed(lines: seq<Line>) { forall i :: 0 <= i < |lines| ==> lines[i].closed }

  predicate AnyReceived(lines: seq<Line>) { exists i :: 0 <= i < |lines| && lines[i].received > 0 }

  function StatusAfter(s: Status, lines: seq<Line>): Status {
    if AllClosed(lines) then Status.Received else if AnyReceived(lines) then PartiallyReceived else s
  }

  // ----- each call as a function of the tables

  datatype Outcome = Outcome(orders: seq<Order>, result: Result)

  function Refused(orders: seq<Order>, e: Error): Outcome { Outcome(orders, Failed(e)) }

  function Accepted(orders: seq<Order>, id: PurchaseOrderId, order: Order): Outcome
    requires id < |orders|
  {
    Outcome(orders[id := order], Ok(order))
  }

  /** What one call does within its session; a failed receipt keeps what it did before it raised. */
  function Apply(orders: seq<Order>, active: seq<bool>, call: Call): Outcome {
    if call.id >= |orders| then
      Refused(orders, if call.SubmitOrder? || call.Receipt? then ValidationError else NotFoundError)
    else
      var order := orders[call.id];
      match call
      case SubmitOrder(id) =>
        if Submitted !in Transitions(order.status) then Refused(orders, WorkflowError)
        else if order.lines == [] then Refused(orders, ValidationError)
        else if order.supplier >= |active| || !active[order.supplier] then Refused(orders, ValidationError)
        else Accepted(orders, id, order.(status := Submitted))
      case AcknowledgeOrder(id, expected) =>
        if Acknowledged !in Transitions(order.status) then Refused(orders, WorkflowError)
        else Accepted(orders, id, order.(status := Acknowledged,
                                         expectedDelivery :=
                                           if expected.Some? then expected else order.expectedDelivery))
      case Receipt(id, quantities) =>
        if order.status != Acknowledged && order.status != PartiallyReceived then Refused(orders, WorkflowError)
        else
          var p := ReceiptPass(order.lines, quantities, |order.lines|);
          if p.failed.Some? then Refused(orders[id := order.(lines := p.lines)], ValidationError)
          else Accepted(orders, id, order.(lines := p.lines, status := StatusAfter(order.status, p.lines)))
      case CloseOrder(id) =>
        if Closed !in Transitions(order.status) then Refused(orders, WorkflowError)
        else Accepted(orders, id, order.(status := Closed))
      case CancelOrder(id, reason) =>
        if Cancelled !in Transitions(order.status) then Refused(orders, WorkflowError)
        else Accepted(orders, id, order.(status := Cancelled, notes := "Cancelled: " + reason))
  }

  function LineValue(): Line -> real { (l: Line) => (l.ordered - l.received) as real * l.unitCost }

  predicate IsOpen(s: Status) { s in {Submitted, Acknowledged, PartiallyReceived} }

  function OpenValueAt(w: WarehouseId): Order -> real {
    (o: Order) => if o.warehouse == w && IsOpen(o.status) then RealSumOver(o.lines, LineValue()) else 0.0
  }

  /** The value still to come on the warehouse's open orders. */
  function OpenValue(orders: seq<Order>, w: WarehouseId): real { RealSumOver(orders, OpenValueAt(w)) }

  class PurchaseOrderManager {
    var orders: seq<Order>
    /** Which suppliers, by id, are active. */
    var active: seq<bool>

    constructor (orders: seq<Order>, active: seq<bool>)
      ensures this.orders == orders && this.active == active
    {
      this.orders, this.active := orders, active;
    }

    method Submit(id: PurchaseOrderId) returns (result: Result)
      modifies this`orders
      ensures Outcome(orders, result) == Apply(old(orders), active, SubmitOrder(id))
    {
      if id >= |orders| {
        return Failed(ValidationError);
      }
      var order := orders[id];
      if Submitted !in Transitions(order.status) {
        return Failed(WorkflowError);
      }
      if order.lines == [] {
        return Failed(ValidationError);
      }
      if order.supplier >= |active| || !active[order.supplier] {
        return Failed(ValidationError);
      }
      orders := orders[id := order.(status := Submitted)];
      return Ok(orders[id]);
    }

    method Acknowledge(id: PurchaseOrderId, expected: Option<Time>) returns (result: Result)
      modifies this`orders
      ensures Outcome(orders, result) == Apply(old(orders), active, AcknowledgeOrder(id, expected))
    {
      if id >= |orders| {
        return Failed(NotFoundError);
      }
      var order := orders[id];
      if Acknowledged !in Transitions(order.status) {
        return Failed(WorkflowError);
      }
      order := order.(status := Acknowledged);
      if expected.Some? {
        order := order.(expectedDelivery := expected);
      }
      orders := orders[id := order];
      return Ok(order);
    }

    method RecordReceipt(id: PurchaseOrderId, quantities: map<nat, int>) returns (result: Result)
      modifies this`orders
      ensures Outcome(orders, result) == Apply(old(orders), active, Receipt(id, quantities))
    {
      if id >= |orders| {
        return Failed(ValidationError);
      }
      var status, count := orders[id].status, |orders[id].lines|;
      if status != Acknowledged && status != PartiallyReceived {
        return Failed(WorkflowError);
      }
      ghost var order := orders[id];
      for n := 0 to count
        invariant orders == old(orders)[id := order.(lines := ReceiptPass(order.lines, quantities, n).lines)]
        invariant ReceiptPass(order.lines, quantities, n).failed.None?
      {
        var line := orders[id].lines[n];
        if line.id in quantities {
          var quantity := quantities[line.id];
          if line.received + quantity > line.ordered {
            PassStops(order.lines, quantities, n + 1, count);
            return Failed(ValidationError);
          }
          line := line.(received := line.received + quantity);
          if line.received >= line.ordered {
            line := line.(closed := true);
          }
          orders := orders[id := orders[id].(lines := orders[id].lines[n := line])];
        } else {
          assert orders[id].lines[n := line] == orders[id].lines;
        }
      }
      if AllClosed(orders[id].lines) {
        orders := orders[id := orders[id].(status := Status.Received)];
      } else if AnyReceived(orders[id].lines) {
        orders := orders[id := orders[id].(status := PartiallyReceived)];
      }
      return Ok(orders[id]);
    }

    method Close(id: PurchaseOrderId) returns (result: Result)
      modifies this`orders
      ensures Outcome(orders, result) == Apply(old(orders), active, CloseOrder(id))
    {
      if id >= |orders| {
        return Failed(NotFoundError);
      }
      if Closed !in Transitions(orders[id].status) {
        return Failed(WorkflowError);
      }
      orders := orders[id := orders[id].(status := Closed)];
      return Ok(orders[id]);
    }

    method Cancel(id: PurchaseOrderId, reason: string) returns (result: Result)
      modifies this`orders
      ensures Outcome(orders, result) == Apply(old(orders), active, CancelOrder(id, reason))
    {
      if id >= |orders| {
        return Failed(NotFoundError);
      }
      var order := orders[id];
      if Cancelled !in Transitions(order.status) {
        return Failed(WorkflowError);
      }
      if order.status == Status.Received || order.status == PartiallyReceived {
        return Failed(WorkflowError);
      }
      orders := orders[id := order.(status := Cancelled, notes := "Cancelled: " + reason)];
      return Ok(orders[id]);
    }

    method CalculateOpenPOValue(w: WarehouseId) returns (total: real)
      ensures total == OpenValue(orders, w)
    {
      total := 0.0;
      assert orders[..0] == [];
      for i := 0 to |orders|
        invariant total == RealSumOver(orders[..i], OpenValueAt(w))
      {
        RealSumPrefix(orders, i, OpenValueAt(w));
        if orders[i].warehouse == w && IsOpen(orders[i].status) {
          var lines := orders[i].lines;
          ghost var before := total;
          assert lines[..0] == [];
          for j := 0 to |lines|
            invariant total == before + RealSumOver(lines[..j], LineValue())
          {
            RealSumPrefix(lines, j, LineValue());
            total := total + (lines[j].ordered - lines[j].received) as real * lines[j].unitCost;
          }
          assert lines[..|lines|] == lines;
        }
      }
      assert orders[..|orders|] == orders;
    }

    /** One request: the session commits when the call returns and rolls back when it raises. */
    method Request(call: Call) returns (result: Result)
      modifies this`orders
      ensures result == Apply(old(orders), active, call).result
      ensures orders == Next(old(orders), active, call)
    {
      var committed := orders;
      match call {
        case SubmitOrder(id) => result := Submit(id);
        case AcknowledgeOrder(id, expected) => result := Acknowledge(id, expected);
        case Receipt(id, quantities) => result := RecordReceipt(id, quantities);
        case CloseOrder(id) => result := Close(id);
        case CancelOrder(id, reason) => result := Cancel(id, reason);
      }
      if result.Failed? {
        orders := committed;
      }
    }
  }

  /** A call in a transaction of its own: a failed one changes nothing. */
  function Next(orders: seq<Order>, active: seq<bool>, call: Call): seq<Order> {
    var outcome := Apply(orders, active, call);
    if outcome.result.Ok? then outcome.orders else orders
  }

  lemma {:induction false} PassStops(lines: seq<Line>, quantities: map<nat, int>, n: nat, m: nat)
    requires n <= m <= |lines| && ReceiptPass(lines, quantities, n).failed.Some?
    ensures ReceiptPass(lines, quantities, m) == ReceiptPass(lines, quantities, n)
    decreases m
  {
    if n < m {
      PassStops(lines, quantities, n, m - 1);
    }
  }
}
