/** Shipments generated from fulfillment plans, and their state machine. */
module Shipments {
  import opened Tables

  type ShipmentId = nat
  type PlanId = nat

  datatype Status =
    | Draft | Planned | Consolidated | LabelGenerated | InTransit | OutForDelivery | Exception | Delivered | Cancelled
    | Unknown(name: string)

  function Transitions(s: Status): set<Status> {
    match s
    case Draft => {Planned, Cancelled}
    case Planned => {Consolidated, LabelGenerated, Cancelled}
    case Consolidated => {LabelGenerated, Cancelled}
    case LabelGenerated => {Status.InTransit, Cancelled}
    case InTransit => {OutForDelivery, Exception, Delivered}
    case OutForDelivery => {Delivered, Exception}
    case Exception => {Status.InTransit, Cancelled}
    case Delivered => {}
    case Cancelled => {}
    case Unknown(_) => {}
  }

  datatype Entry = Entry(status: Status, at: Time, previous: Option<Status>)

  /** A shipment row; its id is its position in the table. */
  datatype Shipment = Shipment(order: OrderId, warehouse: WarehouseId, status: Status, history: seq<Entry>,
                               version: int, actualDelivery: Option<Time>)

  datatype PlanStatus = PlanPlanned | PlanExecuting | PlanOther(name: string)

  datatype Plan = Plan(order: OrderId, warehouse: WarehouseId, status: PlanStatus)
  {
    predicate Live() { status.PlanPlanned? || status.PlanExecuting? }
  }

  datatype StopKind = Pickup | Delivery

  datatype Stop = Stop(shipment: ShipmentId, sequence: nat, kind: StopKind)

  datatype Error = NotFoundError | ShipmentStateError(current: Status, target: Status)

  datatype Result = Ok(id: ShipmentId) | Failed(error: Error)

  datatype State = State(plans: seq<Plan>, orders: set<OrderId>, warehouses: set<WarehouseId>,
                         shipments: seq<Shipment>, stops: seq<Stop>)

  // ----- the two operations as functions of the tables

  function NewShipment(plan: Plan, now: Time): Shipment {
    Shipment(plan.order, plan.warehouse, Draft, [Entry(Draft, now, None)], 1, None)
  }

  function Moved(s: Shipment, target: Status, now: Time): Shipment {
    s.(status := target, history := s.history + [Entry(target, now, Some(s.status))], version := s.version + 1,
       actualDelivery := if target == Delivered then Some(now) else s.actualDelivery)
  }

  datatype Call = Generate(plan: PlanId, now: Time) | Transition(id: ShipmentId, target: Status, now: Time)

  /** The plan points to an order and a warehouse that exist. */
  predicate Linked(state: State, p: PlanId) {
    p < |state.plans| && state.plans[p].order in state.orders && state.plans[p].warehouse in state.warehouses
  }

  predicate Accepts(state: State, call: Call) {
    match call
    case Generate(p, _) => Linked(state, p)
    case Transition(id, target, _) => id < |state.shipments| && target in Transitions(state.shipments[id].status)
  }

  /** A refused call raises before it has changed anything. */
  function Apply(state: State, call: Call): State {
    if !Accepts(state, call) then state
    else
      match call
      case Generate(p, now) =>
        var id := |state.shipments|;
        state.(plans := state.plans[p := state.plans[p].(status := PlanExecuting)],
               shipments := state.shipments + [NewShipment(state.plans[p], now)],
               stops := state.stops + [Stop(id, 1, Pickup), Stop(id, 2, Delivery)])
      case Transition(id, target, now) =>
        state.(shipments := state.shipments[id := Moved(state.shipments[id], target, now)])
  }

  function Run(state: State, calls: seq<Call>): State {
    if calls == [] then state else Apply(Run(state, calls[..|calls| - 1]), calls[|calls| - 1])
  }

  /** The calls behind generating an order's shipments from the first `n` plans; `next` is the first new shipment id. */
  function CallsFor(plans: seq<Plan>, order: OrderId, next: nat, now: Time, n: nat): seq<Call>
    requires n <= |plans|
  {
    if n == 0 then []
    else
      CallsFor(plans, order, next, now, n - 1) +
      if plans[n - 1].order == order && plans[n - 1].Live()
      then [Generate(n - 1, now), Transition(next + LivePlans(plans, order, n - 1), Planned, now)]
      else []
  }

  function LivePlans(plans: seq<Plan>, order: OrderId, n: nat): nat
    requires n <= |plans|
  {
    if n == 0 then 0
    else
      LivePlans(plans, order, n - 1) +
      if plans[n - 1].order == order && plans[n - 1].status in {PlanPlanned, PlanExecuting} then 1 else 0
  }

  /** The first live plan of the order, from `p` on, that points to a missing row; the number of plans if none does. */
  function FirstBroken(state: State, order: OrderId, p: nat): (n: nat)
    requires p <= |state.plans|
    ensures p <= n <= |state.plans|
    ensures n < |state.plans| ==> state.plans[n].order == order && state.plans[n].Live() && !Linked(state, n)
    ensures forall q :: p <= q < n && state.plans[q].order == order && state.plans[q].Live() ==> Linked(state, q)
    decreases |state.plans| - p
  {
    if p == |state.plans| then p
    else if state.plans[p].order == order && state.plans[p].Live() && !Linked(state, p) then p
    else FirstBroken(state, order, p + 1)
  }

  class ShipmentGenerator {
    var state: State

    constructor (state: State)
      ensures this.state == state
    {
      this.state := state;
    }

    method GenerateFromPlan(p: PlanId, now: Time) returns (result: Result)
      modifies this
      ensures state == Apply(old(state), Generate(p, now))
      ensures result ==
              if Accepts(old(state), Generate(p, now)) then Ok(|old(state).shipments|) else Failed(NotFoundError)
    {
      if p >= |state.plans| {
        return Failed(NotFoundError);
      }
      var plan := state.plans[p];
      if plan.order !in state.orders || plan.warehouse !in state.warehouses {
        return Failed(NotFoundError);
      }
      var id := |state.shipments|;
      state := state.(shipments := state.shipments + [NewShipment(plan, now)]);
      state := state.(stops := state.stops + [Stop(id, 1, Pickup)] + [Stop(id, 2, Delivery)]);
      state := state.(plans := state.plans[p := plan.(status := PlanExecuting)]);
      return Ok(id);
    }

    method TransitionState(id: ShipmentId, target: Status, now: Time) returns (result: Result)
      modifies this
      ensures state == Apply(old(state), Transition(id, target, now))
      ensures result ==
              if id >= |old(state).shipments| then Failed(NotFoundError)
              else if Accepts(old(state), Transition(id, target, now)) then Ok(id)
              else Failed(ShipmentStateError(old(state).shipments[id].status, target))
    {
      if id >= |state.shipments| {
        return Failed(NotFoundError);
      }
      var shipment := state.shipments[id];
      var current := shipment.status;
      if target !in Transitions(current) {
        return Failed(ShipmentStateError(current, target));
      }
      var history := shipment.history + [Entry(target, now, Some(current))];
      shipment := shipment.(status := target, history := history, version := shipment.version + 1);
      if target == Delivered {
        shipment := shipment.(actualDelivery := Some(now));
      }
      state := state.(shipments := state.shipments[id := shipment]);
      return Ok(id);
    }

    /** One planned shipment per plan of the order that is planned or, again, executing, up to the first such plan that
        points to a missing row, which raises and leaves the shipments made before it. */
    method GenerateForOrder(order: OrderId, now: Time) returns (ids: seq<ShipmentId>, error: Option<Error>)
      modifies this
      ensures Produced(old(state), state, order, now, FirstBroken(old(state), order, 0), ids)
      ensures error == if FirstBroken(old(state), order, 0) < |old(state).plans| then Some(NotFoundError) else None
    {
      hide Apply, Run, CallsFor, LivePlans, Produced;
      ids := [];
      NothingProduced(state, order, now);
      ghost var stop := FirstBroken(state, order, 0);
      for p := 0 to |state.plans|
        invariant |state.plans| == |old(state).plans|
        invariant p <= stop && Produced(old(state), state, order, now, p, ids)
      {
        ghost var before := state;
        ProducedPlan(old(state), before, order, now, p, ids);
        if state.plans[p].order == order && state.plans[p].Live() {
          var made := GenerateFromPlan(p, now);
          if made.Failed? {
            RefusedGenerate(before, p, now);
            assert p == stop;
            return ids, Some(made.error);
          }
          ProducedStep(old(state), before, order, now, p, ids);
          var moved := TransitionState(made.id, Planned, now);
          ids := ids + [made.id];
        } else {
          ProducedSkip(old(state), before, order, now, p, ids);
        }
      }
      return ids, None;
    }
  }

  /** From `was`, the first `n` plans of the order's live ones have each brought one planned shipment. */
  ghost predicate Produced(was: State, state: State, order: OrderId, now: Time, n: nat, ids: seq<ShipmentId>) {
    && n <= |was.plans| && |state.plans| == |was.plans|
    && state.orders == was.orders && state.warehouses == was.warehouses
    && state == Run(was, CallsFor(was.plans, order, |was.shipments|, now, n))
    && (forall p :: 0 <= p < |was.plans| ==>
          && state.plans[p].order == was.plans[p].order && state.plans[p].warehouse == was.plans[p].warehouse
          && (state.plans[p].Live() <==> was.plans[p].Live()))
    && |ids| == LivePlans(was.plans, order, n) && |state.shipments| == |was.shipments| + |ids|
    && state.shipments[..|was.shipments|] == was.shipments
    && forall k :: 0 <= k < |ids| ==>
         && ids[k] == |was.shipments| + k && state.shipments[ids[k]].order == order
         && state.shipments[ids[k]].status == Planned && |state.shipments[ids[k]].history| == 2
  }

  lemma NothingProduced(was: State, order: OrderId, now: Time)
    ensures Produced(was, was, order, now, 0, [])
  {
    assert was.shipments[..|was.shipments|] == was.shipments;
  }

  lemma RefusedGenerate(state: State, p: PlanId, now: Time)
    requires !Linked(state, p)
    ensures Apply(state, Generate(p, now)) == state
  {
  }

  /** A plan not reached yet is as it was. */
  lemma ProducedPlan(was: State, state: State, order: OrderId, now: Time, p: nat, ids: seq<ShipmentId>)
    requires Produced(was, state, order, now, p, ids) && p < |was.plans|
    ensures |state.plans| == |was.plans| && state.plans[p].order == was.plans[p].order
    ensures state.plans[p].Live() <==> was.plans[p].Live()
    ensures Linked(state, p) <==> Linked(was, p)
  {
    hide Run, CallsFor;
  }

  lemma ProducedSkip(was: State, state: State, order: OrderId, now: Time, p: nat, ids: seq<ShipmentId>)
    requires Produced(was, state, order, now, p, ids) && p < |was.plans|
    requires state.plans[p].order != order || !state.plans[p].Live()
    ensures Produced(was, state, order, now, p + 1, ids)
  {
    hide Run;
    var calls := CallsFor(was.plans, order, |was.shipments|, now, p);
    assert calls + [] == calls;
  }

  lemma ProducedStep(was: State, state: State, order: OrderId, now: Time, p: nat, ids: seq<ShipmentId>)
    requires Produced(was, state, order, now, p, ids) && p < |was.plans|
    requires state.plans[p].order == order && state.plans[p].Live() && Linked(state, p)
    ensures
      var id := |state.shipments|;
      var after := Apply(Apply(state, Generate(p, now)), Transition(id, Planned, now));
      Produced(was, after, order, now, p + 1, ids + [id]) && |after.plans| == |was.plans|
  {
    hide Run;
    var id := |state.shipments|;
    RunTwo(was, CallsFor(was.plans, order, |was.shipments|, now, p), Generate(p, now), Transition(id, Planned, now));
    var mid := Apply(state, Generate(p, now));
    assert mid.shipments[id] == NewShipment(state.plans[p], now);
    var after := Apply(mid, Transition(id, Planned, now));
    assert after.shipments == state.shipments + [Moved(NewShipment(state.plans[p], now), Planned, now)];
    assert after.shipments[..|was.shipments|] == state.shipments[..|was.shipments|];
  }

  lemma {:induction false} SameLivePlans(before: seq<Plan>, after: seq<Plan>, order: OrderId, n: nat)
    requires |before| == |after| && n <= |before|
    requires forall p :: 0 <= p < |before| ==>
             after[p].order == before[p].order && (after[p].Live() <==> before[p].Live())
    ensures LivePlans(after, order, n) == LivePlans(before, order, n)
    decreases n
  {
    if n > 0 {
      SameLivePlans(before, after, order, n - 1);
    }
  }

  /** Asking twice gives as many shipments again: plans already executing are not passed over. */
  lemma SecondCallDuplicates(was: State, once: State, twice: State, order: OrderId, now: Time, later: Time,
                             first: seq<ShipmentId>, second: seq<ShipmentId>)
    requires Produced(was, once, order, now, |was.plans|, first)
    requires Produced(once, twice, order, later, |once.plans|, second)
    ensures |second| == |first| == LivePlans(was.plans, order, |was.plans|)
    ensures |twice.shipments| == |was.shipments| + 2 * |first|
  {
    hide Run;
    SameLivePlans(was.plans, once.plans, order, |was.plans|);
  }

  lemma RunTwo(state: State, calls: seq<Call>, a: Call, b: Call)
    ensures Run(state, calls + [a, b]) == Apply(Apply(Run(state, calls), a), b)
  {
    hide Apply;
    assert (calls + [a, b])[..|calls| + 1] == calls + [a];
    assert (calls + [a])[..|calls|] == calls;
  }

  // ----- each call, exactly

  /** The moves a shipment can make. */
  ghost predicate Move(from: Status, to: Status) {
    || (from == Draft && to in {Planned, Cancelled})
    || (from == Planned && to in {Consolidated, LabelGenerated, Cancelled})
    || (from == Consolidated && to in {LabelGenerated, Cancelled})
    || (from == LabelGenerated && to in {Status.InTransit, Cancelled})
    || (from == Status.InTransit && to in {OutForDelivery, Exception, Delivered})
    || (from == OutForDelivery && to in {Delivered, Exception})
    || (from == Exception && to in {Status.InTransit, Cancelled})
  }

  /** A transition is taken exactly along these moves. It writes its time and the status it came from, counts the
      version on, notes a delivery, and touches no other row; a refused one changes nothing. */
  lemma TransitionMoves(state: State, id: ShipmentId, target: Status, now: Time)
    ensures
      var after := Apply(state, Transition(id, target, now));
      if id < |state.shipments| && Move(state.shipments[id].status, target) then
        var s := state.shipments[id];
        && after == state.(shipments := after.shipments) && |after.shipments| == |state.shipments|
        && (forall i :: 0 <= i < |state.shipments| && i != id ==> after.shipments[i] == state.shipments[i])
        && after.shipments[id] ==
           Shipment(s.order, s.warehouse, target, s.history + [Entry(target, now, Some(s.status))], s.version + 1,
                    if target == Delivered then Some(now) else s.actualDelivery)
      else after == state
  {
  }

  /** A plan whose order and warehouse exist brings one draft shipment, picked up first and delivered second, and is
      executing from then on; otherwise nothing changes. */
  lemma GenerationAdds(state: State, p: PlanId, now: Time)
    ensures
      var after := Apply(state, Generate(p, now));
      if p < |state.plans| && state.plans[p].order in state.orders && state.plans[p].warehouse in state.warehouses then
        var plan, id := state.plans[p], |state.shipments|;
        && after.shipments ==
           state.shipments + [Shipment(plan.order, plan.warehouse, Draft, [Entry(Draft, now, None)], 1, None)]
        && after.stops == state.stops + [Stop(id, 1, Pickup), Stop(id, 2, Delivery)]
        && |after.plans| == |state.plans| && after.plans[p] == Plan(plan.order, plan.warehouse, PlanExecuting)
        && (forall i :: 0 <= i < |state.plans| && i != p ==> after.plans[i] == state.plans[i])
        && after.orders == state.orders && after.warehouses == state.warehouses
      else after == state
  {
  }

  // ----- every reachable shipment

  /** The history is a path of the table from draft, each entry naming the status before it. */
  ghost predicate IsPath(history: seq<Entry>) {
    && history != [] && history[0].status == Draft && history[0].previous == None
    && forall i :: 0 < i < |history| ==>
         history[i].status in Transitions(history[i - 1].status) && history[i].previous == Some(history[i - 1].status)
  }

  ghost predicate Sound(s: Shipment) {
    && IsPath(s.history) && s.status == s.history[|s.history| - 1].status && s.version == |s.history|
    && (s.actualDelivery.Some? <==> s.status == Delivered)
  }

  ghost predicate AllSound(state: State) {
    forall i :: 0 <= i < |state.shipments| ==> Sound(state.shipments[i])
  }

  lemma MovedSound(s: Shipment, target: Status, now: Time)
    requires Sound(s) && target in Transitions(s.status)
    ensures Sound(Moved(s, target, now))
  {
  }

  /** Over every run of generation and transitions, whatever is asked for, every shipment's record is sound. */
  lemma {:induction false} RunSound(state: State, calls: seq<Call>)
    requires AllSound(state)
    ensures AllSound(Run(state, calls))
    decreases |calls|
  {
    hide IsPath, Transitions, Moved;
    if calls != [] {
      var n := |calls| - 1;
      RunSound(state, calls[..n]);
      var before, call := Run(state, calls[..n]), calls[n];
      if Accepts(before, call) {
        match call {
          case Generate(p, now) => NewSound(before.plans[p], now);
          case Transition(id, target, now) => MovedSound(before.shipments[id], target, now);
        }
      }
    }
  }

  lemma NewSound(plan: Plan, now: Time)
    ensures Sound(NewShipment(plan, now))
  {
  }

  /** No status follows delivered, cancelled or an unrecognised one. */
  lemma TerminalIsLast(s: Shipment, i: nat)
    requires Sound(s) && i < |s.history|
    ensures Transitions(s.history[i].status) == {} <==> s.history[i].status in {Delivered, Cancelled}
    ensures s.history[i].status in {Delivered, Cancelled} ==> i == |s.history| - 1
  {
    if i < |s.history| - 1 {
      var next := s.history[i + 1];
      assert next.status in Transitions(s.history[i + 1 - 1].status);
    }
    if i > 0 {
      assert s.history[i].status in Transitions(s.history[i - 1].status);
    }
    WorkedOn(s.history[i].status);
  }

  lemma WorkedOn(s: Status)
    ensures Transitions(s) == {} <==> s in {Delivered, Cancelled} || s.Unknown?
  {
    assert Planned in Transitions(Draft) && Cancelled in Transitions(Planned) && Cancelled in Transitions(Consolidated);
    assert Cancelled in Transitions(LabelGenerated) && Delivered in Transitions(Status.InTransit);
    assert Delivered in Transitions(OutForDelivery) && Cancelled in Transitions(Exception);
  }

  /** Past the label, a history holds the label; past planning, it holds planned; past pickup, in transit. */
  lemma {:induction false} PlannedBefore(h: seq<Entry>, i: nat) returns (a: nat)
    requires IsPath(h) && i < |h| && h[i].status !in {Draft, Cancelled}
    ensures a <= i && h[a].status == Planned
  {
    a := i;
    if h[i].status != Planned {
      assert h[i].status in Transitions(h[i - 1].status);
      a := PlannedBefore(h, i - 1);
    }
  }

  lemma {:induction false} LabelBefore(h: seq<Entry>, i: nat) returns (b: nat)
    requires IsPath(h) && i < |h|
    requires h[i].status in {LabelGenerated, Status.InTransit, OutForDelivery, Exception, Delivered}
    ensures b <= i && h[b].status == LabelGenerated
  {
    b := i;
    if h[i].status != LabelGenerated {
      assert h[i].status in Transitions(h[i - 1].status);
      b := LabelBefore(h, i - 1);
    }
  }

  lemma {:induction false} InTransitBefore(h: seq<Entry>, i: nat) returns (c: nat)
    requires IsPath(h) && i < |h| && h[i].status in {Status.InTransit, OutForDelivery, Exception, Delivered}
    ensures c <= i && h[c].status == Status.InTransit
  {
    c := i;
    if h[i].status != Status.InTransit {
      assert h[i].status in Transitions(h[i - 1].status);
      c := InTransitBefore(h, i - 1);
    }
  }

  /** A delivered shipment was planned, then labelled, then in transit. */
  lemma DeliveredWasShipped(s: Shipment) returns (a: nat, b: nat, c: nat)
    requires Sound(s) && s.status == Delivered
    ensures a < b < c < |s.history| - 1
    ensures s.history[a].status == Planned && s.history[b].status == LabelGenerated &&
            s.history[c].status == Status.InTransit
  {
    c := InTransitBefore(s.history, |s.history| - 1);
    b := LabelBefore(s.history, c);
    a := PlannedBefore(s.history, b);
  }

  /** The transitions that lead a shipment along a history. */
  function Along(id: ShipmentId, h: seq<Entry>): seq<Call> {
    if |h| <= 1 then []
    else Along(id, h[..|h| - 1]) + [Transition(id, h[|h| - 1].status, h[|h| - 1].at)]
  }

  /** Every path of the table is reached: the transitions along it give a draft exactly that history. */
  lemma {:induction false} EveryPathReached(state: State, id: ShipmentId, h: seq<Entry>)
    requires id < |state.shipments| && Sound(state.shipments[id]) && IsPath(h)
    requires state.shipments[id].history == h[..1]
    ensures id < |Run(state, Along(id, h)).shipments|
    ensures Sound(Run(state, Along(id, h)).shipments[id]) && Run(state, Along(id, h)).shipments[id].history == h
    decreases |h|
  {
    hide Transitions, Moved;
    var n := |h| - 1;
    if n == 0 {
      assert h[..1] == h;
    } else {
      var front := h[..n];
      assert front[..1] == h[..1];
      EveryPathReached(state, id, front);
      OneMoreAlong(state, id, h);
    }
  }

  lemma {:induction false} OneMoreAlong(state: State, id: ShipmentId, h: seq<Entry>)
    requires IsPath(h) && |h| > 1
    requires
      var before := Run(state, Along(id, h[..|h| - 1]));
      id < |before.shipments| && Sound(before.shipments[id]) && before.shipments[id].history == h[..|h| - 1]
    ensures
      var after := Run(state, Along(id, h));
      id < |after.shipments| && Sound(after.shipments[id]) && after.shipments[id].history == h
  {
    hide Transitions;
    var n := |h| - 1;
    var calls := Along(id, h);
    assert calls[..|calls| - 1] == Along(id, h[..n]);
    var before := Run(state, Along(id, h[..n])).shipments[id];
    assert before.status == h[n - 1].status && h[n].status in Transitions(h[n - 1].status);
    MovedSound(before, h[n].status, h[n].at);
    assert h == h[..n] + [h[n]];
  }
}
