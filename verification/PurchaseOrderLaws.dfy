/** What every run of purchase-order requests keeps, and what a receipt does to the open value. */
module PurchaseOrderLaws {
  import opened Sums
  import opened Tables
  import opened PurchaseOrders

  /** Never over-received, and closed exactly when fully received. */
  ghost predicate LineSound(l: Line) {
    0 <= l.received <= l.ordered && 0 < l.ordered && (l.closed <==> l.received == l.ordered)
  }

  ghost predicate LinesSound(lines: seq<Line>) {
    forall i :: 0 <= i < |lines| ==> LineSound(lines[i])
  }

  ghost predicate NothingReceived(lines: seq<Line>) {
    forall i :: 0 <= i < |lines| ==> lines[i].received == 0
  }

  /** The status tells what has been received. */
  ghost predicate OrderSound(o: Order) {
    && LinesSound(o.lines)
    && (o.status in {Draft, Submitted, Acknowledged, Cancelled} ==> NothingReceived(o.lines))
    && (o.status == PartiallyReceived ==> AnyReceived(o.lines) && !AllClosed(o.lines))
    && (o.status == Status.Received ==> AllClosed(o.lines))
  }

  ghost predicate Sound(orders: seq<Order>) {
    forall i :: 0 <= i < |orders| ==> OrderSound(orders[i])
  }

  ghost predicate NonNegative(quantities: map<nat, int>) {
    forall k :: k in quantities ==> quantities[k] >= 0
  }

  ghost predicate Sensible(call: Call) { call.Receipt? ==> NonNegative(call.quantities) }

  /** Every order keeps its identity, and its status stays or takes an edge of the transition table. */
  ghost predicate Legal(before: Order, after: Order) {
    && after.warehouse == before.warehouse && after.supplier == before.supplier && |after.lines| == |before.lines|
    && (after.status == before.status || after.status in Transitions(before.status))
  }

  ghost predicate AllLegal(before: seq<Order>, after: seq<Order>) {
    |after| == |before| && forall i :: 0 <= i < |before| ==> Legal(before[i], after[i])
  }

  // ----- the receipt pass

  /** Whether or not it raises, a pass with non-negative quantities keeps every line sound and takes nothing back. */
  lemma {:induction false} PassSound(lines: seq<Line>, quantities: map<nat, int>, n: nat)
    requires n <= |lines| && LinesSound(lines) && NonNegative(quantities)
    ensures LinesSound(ReceiptPass(lines, quantities, n).lines)
    ensures forall i :: 0 <= i < |lines| ==> lines[i].received <= ReceiptPass(lines, quantities, n).lines[i].received
    ensures forall i :: n <= i < |lines| ==> ReceiptPass(lines, quantities, n).lines[i] == lines[i]
    decreases n
  {
    if n > 0 {
      PassSound(lines, quantities, n - 1);
    }
  }

  /** A pass that succeeds has taken each line's quantity exactly once. */
  lemma {:induction false} PassTakesEach(lines: seq<Line>, quantities: map<nat, int>, n: nat)
    requires n <= |lines|
    ensures
      var p := ReceiptPass(lines, quantities, n);
      && (forall i :: 0 <= i < |lines| ==>
            p.lines[i] ==
            if i < (if p.failed.Some? then p.failed.value else n) then Taken(lines[i], quantities) else lines[i])
      && (p.failed.Some? ==> OverReceives(lines[p.failed.value], quantities))
      && (forall i :: 0 <= i < (if p.failed.Some? then p.failed.value else n) ==> !OverReceives(lines[i], quantities))
    decreases n
  {
    if n > 0 {
      PassTakesEach(lines, quantities, n - 1);
    }
  }

  /** A receipt is taken exactly when no line would be over-received. */
  lemma ReceiptAcceptedIff(lines: seq<Line>, quantities: map<nat, int>)
    ensures ReceiptPass(lines, quantities, |lines|).failed.None? <==>
            forall i :: 0 <= i < |lines| ==> !OverReceives(lines[i], quantities)
  {
    PassTakesEach(lines, quantities, |lines|);
  }

  // ----- runs

  lemma ReceiptKeeps(o: Order, quantities: map<nat, int>)
    requires OrderSound(o) && NonNegative(quantities) && (o.status == Acknowledged || o.status == PartiallyReceived)
    ensures
      var lines := ReceiptPass(o.lines, quantities, |o.lines|).lines;
      OrderSound(o.(lines := lines, status := StatusAfter(o.status, lines)))
  {
    var lines := ReceiptPass(o.lines, quantities, |o.lines|).lines;
    PassSound(o.lines, quantities, |o.lines|);
    if o.status == PartiallyReceived {
      var i :| 0 <= i < |o.lines| && o.lines[i].received > 0;
      assert lines[i].received > 0;
    }
  }

  lemma NextKeeps(orders: seq<Order>, active: seq<bool>, call: Call)
    requires Sound(orders) && Sensible(call)
    ensures Sound(Next(orders, active, call)) && AllLegal(orders, Next(orders, active, call))
  {
    hide ReceiptPass, AllClosed, AnyReceived, LineSound;
    if call.id < |orders| && call.Receipt? {
      var o := orders[call.id];
      if o.status == Acknowledged || o.status == PartiallyReceived {
        ReceiptKeeps(o, call.quantities);
      }
    }
  }

  function Run(orders: seq<Order>, active: seq<bool>, calls: seq<Call>): seq<Order> {
    if calls == [] then orders
    else Next(Run(orders, active, calls[..|calls| - 1]), active, calls[|calls| - 1])
  }

  /** In every reachable state lines and statuses are sound; in particular no cancelled order has receipts. */
  lemma {:induction false} RunSound(orders: seq<Order>, active: seq<bool>, calls: seq<Call>)
    requires Sound(orders) && forall i :: 0 <= i < |calls| ==> Sensible(calls[i])
    ensures Sound(Run(orders, active, calls)) && |Run(orders, active, calls)| == |orders|
    decreases |calls|
  {
    if calls != [] {
      var n := |calls| - 1;
      RunSound(orders, active, calls[..n]);
      NextKeeps(Run(orders, active, calls[..n]), active, calls[n]);
    }
  }

  /** Every step of every run changes each status along an edge of the table or not at all. */
  lemma RunLegal(orders: seq<Order>, active: seq<bool>, calls: seq<Call>, n: nat)
    requires Sound(orders) && forall i :: 0 <= i < |calls| ==> Sensible(calls[i])
    requires n < |calls|
    ensures AllLegal(Run(orders, active, calls[..n]), Run(orders, active, calls[..n + 1]))
  {
    assert calls[..n + 1][..n] == calls[..n];
    RunSound(orders, active, calls[..n]);
    NextKeeps(Run(orders, active, calls[..n]), active, calls[n]);
  }

  /** Received and closed are never left for an earlier status. */
  lemma {:induction false} DoneStaysDone(orders: seq<Order>, active: seq<bool>, calls: seq<Call>, i: nat)
    requires Sound(orders) && (forall j :: 0 <= j < |calls| ==> Sensible(calls[j])) && i < |orders|
    requires orders[i].status in {Status.Received, Closed, Cancelled}
    ensures |Run(orders, active, calls)| == |orders|
    ensures
      var after := Run(orders, active, calls)[i];
      after.status == orders[i].status || (orders[i].status == Status.Received && after.status == Closed)
    decreases |calls|
  {
    if calls != [] {
      var n := |calls| - 1;
      DoneStaysDone(orders, active, calls[..n], i);
      RunLegal(orders, active, calls, n);
      assert calls[..n + 1] == calls;
      assert Legal(Run(orders, active, calls[..n])[i], Run(orders, active, calls)[i]);
    }
  }

  // ----- each request, exactly

  /** Which requests are refused, and with what error, as a decision over the order's status, lines and supplier. */
  ghost function Refusal(orders: seq<Order>, active: seq<bool>, call: Call): Option<Error> {
    if call.id >= |orders| then Some(if call.SubmitOrder? || call.Receipt? then ValidationError else NotFoundError)
    else
      var o := orders[call.id];
      match call
      case SubmitOrder(_) =>
        if o.status != Draft then Some(WorkflowError)
        else if o.lines != [] && o.supplier < |active| && active[o.supplier] then None
        else Some(ValidationError)
      case AcknowledgeOrder(_, _) => if o.status == Submitted then None else Some(WorkflowError)
      case Receipt(_, quantities) =>
        if o.status != Acknowledged && o.status != PartiallyReceived then Some(WorkflowError)
        else if exists l :: l in o.lines && l.id in quantities && l.ordered < l.received + quantities[l.id]
        then Some(ValidationError)
        else None
      case CloseOrder(_) => if o.status in {PartiallyReceived, Status.Received} then None else Some(WorkflowError)
      case CancelOrder(_, _) => if o.status in {Draft, Submitted, Acknowledged} then None else Some(WorkflowError)
  }

  lemma RefusedExactly(orders: seq<Order>, active: seq<bool>, call: Call)
    ensures
      match Refusal(orders, active, call)
      case None => Apply(orders, active, call).result.Ok?
      case Some(e) => Apply(orders, active, call).result == Failed(e)
  {
    hide ReceiptPass, AllClosed, AnyReceived;
    if call.id < |orders| && call.Receipt? {
      var lines := orders[call.id].lines;
      ReceiptAcceptedIff(lines, call.quantities);
      if i :| 0 <= i < |lines| && OverReceives(lines[i], call.quantities) {
        assert lines[i] in lines;
      }
    }
  }

  /** What a receipt makes of an order: each line takes its quantity once and is closed when that completes it, and the
      order is received exactly when every line is closed, else partially received as soon as anything has come in. */
  ghost predicate ReceiptTaken(o: Order, o': Order, quantities: map<nat, int>) {
    && |o'.lines| == |o.lines|
    && (forall i :: 0 <= i < |o.lines| ==>
          var l := o.lines[i];
          if l.id !in quantities then o'.lines[i] == l
          else
            var received := l.received + quantities[l.id];
            o'.lines[i] == l.(received := received, closed := l.closed || l.ordered <= received))
    && o' == o.(lines := o'.lines, status := o'.status)
    && (o'.status == Status.Received <==> forall i :: 0 <= i < |o'.lines| ==> o'.lines[i].closed)
    && (o'.status != Status.Received ==>
          o'.status == if exists i :: 0 <= i < |o'.lines| && 0 < o'.lines[i].received then PartiallyReceived
                       else o.status)
  }

  /** An accepted request rewrites its own order and no other. */
  lemma AcceptedChanges(orders: seq<Order>, active: seq<bool>, call: Call)
    requires Apply(orders, active, call).result.Ok?
    ensures
      var id, after := call.id, Next(orders, active, call);
      && id < |orders| && |after| == |orders| && after == orders[id := after[id]]
      && Apply(orders, active, call).result == Ok(after[id])
      && match call {
           case SubmitOrder(_) => after[id] == orders[id].(status := Submitted)
           case AcknowledgeOrder(_, expected) =>
             after[id] == orders[id].(status := Acknowledged,
                                      expectedDelivery := if expected == None then orders[id].expectedDelivery
                                                          else expected)
           case Receipt(_, quantities) => ReceiptTaken(orders[id], after[id], quantities)
           case CloseOrder(_) => after[id] == orders[id].(status := Closed)
           case CancelOrder(_, reason) => after[id] == orders[id].(status := Cancelled, notes := "Cancelled: " + reason)
         }
  {
    hide ReceiptPass;
    if call.Receipt? {
      PassTakesEach(orders[call.id].lines, call.quantities, |orders[call.id].lines|);
    }
  }

  /** A status changes only by the request that stands for it: an order is closed by `close` alone, cancelled by
      `cancel` alone, and so on, over every run. */
  lemma StatusHasItsRequest(orders: seq<Order>, active: seq<bool>, calls: seq<Call>, n: nat, i: nat)
    requires Sound(orders) && (forall j :: 0 <= j < |calls| ==> Sensible(calls[j])) && n < |calls| && i < |orders|
    ensures |Run(orders, active, calls[..n])| == |Run(orders, active, calls[..n + 1])| == |orders|
    ensures
      var before, after := Run(orders, active, calls[..n])[i], Run(orders, active, calls[..n + 1])[i];
      before.status != after.status ==>
        && calls[n].id == i
        && match after.status {
             case Draft => false
             case Submitted => calls[n].SubmitOrder?
             case Acknowledged => calls[n].AcknowledgeOrder?
             case PartiallyReceived | Received => calls[n].Receipt?
             case Closed => calls[n].CloseOrder?
             case Cancelled => calls[n].CancelOrder?
           }
  {
    hide Apply, ReceiptTaken;
    assert calls[..n + 1][..n] == calls[..n];
    var before := Run(orders, active, calls[..n]);
    RunSound(orders, active, calls[..n]);
    if Apply(before, active, calls[n]).result.Ok? {
      AcceptedChanges(before, active, calls[n]);
      if calls[n].Receipt? {
        ReceiptStatus(before, active, calls[n].id, calls[n].quantities);
      }
    }
  }

  lemma ReceiptStatus(orders: seq<Order>, active: seq<bool>, id: PurchaseOrderId, quantities: map<nat, int>)
    requires Apply(orders, active, Receipt(id, quantities)).result.Ok?
    ensures id < |orders| && id < |Next(orders, active, Receipt(id, quantities))|
    ensures Next(orders, active, Receipt(id, quantities))[id].status
            in {Status.Received, PartiallyReceived, orders[id].status}
  {
    hide ReceiptPass, AllClosed, AnyReceived;
  }

  // ----- the open value

  function OrderedValue(): Line -> real { (l: Line) => l.ordered as real * l.unitCost }

  lemma {:induction false} ValueOfUnreceived(lines: seq<Line>)
    requires NothingReceived(lines)
    ensures RealSumOver(lines, LineValue()) == RealSumOver(lines, OrderedValue())
    decreases |lines|
  {
    if lines != [] {
      ValueOfUnreceived(lines[..|lines| - 1]);
    }
  }

  /** Submitting an order adds what it orders to the open value of its warehouse; acknowledging it changes nothing;
      cancelling takes back what was added; closing writes off what has not come in. No other warehouse is concerned. */
  lemma OpenValueMoves(orders: seq<Order>, active: seq<bool>, call: Call, w: WarehouseId)
    requires Sound(orders) && Apply(orders, active, call).result.Ok? && !call.Receipt?
    ensures call.id < |orders|
    ensures
      var o := orders[call.id];
      OpenValue(Next(orders, active, call), w) - OpenValue(orders, w) ==
      if o.warehouse != w then 0.0
      else
        match call
        case SubmitOrder(_) => RealSumOver(o.lines, OrderedValue())
        case AcknowledgeOrder(_, _) => 0.0
        case CancelOrder(_, _) => if o.status == Draft then 0.0 else -RealSumOver(o.lines, OrderedValue())
        case CloseOrder(_) => if o.status == PartiallyReceived then -RealSumOver(o.lines, LineValue()) else 0.0
  {
    hide RealSumOver, ReceiptPass, LinesSound, AllClosed, AnyReceived;
    var o := orders[call.id];
    assert OrderSound(o);
    RealSumUpdate(orders, call.id, Next(orders, active, call)[call.id], OpenValueAt(w));
    if NothingReceived(o.lines) {
      ValueOfUnreceived(o.lines);
    }
  }

  /** The value of what a receipt brings in. */
  function ReceiptValue(quantities: map<nat, int>): Line -> real {
    (l: Line) => if l.id in quantities then quantities[l.id] as real * l.unitCost else 0.0
  }

  lemma TakenValue(l: Line, quantities: map<nat, int>)
    ensures LineValue()(Taken(l, quantities)) == LineValue()(l) - ReceiptValue(quantities)(l)
  {
    if l.id in quantities {
      var q := quantities[l.id];
      assert (l.ordered - (l.received + q)) as real == (l.ordered - l.received) as real - q as real;
      assert (l.ordered - (l.received + q)) as real * l.unitCost ==
             (l.ordered - l.received) as real * l.unitCost - q as real * l.unitCost;
    }
  }

  lemma {:induction false} LinesValue(lines: seq<Line>, taken: seq<Line>, quantities: map<nat, int>)
    requires |taken| == |lines| && forall i :: 0 <= i < |lines| ==> taken[i] == Taken(lines[i], quantities)
    ensures RealSumOver(taken, LineValue()) ==
            RealSumOver(lines, LineValue()) - RealSumOver(lines, ReceiptValue(quantities))
    decreases |lines|
  {
    if lines != [] {
      var n := |lines| - 1;
      LinesValue(lines[..n], taken[..n], quantities);
      TakenValue(lines[n], quantities);
    }
  }

  lemma {:induction false} SettledValue(lines: seq<Line>)
    requires LinesSound(lines) && AllClosed(lines)
    ensures RealSumOver(lines, LineValue()) == 0.0
    decreases |lines|
  {
    if lines != [] {
      var n := |lines| - 1;
      SettledValue(lines[..n]);
      assert LineSound(lines[n]) && lines[n].closed;
    }
  }

  /** A successful receipt lowers the open value of its warehouse by exactly the value received, and no other's. */
  lemma ReceiptLowersOpenValue(orders: seq<Order>, active: seq<bool>, id: PurchaseOrderId, quantities: map<nat, int>,
                               w: WarehouseId)
    requires Sound(orders) && NonNegative(quantities)
    requires Apply(orders, active, Receipt(id, quantities)).result.Ok?
    ensures id < |orders|
    ensures OpenValue(Next(orders, active, Receipt(id, quantities)), w) ==
            OpenValue(orders, w) -
            if orders[id].warehouse == w then RealSumOver(orders[id].lines, ReceiptValue(quantities)) else 0.0
  {
    hide LineSound, AllClosed, AnyReceived, RealSumOver;
    var o := orders[id];
    var lines := ReceiptPass(o.lines, quantities, |o.lines|).lines;
    var after := o.(lines := lines, status := StatusAfter(o.status, lines));
    RealSumUpdate(orders, id, after, OpenValueAt(w));
    PassTakesEach(o.lines, quantities, |o.lines|);
    LinesValue(o.lines, lines, quantities);
    PassSound(o.lines, quantities, |o.lines|);
    if AllClosed(lines) {
      SettledValue(lines);
    }
  }

  // ----- what goes wrong outside these conditions

  /** With any integers, a pass leaves sound lines exactly when nothing falls below zero and no closed line is
      reduced. */
  lemma NegativeReceiptSoundIff(lines: seq<Line>, quantities: map<nat, int>)
    requires LinesSound(lines) && ReceiptPass(lines, quantities, |lines|).failed.None?
    ensures LinesSound(ReceiptPass(lines, quantities, |lines|).lines) <==>
            forall i :: 0 <= i < |lines| && lines[i].id in quantities ==>
              lines[i].received + quantities[lines[i].id] >= 0 && (lines[i].closed ==> quantities[lines[i].id] >= 0)
  {
    PassTakesEach(lines, quantities, |lines|);
    var p := ReceiptPass(lines, quantities, |lines|);
    forall i | 0 <= i < |lines|
      ensures LineSound(p.lines[i]) <==>
              (lines[i].id in quantities ==>
                 lines[i].received + quantities[lines[i].id] >= 0 && (lines[i].closed ==> quantities[lines[i].id] >= 0))
    {
      assert LineSound(lines[i]) && p.lines[i] == Taken(lines[i], quantities) && !OverReceives(lines[i], quantities);
    }
  }

  /** The session's own state after a refused receipt, if the caller swallows the error and goes on to cancel. */
  function CancelledAnyway(orders: seq<Order>, active: seq<bool>, id: PurchaseOrderId, quantities: map<nat, int>,
                           reason: string): Outcome {
    Apply(Apply(orders, active, Receipt(id, quantities)).orders, active, CancelOrder(id, reason))
  }

  /** The first line that the quantities would over-receive. */
  ghost predicate FirstRefused(lines: seq<Line>, quantities: map<nat, int>, f: nat) {
    && f < |lines| && OverReceives(lines[f], quantities)
    && forall i :: 0 <= i < f ==> !OverReceives(lines[i], quantities)
  }

  /** Without the rollback, the cancelled order is free of receipts exactly when nothing comes in before the first line
      that would be over-received. */
  lemma SwallowedRefusalIff(orders: seq<Order>, active: seq<bool>, id: PurchaseOrderId, quantities: map<nat, int>,
                            reason: string, f: nat)
    requires Sound(orders) && NonNegative(quantities) && id < |orders| && orders[id].status == Acknowledged
    requires FirstRefused(orders[id].lines, quantities, f)
    ensures CancelledAnyway(orders, active, id, quantities, reason).result.Ok?
    ensures
      var lines := orders[id].lines;
      NothingReceived(CancelledAnyway(orders, active, id, quantities, reason).orders[id].lines) <==>
      forall i :: 0 <= i < f && lines[i].id in quantities ==> quantities[lines[i].id] == 0
  {
    var lines := orders[id].lines;
    var p := ReceiptPass(lines, quantities, |lines|);
    PassTakesEach(lines, quantities, |lines|);
    assert p.failed == Some(f);
    assert OrderSound(orders[id]);
    assert CancelledAnyway(orders, active, id, quantities, reason).orders[id].lines == p.lines;
    forall i | 0 <= i < |lines|
      ensures p.lines[i].received == 0 <==> (i < f && lines[i].id in quantities ==> quantities[lines[i].id] == 0)
    {
      assert lines[i].received == 0;
    }
  }
}
