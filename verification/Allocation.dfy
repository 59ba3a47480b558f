/** Multi-warehouse allocation: ranking, reserving, confirming and releasing stock. */
module Allocation {
  import opened Sums
  import opened Sorting
  import opened Tables

  const RESERVATION_TTL: Time := 30 * 60

  datatype AllocationRequest = AllocationRequest(order: OrderId, line: LineId, sku: SkuId, quantity: int,
                                                 preferred: Option<WarehouseId>, allowSplit: bool)

  /** One `(warehouse, quantity)` pair of an allocation. */
  datatype Draw = Draw(warehouse: WarehouseId, quantity: int)

  datatype AllocationResult = AllocationResult(line: LineId, allocations: seq<Draw>, totalAllocated: int,
                                               backorder: int, reservationIds: seq<nat>)

  /** `Insufficient` is raised after the loop; `NoBalance` and `RowShort` escape from inside it. */
  datatype AllocationError =
    | Insufficient(requested: int, available: int)
    | NoBalance(warehouse: WarehouseId)
    | RowShort(warehouse: WarehouseId, requested: int, available: int)
  {
    predicate MidLoop() { !Insufficient? }
  }

  datatype Result<+T> = Success(value: T) | Failure(error: AllocationError)

  datatype ConfirmOutcome = Done | NotFound | NotActive | Lapsed

  datatype WarehouseScore = WarehouseScore(warehouse: WarehouseId, available: int, composite: real)

  // ----- ranking

  /** Distance and cost scores are fixed at one half; the rest is the reciprocal priority. */
  function Composite(priority: int): real {
    0.5 * 0.3 + 0.5 * 0.4 + 1.0 / (Max(priority, 1) as real) * 0.3
  }

  function ScoreOf(bs: seq<Balance>, w: Warehouse, k: SkuId): WarehouseScore {
    WarehouseScore(w.id, AggregatedAvailable(bs, w.id, k), Composite(w.priority))
  }

  function Scores(bs: seq<Balance>, ws: seq<Warehouse>, k: SkuId): seq<WarehouseScore> {
    seq(|ws|, i requires 0 <= i < |ws| => ScoreOf(bs, ws[i], k))
  }

  function BestFirst(): (WarehouseScore, WarehouseScore) -> bool {
    (a: WarehouseScore, b: WarehouseScore) => a.composite >= b.composite
  }

  function PreferredFirst(p: WarehouseId): (WarehouseScore, WarehouseScore) -> bool {
    (a: WarehouseScore, b: WarehouseScore) =>
      if (a.warehouse == p) != (b.warehouse == p) then a.warehouse == p else a.composite >= b.composite
  }

  function Rank(db: Db, request: AllocationRequest): seq<WarehouseScore> {
    var scores := Sort(Scores(db.balances, ListActive(db.warehouses), request.sku), BestFirst());
    match request.preferred
    case None => scores
    case Some(p) => Sort(scores, PreferredFirst(p))
  }

  // ----- drawing

  /** What the loop draws from the ranked warehouses, as long as no write inside it raises. */
  function Draws(scores: seq<WarehouseScore>, remaining: int, allowSplit: bool): seq<Draw> {
    if scores == [] || remaining <= 0 then []
    else
      var q := Min(remaining, scores[0].available);
      if scores[0].available <= 0 || (!allowSplit && q < remaining) then Draws(scores[1..], remaining, allowSplit)
      else [Draw(scores[0].warehouse, q)] + Draws(scores[1..], remaining - q, allowSplit)
  }

  function DrawQuantity(): Draw -> int { (d: Draw) => d.quantity }

  function DrawnFrom(w: WarehouseId): Draw -> int {
    (d: Draw) => if d.warehouse == w then d.quantity else 0
  }

  function TotalDrawn(draws: seq<Draw>): int { SumOver(draws, DrawQuantity()) }

  function NewReservation(request: AllocationRequest, now: Time, d: Draw): Reservation {
    Reservation(request.order, request.line, d.warehouse, request.sku, d.quantity, Active, now + RESERVATION_TTL)
  }

  function ApplyAllocation(bs: seq<Balance>, w: WarehouseId, k: SkuId, q: int): Result<seq<Balance>> {
    match GetBalance(bs, w, k)
    case None => Failure(NoBalance(w))
    case Some(h) =>
      if bs[h].Available() < q then Failure(RowShort(w, q, bs[h].Available()))
      else Success(bs[h := bs[h].(reserved := bs[h].reserved + q, version := bs[h].version + 1)])
  }

  /** One draw written down: the reservation first, then the balance, which may refuse. */
  function Take(db: Db, request: AllocationRequest, now: Time, d: Draw): (Db, Option<AllocationError>) {
    var reserved := db.reservations + [NewReservation(request, now, d)];
    match ApplyAllocation(db.balances, d.warehouse, request.sku, d.quantity)
    case Failure(e) => (db.(reservations := reserved), Some(e))
    case Success(bs) => (db.(reservations := reserved, balances := bs), None)
  }

  /** Writes the draws in order until one is refused. */
  function Commit(db: Db, request: AllocationRequest, now: Time, draws: seq<Draw>): (Db, Option<AllocationError>)
    decreases |draws|
  {
    if draws == [] then (db, None)
    else
      var (next, raised) := Take(db, request, now, draws[0]);
      if raised.Some? then (next, raised) else Commit(next, request, now, draws[1..])
  }

  function AvailableOf(): WarehouseScore -> int { (s: WarehouseScore) => s.available }

  /** The ids of `count` reservations added one after another to a table of `from` rows. */
  function NewIds(from: nat, count: nat): (ids: seq<nat>)
    ensures |ids| == count
  {
    if count == 0 then [] else NewIds(from, count - 1) + [from + count - 1]
  }

  /** The loop of `allocate` over warehouses already ranked, and what it raises or returns after it. */
  function AllocateFrom(db: Db, request: AllocationRequest, now: Time, scores: seq<WarehouseScore>)
    : (Db, Result<AllocationResult>)
  {
    var draws := Draws(scores, request.quantity, request.allowSplit);
    var (after, raised) := Commit(db, request, now, draws);
    if raised.Some? then (after, Failure(raised.value))
    else if draws == [] then (after, Failure(Insufficient(request.quantity, SumOver(scores, AvailableOf()))))
    else (after, Success(ResultOf(db, request, draws)))
  }

  function ResultOf(db: Db, request: AllocationRequest, draws: seq<Draw>): AllocationResult {
    AllocationResult(request.line, draws, TotalDrawn(draws), request.quantity - TotalDrawn(draws),
                     NewIds(|db.reservations|, |draws|))
  }

  function Allocate(db: Db, request: AllocationRequest, now: Time): (Db, Result<AllocationResult>) {
    AllocateFrom(db, request, now, Rank(db, request))
  }

  // ----- confirming and releasing

  function ReleaseRow(b: Balance, r: Reservation): Balance {
    if r.status.Confirmed?
    then b.(allocatedQty := Max(0, b.allocatedQty - r.quantity), version := b.version + 1)
    else b.(reserved := Max(0, b.reserved - r.quantity), version := b.version + 1)
  }

  function ReleaseSingle(db: Db, id: nat): Db
    requires id < |db.reservations|
  {
    var r := db.reservations[id];
    var bs := match GetBalance(db.balances, r.warehouse, r.sku)
      case None => db.balances
      case Some(h) => db.balances[h := ReleaseRow(db.balances[h], r)];
    db.(balances := bs, reservations := db.reservations[id := r.(status := Released)])
  }

  function ReleaseMany(db: Db, ids: seq<nat>): (r: Db)
    requires forall j :: 0 <= j < |ids| ==> ids[j] < |db.reservations|
    ensures |r.reservations| == |db.reservations|
    decreases |ids|
  {
    if ids == [] then db else ReleaseSingle(ReleaseMany(db, ids[..|ids| - 1]), ids[|ids| - 1])
  }

  function QuantityOf(rs: seq<Reservation>): nat -> int {
    (i: nat) => if i < |rs| then rs[i].quantity else 0
  }

  function ConfirmRow(b: Balance, r: Reservation): Balance {
    b.(reserved := b.reserved - r.quantity, allocatedQty := b.allocatedQty + r.quantity, version := b.version + 1)
  }

  function ConfirmAllocation(db: Db, id: nat, now: Time): (Db, ConfirmOutcome) {
    if id >= |db.reservations| then (db, NotFound)
    else
      var r := db.reservations[id];
      if r.status != Active then (db, NotActive)
      else if r.expiresAt < now then (ReleaseSingle(db, id), Lapsed)
      else
        var bs := match GetBalance(db.balances, r.warehouse, r.sku)
          case None => db.balances
          case Some(h) => db.balances[h := ConfirmRow(db.balances[h], r)];
        (db.(balances := bs, reservations := db.reservations[id := r.(status := Confirmed)]),
         Done)
  }

  lemma TakeNext(db: Db, request: AllocationRequest, now: Time, from: nat, taken: seq<Draw>, d: Draw, rest: seq<Draw>)
    ensures taken + ([d] + rest) == (taken + [d]) + rest
    ensures TotalDrawn(taken + [d]) == TotalDrawn(taken) + d.quantity
    ensures NewIds(from, |taken + [d]|) == NewIds(from, |taken|) + [from + |taken|]
    ensures var (next, raised) := Take(db, request, now, d);
            Commit(db, request, now, [d] + rest) ==
            if raised.Some? then (next, raised) else Commit(next, request, now, rest)
  {
    SumSnoc(taken, d, DrawQuantity());
    assert ([d] + rest)[1..] == rest;
  }

  lemma CommitNothing(db: Db, request: AllocationRequest, now: Time)
    ensures Commit(db, request, now, []) == (db, None)
  {
  }

  /** The engine itself. Each method is proved equal to the table function above it. */
  class AllocationEngine {
    const session: Session

    constructor (session: Session)
      ensures this.session == session
    {
      this.session := session;
    }

    method RankWarehouses(request: AllocationRequest) returns (scores: seq<WarehouseScore>)
      ensures scores == Rank(session.View(), request)
    {
      var active := ListActive(session.warehouses);
      scores := [];
      for i := 0 to |active|
        invariant scores == Scores(session.balances, active, request.sku)[..i]
      {
        var available := AggregatedAvailable(session.balances, active[i].id, request.sku);
        scores := scores + [WarehouseScore(active[i].id, available, Composite(active[i].priority))];
      }
      assert scores == Scores(session.balances, active, request.sku);
      scores := Sort(scores, BestFirst());
      if request.preferred.Some? {
        scores := Sort(scores, PreferredFirst(request.preferred.value));
      }
    }

    method CreateReservation(request: AllocationRequest, warehouse: WarehouseId, quantity: int, now: Time)
      returns (id: nat)
      modifies session`reservations
      ensures id == |old(session.reservations)|
      ensures session.reservations ==
              old(session.reservations) + [NewReservation(request, now, Draw(warehouse, quantity))]
    {
      id := |session.reservations|;
      session.reservations := session.reservations +
        [Reservation(request.order, request.line, warehouse, request.sku, quantity, Active, now + RESERVATION_TTL)];
    }

    method Apply(warehouse: WarehouseId, sku: SkuId, quantity: int) returns (error: Option<AllocationError>)
      modifies session`balances
      ensures match ApplyAllocation(old(session.balances), warehouse, sku, quantity)
              case Failure(e) => error == Some(e) && session.balances == old(session.balances)
              case Success(bs) => error == None && session.balances == bs
    {
      var home := GetBalance(session.balances, warehouse, sku);
      if home.None? {
        return Some(NoBalance(warehouse));
      }
      var b := session.balances[home.value];
      if b.Available() < quantity {
        return Some(RowShort(warehouse, quantity, b.Available()));
      }
      session.balances :=
        session.balances[home.value := b.(reserved := b.reserved + quantity, version := b.version + 1)];
      return None;
    }

    method TakeDraw(request: AllocationRequest, warehouse: WarehouseId, quantity: int, now: Time)
      returns (id: nat, error: Option<AllocationError>)
      modifies session
      ensures (session.View(), error) == Take(old(session.View()), request, now, Draw(warehouse, quantity))
      ensures id == |old(session.reservations)|
      ensures |session.reservations| == |old(session.reservations)| + 1
    {
      id := CreateReservation(request, warehouse, quantity, now);
      error := Apply(warehouse, request.sku, quantity);
    }

    method AllocateStock(request: AllocationRequest, now: Time) returns (result: Result<AllocationResult>)
      modifies session
      ensures (session.View(), result) == Allocate(old(session.View()), request, now)
    {
      var scores := RankWarehouses(request);
      result := DrawDown(request, now, scores);
    }

    method DrawDown(request: AllocationRequest, now: Time, scores: seq<WarehouseScore>)
      returns (result: Result<AllocationResult>)
      modifies session
      ensures (session.View(), result) == AllocateFrom(old(session.View()), request, now, scores)
    {
      hide Commit, Take;
      ghost var before := session.View();
      ghost var plan := Draws(scores, request.quantity, request.allowSplit);
      ghost var outcome := Commit(before, request, now, plan);
      ghost var rest := plan;
      var remaining := request.quantity;
      var total := 0;
      var allocations: seq<Draw> := [];
      var ids: seq<nat> := [];

      var i := 0;
      assert scores[0..] == scores;
      while i < |scores| && remaining > 0
        invariant 0 <= i <= |scores|
        invariant plan == allocations + rest && rest == Draws(scores[i..], remaining, request.allowSplit)
        invariant Commit(session.View(), request, now, rest) == outcome
        invariant total == TotalDrawn(allocations) && remaining == request.quantity - total
        invariant ids == NewIds(|before.reservations|, |allocations|)
        invariant |session.reservations| == |before.reservations| + |allocations|
      {
        var score := scores[i];
        i := i + 1;
        var quantity := Min(remaining, score.available);
        if 0 < score.available && (request.allowSplit || remaining <= quantity) {
          rest := Draws(scores[i..], remaining - quantity, request.allowSplit);
          TakeNext(session.View(), request, now, |before.reservations|, allocations, Draw(score.warehouse, quantity),
                   rest);
          var id, error := TakeDraw(request, score.warehouse, quantity, now);
          if error.Some? {
            return Failure(error.value);
          }
          allocations := allocations + [Draw(score.warehouse, quantity)];
          ids := ids + [id];
          total := total + quantity;
          remaining := remaining - quantity;
        }
      }

      assert rest == [] && plan == allocations;
      CommitNothing(session.View(), request, now);
      ZeroTotal(scores, request.quantity, request.allowSplit);
      if total == 0 {
        return Failure(Insufficient(request.quantity, SumOver(scores, AvailableOf())));
      }
      return Success(AllocationResult(request.line, allocations, total, remaining, ids));
    }

    method ReleaseSingleReservation(id: nat)
      requires id < |session.reservations|
      modifies session
      ensures session.View() == ReleaseSingle(old(session.View()), id)
    {
      var r := session.reservations[id];
      var home := GetBalance(session.balances, r.warehouse, r.sku);
      if home.Some? {
        var b := session.balances[home.value];
        if r.status == Confirmed {
          b := b.(allocatedQty := Max(0, b.allocatedQty - r.quantity));
        } else {
          b := b.(reserved := Max(0, b.reserved - r.quantity));
        }
        session.balances := session.balances[home.value := b.(version := b.version + 1)];
      }
      session.reservations := session.reservations[id := r.(status := Released)];
    }

    /** Releases the listed reservations one after another and adds up their quantities. */
    method ReleaseListed(ids: seq<nat>) returns (released: int)
      requires forall j :: 0 <= j < |ids| ==> ids[j] < |session.reservations|
      modifies session
      ensures session.View() == ReleaseMany(old(session.View()), ids)
      ensures released == SumOver(ids, QuantityOf(old(session.reservations)))
    {
      ghost var before := session.View();
      released := 0;
      for i := 0 to |ids|
        invariant |session.reservations| == |before.reservations|
        invariant session.View() == ReleaseMany(before, ids[..i])
        invariant forall j :: 0 <= j < |before.reservations| ==>
          session.reservations[j].quantity == before.reservations[j].quantity
        invariant released == SumOver(ids[..i], QuantityOf(before.reservations))
      {
        SumPrefix(ids, i, QuantityOf(before.reservations));
        assert ids[..i + 1][..i] == ids[..i];
        ReleaseSingleReservation(ids[i]);
        released := released + session.reservations[ids[i]].quantity;
      }
      assert ids[..|ids|] == ids;
    }

    method ReleaseReservations(order: OrderId) returns (released: int)
      modifies session
      ensures session.View() == ReleaseMany(old(session.View()), ActiveForOrder(old(session.reservations), order))
      ensures released ==
              SumOver(ActiveForOrder(old(session.reservations), order), QuantityOf(old(session.reservations)))
    {
      var ids := ActiveForOrder(session.reservations, order);
      released := ReleaseListed(ids);
    }

    method Confirm(id: nat, now: Time) returns (outcome: ConfirmOutcome)
      modifies session
      ensures (session.View(), outcome) == ConfirmAllocation(old(session.View()), id, now)
    {
      if id >= |session.reservations| {
        return NotFound;
      }
      var r := session.reservations[id];
      if r.status != Active {
        return NotActive;
      }
      if r.expiresAt < now {
        ReleaseSingleReservation(id);
        return Lapsed;
      }
      session.reservations := session.reservations[id := r.(status := Confirmed)];
      var home := GetBalance(session.balances, r.warehouse, r.sku);
      if home.Some? {
        var b := session.balances[home.value];
        session.balances := session.balances[home.value :=
          b.(reserved := b.reserved - r.quantity, allocatedQty := b.allocatedQty + r.quantity,
             version := b.version + 1)];
      }
      return Done;
    }
  }

  // ----- what the draws are

  lemma {:induction false} PositiveDraws(scores: seq<WarehouseScore>, remaining: int, allowSplit: bool)
    ensures forall d :: d in Draws(scores, remaining, allowSplit) ==> 0 < d.quantity
    decreases |scores|
  {
    if scores != [] && 0 < remaining {
      PositiveDraws(scores[1..], remaining, allowSplit);
      PositiveDraws(scores[1..], remaining - Min(remaining, scores[0].available), allowSplit);
    }
  }

  /** A zero total means that nothing at all was drawn. */
  lemma ZeroTotal(scores: seq<WarehouseScore>, remaining: int, allowSplit: bool)
    ensures TotalDrawn(Draws(scores, remaining, allowSplit)) == 0 <==> Draws(scores, remaining, allowSplit) == []
  {
    var draws := Draws(scores, remaining, allowSplit);
    PositiveDraws(scores, remaining, allowSplit);
    if draws != [] {
      SumCoversElement(draws, 0, DrawQuantity());
    }
  }
}
