/** The inventory tables and the repository queries over them. */
module Tables {
  import opened Sums
  import opened Sorting

  type WarehouseId = nat
  type SkuId = nat
  type OrderId = nat
  type LineId = nat
  type LocationId = nat
  /** Seconds on the server clock. */
  type Time = int

  datatype Option<+T> = None | Some(value: T)

  datatype Warehouse = Warehouse(id: WarehouseId, isActive: bool, priority: int)

  /** One row of `inventory_balances`. The row without a location is the warehouse's home row for the SKU. */
  datatype Balance = Balance(warehouse: WarehouseId, sku: SkuId, location: Option<LocationId>,
                             onHand: int, reserved: int, allocatedQty: int, inTransit: int,
                             damaged: int, quarantine: int, version: int)
  {
    function Raw(): int { onHand - reserved - allocatedQty - damaged - quarantine }

    function Available(): int { Max(0, Raw()) }

    predicate At(w: WarehouseId, k: SkuId) { warehouse == w && sku == k }

    predicate IsHome(w: WarehouseId, k: SkuId) { At(w, k) && location.None? }
  }

  datatype ReservationStatus = Active | Confirmed | Released

  /** A reservation row; its id is its position in the table, which only grows. */
  datatype Reservation = Reservation(order: OrderId, line: LineId, warehouse: WarehouseId, sku: SkuId,
                                     quantity: int, status: ReservationStatus, expiresAt: Time)

  datatype TransferStatus = Pending | Picking | Shipped | InTransit | Received

  datatype Transfer = Transfer(source: WarehouseId, destination: WarehouseId, sku: SkuId, quantity: int,
                               shipped: int, received: int, status: TransferStatus)

  datatype Db = Db(warehouses: seq<Warehouse>, balances: seq<Balance>,
                   reservations: seq<Reservation>, transfers: seq<Transfer>)

  /** The database session: every engine reads and rewrites rows through it. */
  class Session {
    var warehouses: seq<Warehouse>
    var balances: seq<Balance>
    var reservations: seq<Reservation>
    var transfers: seq<Transfer>

    constructor (db: Db)
      ensures View() == db
    {
      warehouses, balances, reservations, transfers := db.warehouses, db.balances, db.reservations, db.transfers;
    }

    function View(): Db
      reads this
    {
      Db(warehouses, balances, reservations, transfers)
    }
  }

  // ----- repository queries

  function RawAt(w: WarehouseId, k: SkuId): Balance -> int {
    (b: Balance) => if b.At(w, k) then b.Raw() else 0
  }

  function ReservedAt(w: WarehouseId, k: SkuId): Balance -> int {
    (b: Balance) => if b.At(w, k) then b.reserved else 0
  }

  function AllocatedAt(w: WarehouseId, k: SkuId): Balance -> int {
    (b: Balance) => if b.At(w, k) then b.allocatedQty else 0
  }

  function OnHandAt(w: WarehouseId, k: SkuId): Balance -> int {
    (b: Balance) => if b.At(w, k) then b.onHand else 0
  }

  function InTransitAt(w: WarehouseId, k: SkuId): Balance -> int {
    (b: Balance) => if b.At(w, k) then b.inTransit else 0
  }

  function QuantityIn(w: WarehouseId, k: SkuId, status: ReservationStatus): Reservation -> int {
    (r: Reservation) => if r.warehouse == w && r.sku == k && r.status == status then r.quantity else 0
  }

  function RawSum(bs: seq<Balance>, w: WarehouseId, k: SkuId): int { SumOver(bs, RawAt(w, k)) }

  function ReservedSum(bs: seq<Balance>, w: WarehouseId, k: SkuId): int { SumOver(bs, ReservedAt(w, k)) }

  function AllocatedSum(bs: seq<Balance>, w: WarehouseId, k: SkuId): int { SumOver(bs, AllocatedAt(w, k)) }

  function OnHandSum(bs: seq<Balance>, w: WarehouseId, k: SkuId): int { SumOver(bs, OnHandAt(w, k)) }

  function InTransitSum(bs: seq<Balance>, w: WarehouseId, k: SkuId): int { SumOver(bs, InTransitAt(w, k)) }

  /** `sum_reserved_quantity`. */
  function ActiveSum(rs: seq<Reservation>, w: WarehouseId, k: SkuId): int { SumOver(rs, QuantityIn(w, k, Active)) }

  function ConfirmedSum(rs: seq<Reservation>, w: WarehouseId, k: SkuId): int {
    SumOver(rs, QuantityIn(w, k, Confirmed))
  }

  /** `get_aggregated_available`: summed over every location, then clamped. */
  function AggregatedAvailable(bs: seq<Balance>, w: WarehouseId, k: SkuId): int { Max(0, RawSum(bs, w, k)) }

  function DamagedAt(w: WarehouseId, k: SkuId): Balance -> int {
    (b: Balance) => if b.At(w, k) then b.damaged else 0
  }

  function QuarantineAt(w: WarehouseId, k: SkuId): Balance -> int {
    (b: Balance) => if b.At(w, k) then b.quarantine else 0
  }

  /** What is available is what stands there less the reserved, allocated, damaged and quarantined units. */
  lemma {:induction false} RawIsTheRest(bs: seq<Balance>, w: WarehouseId, k: SkuId)
    ensures RawSum(bs, w, k) == OnHandSum(bs, w, k) - ReservedSum(bs, w, k) - AllocatedSum(bs, w, k)
                                - SumOver(bs, DamagedAt(w, k)) - SumOver(bs, QuarantineAt(w, k))
    decreases |bs|
  {
    if bs != [] {
      RawIsTheRest(bs[..|bs| - 1], w, k);
    }
  }

  /** Every row counts, at its own warehouse and SKU only, wherever it is stored. */
  lemma EachRowCounts(bs: seq<Balance>, b: Balance, w: WarehouseId, k: SkuId)
    ensures
      var here := b.warehouse == w && b.sku == k;
      && OnHandSum(bs + [b], w, k) == OnHandSum(bs, w, k) + (if here then b.onHand else 0)
      && ReservedSum(bs + [b], w, k) == ReservedSum(bs, w, k) + (if here then b.reserved else 0)
      && AllocatedSum(bs + [b], w, k) == AllocatedSum(bs, w, k) + (if here then b.allocatedQty else 0)
      && InTransitSum(bs + [b], w, k) == InTransitSum(bs, w, k) + (if here then b.inTransit else 0)
      && RawSum(bs + [b], w, k) == RawSum(bs, w, k)
           + (if here then b.onHand - b.reserved - b.allocatedQty - b.damaged - b.quarantine else 0)
  {
    SumSnoc(bs, b, OnHandAt(w, k));
    SumSnoc(bs, b, ReservedAt(w, k));
    SumSnoc(bs, b, AllocatedAt(w, k));
    SumSnoc(bs, b, InTransitAt(w, k));
    SumSnoc(bs, b, RawAt(w, k));
  }

  /** `get_balance` without a location: the position of the home row. */
  function GetBalance(bs: seq<Balance>, w: WarehouseId, k: SkuId): (r: Option<nat>)
    ensures r.Some? ==> r.value < |bs| && bs[r.value].IsHome(w, k)
    ensures r.None? ==> forall i :: 0 <= i < |bs| ==> !bs[i].IsHome(w, k)
  {
    FindHome(bs, w, k, 0)
  }

  function FindHome(bs: seq<Balance>, w: WarehouseId, k: SkuId, from: nat): (r: Option<nat>)
    requires from <= |bs|
    ensures r.Some? ==> from <= r.value < |bs| && bs[r.value].IsHome(w, k)
    ensures r.None? ==> forall i :: from <= i < |bs| ==> !bs[i].IsHome(w, k)
    decreases |bs| - from
  {
    if from == |bs| then None
    else if bs[from].IsHome(w, k) then Some(from)
    else FindHome(bs, w, k, from + 1)
  }

  predicate HasHome(bs: seq<Balance>, w: WarehouseId, k: SkuId) { GetBalance(bs, w, k).Some? }

  /** At most one home row per warehouse and SKU, without which `get_balance` cannot answer. */
  ghost predicate UniqueHomes(bs: seq<Balance>) {
    forall i, j :: 0 <= i < j < |bs| && bs[i].location.None? && bs[j].location.None?
      ==> bs[i].warehouse != bs[j].warehouse || bs[i].sku != bs[j].sku
  }

  function ActiveOnly(ws: seq<Warehouse>): (r: seq<Warehouse>)
    ensures forall w :: w in r <==> w in ws && w.isActive
  {
    if ws == [] then []
    else if ws[|ws| - 1].isActive then ActiveOnly(ws[..|ws| - 1]) + [ws[|ws| - 1]]
    else ActiveOnly(ws[..|ws| - 1])
  }

  function ByPriority(): (Warehouse, Warehouse) -> bool {
    (a: Warehouse, b: Warehouse) => a.priority <= b.priority
  }

  /** `list_active`: the active warehouses by ascending priority number. */
  function ListActive(ws: seq<Warehouse>): seq<Warehouse> { Sort(ActiveOnly(ws), ByPriority()) }

  function WarehouseKey(): Warehouse -> WarehouseId { (w: Warehouse) => w.id }

  /** Warehouse ids are primary keys. */
  ghost predicate DistinctWarehouses(ws: seq<Warehouse>) { DistinctBy(ws, WarehouseKey()) }

  lemma {:induction false} ActiveOnlyDistinct(ws: seq<Warehouse>)
    requires DistinctWarehouses(ws)
    ensures DistinctWarehouses(ActiveOnly(ws))
    decreases |ws|
  {
    if ws != [] {
      var k := |ws| - 1;
      ActiveOnlyDistinct(ws[..k]);
      forall w | w in ActiveOnly(ws[..k]) ensures w.id != ws[k].id {
        var i :| 0 <= i < k && ws[..k][i] == w;
        assert WarehouseKey()(ws[i]) != WarehouseKey()(ws[k]);
      }
    }
  }

  lemma ListActiveDistinct(ws: seq<Warehouse>)
    requires DistinctWarehouses(ws)
    ensures DistinctWarehouses(ListActive(ws))
    ensures forall w :: w in ListActive(ws) <==> w in ws && w.isActive
  {
    ActiveOnlyDistinct(ws);
    SortKeepsDistinct(ActiveOnly(ws), ByPriority(), WarehouseKey());
    SortMembers(ActiveOnly(ws), ByPriority());
  }

  /** `list_active` goes through the active warehouses by ascending priority number. */
  lemma ListedByPriority(ws: seq<Warehouse>, i: nat, j: nat)
    requires i < j < |ListActive(ws)|
    ensures ListActive(ws)[i].isActive && ListActive(ws)[i].priority <= ListActive(ws)[j].priority
    ensures multiset(ListActive(ws)) == multiset(ActiveOnly(ws))
  {
    SortSorts(ActiveOnly(ws), ByPriority());
    SortMembers(ActiveOnly(ws), ByPriority());
    SortPermutes(ActiveOnly(ws), ByPriority());
    assert ListActive(ws)[i] in ListActive(ws);
    assert ByPriority()(ListActive(ws)[i], ListActive(ws)[j]);
  }

  /** `get_active_for_order` and `get_expired`: positions, in table order, of the rows a filter keeps. */
  function Positions(rs: seq<Reservation>, keep: Reservation -> bool): (ids: seq<nat>)
    ensures forall i: nat :: i in ids <==> i < |rs| && keep(rs[i])
    ensures forall a :: 0 <= a < |ids| ==> ids[a] < |rs| && keep(rs[ids[a]])
    ensures forall a, b :: 0 <= a < b < |ids| ==> ids[a] < ids[b]
  {
    if rs == [] then []
    else
      var n := |rs| - 1;
      var front := Positions(rs[..n], keep);
      if keep(rs[n]) then front + [n] else front
  }

  function ActiveOf(order: OrderId): Reservation -> bool {
    (r: Reservation) => r.order == order && r.status == Active
  }

  function ExpiredBy(now: Time): Reservation -> bool {
    (r: Reservation) => r.status == Active && r.expiresAt < now
  }

  function ActiveForOrder(rs: seq<Reservation>, order: OrderId): seq<nat> { Positions(rs, ActiveOf(order)) }

  function Expired(rs: seq<Reservation>, now: Time): seq<nat> { Positions(rs, ExpiredBy(now)) }
}
