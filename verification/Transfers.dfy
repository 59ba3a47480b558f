/** Stock transfers between warehouses. */
module Transfers {
  import opened Sums
  import opened Tables

  datatype InitiateOutcome = Initiated(id: nat) | SameWarehouse | InsufficientStock(available: int)

  datatype TransferOutcome = Moved | UnknownTransfer | WrongStatus

  function InitiateRow(b: Balance, q: int): Balance {
    b.(onHand := b.onHand - q, inTransit := b.inTransit + q, version := b.version + 1)
  }

  function Initiate(db: Db, source: WarehouseId, destination: WarehouseId, k: SkuId, q: int): (Db, InitiateOutcome) {
    if source == destination then (db, SameWarehouse)
    else
      var available := AggregatedAvailable(db.balances, source, k);
      if available < q then (db, InsufficientStock(available))
      else
        var bs := match GetBalance(db.balances, source, k)
          case None => db.balances
          case Some(h) => db.balances[h := InitiateRow(db.balances[h], q)];
        (db.(balances := bs, transfers := db.transfers + [Transfer(source, destination, k, q, 0, 0, Pending)]),
         Initiated(|db.transfers|))
  }

  function Ship(db: Db, id: nat): (Db, TransferOutcome) {
    if id >= |db.transfers| then (db, UnknownTransfer)
    else
      var t := db.transfers[id];
      if t.status != Pending && t.status != Picking then (db, WrongStatus)
      else (db.(transfers := db.transfers[id := t.(status := Shipped, shipped := t.quantity)]), Moved)
  }

  /** An omitted or zero quantity means everything that was shipped. */
  function ReceivedQuantity(t: Transfer, quantity: Option<int>): int {
    if quantity.None? || quantity.value == 0 then t.shipped else quantity.value
  }

  function DebitSource(bs: seq<Balance>, t: Transfer, q: int): seq<Balance> {
    match GetBalance(bs, t.source, t.sku)
    case None => bs
    case Some(h) => bs[h := bs[h].(inTransit := Max(0, bs[h].inTransit - q))]
  }

  function NewBalance(w: WarehouseId, k: SkuId, onHand: int): Balance {
    Balance(w, k, None, onHand, 0, 0, 0, 0, 0, 1)
  }

  function CreditDestination(bs: seq<Balance>, t: Transfer, q: int): seq<Balance> {
    match GetBalance(bs, t.destination, t.sku)
    case None => bs + [NewBalance(t.destination, t.sku, q)]
    case Some(h) => bs[h := bs[h].(onHand := bs[h].onHand + q, version := bs[h].version + 1)]
  }

  function Receive(db: Db, id: nat, quantity: Option<int>): (Db, TransferOutcome) {
    if id >= |db.transfers| then (db, UnknownTransfer)
    else
      var t := db.transfers[id];
      if t.status != Shipped && t.status != InTransit then (db, WrongStatus)
      else
        var q := ReceivedQuantity(t, quantity);
        (db.(transfers := db.transfers[id := t.(received := q, status := Received)],
             balances := CreditDestination(DebitSource(db.balances, t, q), t, q)), Moved)
  }

  class TransferService {
    const session: Session

    constructor (session: Session)
      ensures this.session == session
    {
      this.session := session;
    }

    method InitiateTransfer(source: WarehouseId, destination: WarehouseId, sku: SkuId, quantity: int)
      returns (outcome: InitiateOutcome)
      modifies session
      ensures (session.View(), outcome) == Initiate(old(session.View()), source, destination, sku, quantity)
    {
      if source == destination {
        return SameWarehouse;
      }
      var available := AggregatedAvailable(session.balances, source, sku);
      if available < quantity {
        return InsufficientStock(available);
      }
      outcome := Initiated(|session.transfers|);
      session.transfers := session.transfers + [Transfer(source, destination, sku, quantity, 0, 0, Pending)];
      var home := GetBalance(session.balances, source, sku);
      if home.Some? {
        var b := session.balances[home.value];
        session.balances := session.balances[home.value :=
          b.(onHand := b.onHand - quantity, inTransit := b.inTransit + quantity, version := b.version + 1)];
      }
    }

    method ShipTransfer(id: nat) returns (outcome: TransferOutcome)
      modifies session
      ensures (session.View(), outcome) == Ship(old(session.View()), id)
    {
      if id >= |session.transfers| {
        return UnknownTransfer;
      }
      var t := session.transfers[id];
      if t.status != Pending && t.status != Picking {
        return WrongStatus;
      }
      session.transfers := session.transfers[id := t.(status := Shipped, shipped := t.quantity)];
      return Moved;
    }

    method ReceiveTransfer(id: nat, quantity: Option<int>) returns (outcome: TransferOutcome)
      modifies session
      ensures (session.View(), outcome) == Receive(old(session.View()), id, quantity)
    {
      if id >= |session.transfers| {
        return UnknownTransfer;
      }
      var t := session.transfers[id];
      if t.status != Shipped && t.status != InTransit {
        return WrongStatus;
      }
      var q := if quantity.Some? && quantity.value != 0 then quantity.value else t.shipped;
      session.transfers := session.transfers[id := t.(received := q, status := Received)];
      var source := GetBalance(session.balances, t.source, t.sku);
      if source.Some? {
        var b := session.balances[source.value];
        session.balances := session.balances[source.value := b.(inTransit := Max(0, b.inTransit - q))];
      }
      var destination := GetBalance(session.balances, t.destination, t.sku);
      if destination.Some? {
        var b := session.balances[destination.value];
        session.balances := session.balances[destination.value := b.(onHand := b.onHand + q, version := b.version + 1)];
      } else {
        session.balances := session.balances + [Balance(t.destination, t.sku, None, q, 0, 0, 0, 0, 0, 1)];
      }
      return Moved;
    }
  }
}
