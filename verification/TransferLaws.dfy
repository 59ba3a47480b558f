/** Where a transfer's units are after each of its steps, warehouse by warehouse. */
module TransferLaws {
  import opened Sums
  import opened Tables
  import opened AllocationLaws
  import opened Transfers
  import opened Ledger

  /** `change` units more on hand at one warehouse and SKU and `moving` more in transit at another place; everything
      else as it was. */
  ghost predicate UnitsMoved(before: seq<Balance>, after: seq<Balance>, k: SkuId, at: WarehouseId, change: int,
                             from: WarehouseId, moving: int)
  {
    && (forall w, s :: OnHandSum(after, w, s) == OnHandSum(before, w, s) + (if w == at && s == k then change else 0))
    && (forall w, s :: RawSum(after, w, s) == RawSum(before, w, s) + (if w == at && s == k then change else 0))
    && (forall w, s :: InTransitSum(after, w, s)
                       == InTransitSum(before, w, s) + (if w == from && s == k then moving else 0))
    && (forall w, s :: ReservedSum(after, w, s) == ReservedSum(before, w, s))
    && (forall w, s :: AllocatedSum(after, w, s) == AllocatedSum(before, w, s))
  }

  /** Rows stay in place, and only the version of `row`, if any, has been counted on. */
  ghost predicate Stamped(before: seq<Balance>, after: seq<Balance>, row: Option<nat>) {
    && |before| <= |after|
    && forall i :: 0 <= i < |before| ==>
         after[i].version == before[i].version + if row == Some(i) then 1 else 0
  }

  lemma OnHandMoved(bs: seq<Balance>, h: nat, row: Balance)
    requires h < |bs| && row.warehouse == bs[h].warehouse && row.sku == bs[h].sku
    ensures forall w, k :: OnHandSum(bs[h := row], w, k)
              == OnHandSum(bs, w, k) + (if row.At(w, k) then row.onHand - bs[h].onHand else 0)
  {
    hide SumOver;
    forall w, k {
      SumUpdate(bs, h, row, OnHandAt(w, k));
    }
  }

  lemma RowUnits(bs: seq<Balance>, h: nat, row: Balance)
    requires h < |bs|
    requires row == bs[h].(onHand := row.onHand, inTransit := row.inTransit, version := row.version)
    ensures SameKeys(bs, bs[h := row])
    ensures UnitsMoved(bs, bs[h := row], row.sku, row.warehouse, row.onHand - bs[h].onHand,
                       row.warehouse, row.inTransit - bs[h].inTransit)
  {
    hide SumOver, NetworkTotal;
    OnHandMoved(bs, h, row);
    RowMoved(bs, h, row);
  }

  lemma NewRowUnits(bs: seq<Balance>, w: WarehouseId, k: SkuId, q: int, from: WarehouseId)
    ensures UnitsMoved(bs, bs + [Balance(w, k, None, q, 0, 0, 0, 0, 0, 1)], k, w, q, from, 0)
  {
    hide SumOver;
    forall v, s {
      EachRowCounts(bs, Balance(w, k, None, q, 0, 0, 0, 0, 0, 1), v, s);
    }
  }

  lemma MovesCompose(a: seq<Balance>, b: seq<Balance>, c: seq<Balance>, k: SkuId, from: WarehouseId, moving: int,
                     at: WarehouseId, change: int)
    requires UnitsMoved(a, b, k, from, 0, from, moving) && UnitsMoved(b, c, k, at, change, from, 0)
    ensures UnitsMoved(a, c, k, at, change, from, moving)
  {
    hide SumOver;
  }

  // ----- initiating

  /** A transfer is refused within one warehouse or when the source shows less than is asked for. Otherwise the units
      leave the source's hand for its transit, and a pending transfer to the destination is recorded. */
  lemma InitiationMoves(db: Db, source: WarehouseId, destination: WarehouseId, k: SkuId, q: int)
    ensures
      var (after, outcome) := Initiate(db, source, destination, k, q);
      var shown := Max(0, RawSum(db.balances, source, k));
      && (outcome == SameWarehouse <==> source == destination)
      && (outcome.InsufficientStock? <==> source != destination && shown < q)
      && (outcome.InsufficientStock? ==> outcome.available == shown)
      && (!outcome.Initiated? ==> after == db)
      && (outcome.Initiated? ==>
            var moved := if HasHome(db.balances, source, k) then q else 0;
            && outcome.id == |db.transfers|
            && after.transfers == db.transfers + [Transfer(source, destination, k, q, 0, 0, Pending)]
            && after.warehouses == db.warehouses && after.reservations == db.reservations
            && UnitsMoved(db.balances, after.balances, k, source, -moved, source, moved)
            && Stamped(db.balances, after.balances, GetBalance(db.balances, source, k)))
  {
    hide SumOver, UnitsMoved;
    var (after, outcome) := Initiate(db, source, destination, k, q);
    if outcome.Initiated? {
      match GetBalance(db.balances, source, k)
      case None => NothingMoves(db.balances, k, source);
      case Some(h) => RowUnits(db.balances, h, after.balances[h]);
    }
  }

  lemma NothingMoves(bs: seq<Balance>, k: SkuId, w: WarehouseId)
    ensures UnitsMoved(bs, bs, k, w, 0, w, 0)
  {
  }

  /** Only a pending or picking transfer is shipped, all of it, and no stock row changes. */
  lemma ShippingRecords(db: Db, id: nat)
    ensures
      var (after, outcome) := Ship(db, id);
      && (outcome == UnknownTransfer <==> id >= |db.transfers|)
      && (outcome == Moved <==> id < |db.transfers| && db.transfers[id].status in {Pending, Picking})
      && (outcome != Moved ==> after == db)
      && (outcome == Moved ==>
            var t := db.transfers[id];
            after == db.(transfers := db.transfers[id := t.(status := Shipped, shipped := t.quantity)]))
  {
  }

  // ----- receiving

  /** A receipt is refused exactly for an unknown transfer or one that is not on its way. Otherwise the units received
      arrive at the destination and nowhere else, and leave the source's transit as far as it shows them. */
  lemma ReceiptMoves(db: Db, id: nat, quantity: Option<int>)
    ensures
      var (after, outcome) := Receive(db, id, quantity);
      && (outcome == UnknownTransfer <==> id >= |db.transfers|)
      && (outcome == Moved <==>
            id < |db.transfers| && db.transfers[id].status in {Shipped, TransferStatus.InTransit})
      && (outcome != Moved ==> after == db)
      && (outcome == Moved ==>
            var t := db.transfers[id];
            var q := if quantity.Some? && quantity.value != 0 then quantity.value else t.shipped;
            var home := GetBalance(db.balances, t.source, t.sku);
            var left := if home.Some? then Min(q, db.balances[home.value].inTransit) else 0;
            && after.transfers == db.transfers[id := t.(received := q, status := TransferStatus.Received)]
            && after.warehouses == db.warehouses && after.reservations == db.reservations
            && HasHome(after.balances, t.destination, t.sku)
            && UnitsMoved(db.balances, after.balances, t.sku, t.destination, q, t.source, -left)
            && Stamped(db.balances, after.balances, GetBalance(db.balances, t.destination, t.sku)))
  {
    hide SumOver, UnitsMoved, Stamped;
    if Receive(db, id, quantity).1 == Moved {
      ReceiptStamps(db, id, quantity);
      var t := db.transfers[id];
      var q := ReceivedQuantity(t, quantity);
      var mid, after := DebitSource(db.balances, t, q), Receive(db, id, quantity).0.balances;
      match GetBalance(db.balances, t.source, t.sku) {
        case None => NothingMoves(db.balances, t.sku, t.source);
        case Some(h) => RowUnits(db.balances, h, mid[h]);
      }
      var left := match GetBalance(db.balances, t.source, t.sku)
        case None => 0
        case Some(h) => Min(q, db.balances[h].inTransit);
      assert UnitsMoved(db.balances, mid, t.sku, t.source, 0, t.source, -left);
      match GetBalance(mid, t.destination, t.sku) {
        case None =>
          NewRowUnits(mid, t.destination, t.sku, q, t.source);
          assert after[|mid|].IsHome(t.destination, t.sku);
        case Some(d) =>
          RowUnits(mid, d, after[d]);
          assert after[d].IsHome(t.destination, t.sku);
          NoTransit(mid, after, t.sku, t.destination, q, t.source);
      }
      MovesCompose(db.balances, mid, after, t.sku, t.source, -left, t.destination, q);
    }
  }

  lemma ReceiptStamps(db: Db, id: nat, quantity: Option<int>)
    requires Receive(db, id, quantity).1 == Moved
    ensures Stamped(db.balances, Receive(db, id, quantity).0.balances,
                    GetBalance(db.balances, db.transfers[id].destination, db.transfers[id].sku))
  {
    var t := db.transfers[id];
    HomesStable(db.balances, DebitSource(db.balances, t, ReceivedQuantity(t, quantity)));
  }

  /** Where nothing moves it does not matter at which place. */
  lemma NoTransit(before: seq<Balance>, after: seq<Balance>, k: SkuId, at: WarehouseId, change: int, from: WarehouseId)
    requires UnitsMoved(before, after, k, at, change, at, 0)
    ensures UnitsMoved(before, after, k, at, change, from, 0)
  {
  }

  // ----- from initiation to receipt

  /** Carried through, a transfer takes its units off the source's hand and adds them to the destination's; nothing
      stays in transit and no other stock changes. */
  lemma CarriedThrough(db: Db, source: WarehouseId, destination: WarehouseId, k: SkuId, q: int)
    requires Initiate(db, source, destination, k, q).1.Initiated? && HasHome(db.balances, source, k)
    requires 0 <= db.balances[GetBalance(db.balances, source, k).value].inTransit
    ensures
      var id := |db.transfers|;
      var sent := Initiate(db, source, destination, k, q).0;
      var (shipped, s) := Ship(sent, id);
      var (after, r) := Receive(shipped, id, None);
      && s == Moved && r == Moved
      && after.transfers == db.transfers + [Transfer(source, destination, k, q, q, q, TransferStatus.Received)]
      && (forall w, i :: OnHandSum(after.balances, w, i) == OnHandSum(db.balances, w, i)
            + (if i == k && w == destination then q else if i == k && w == source then -q else 0))
      && (forall w, i :: InTransitSum(after.balances, w, i) == InTransitSum(db.balances, w, i))
  {
    hide SumOver;
    var id := |db.transfers|;
    var h := GetBalance(db.balances, source, k).value;
    var sent := Initiate(db, source, destination, k, q).0;
    var shipped := Ship(sent, id).0;
    InitiationMoves(db, source, destination, k, q);
    ShippingRecords(sent, id);
    ReceiptMoves(shipped, id, None);
    RowUnits(db.balances, h, sent.balances[h]);
    HomesStable(db.balances, sent.balances);
    assert sent.balances[h].inTransit == db.balances[h].inTransit + q;
  }
}
