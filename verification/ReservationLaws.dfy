/** Which reservations release, confirmation, expiry and extension touch, row by row, and what they return. */
module ReservationLaws {
  import opened Sums
  import opened Tables
  import opened Allocation
  import opened AllocationLaws
  import opened Reservations
  import opened Ledger

  function HeldBy(order: OrderId): Reservation -> int {
    (r: Reservation) => if r.order == order && r.status == Active then r.quantity else 0
  }

  function LapsedBy(now: Time): Reservation -> int {
    (r: Reservation) => if r.status == Active && r.expiresAt < now then r.quantity else 0
  }

  function IsLapsed(now: Time): Reservation -> int {
    (r: Reservation) => if r.status == Active && r.expiresAt < now then 1 else 0
  }

  /** How many of the first `n` reservations are active ones of the order. */
  function Turn(rs: seq<Reservation>, order: OrderId, n: nat): nat
    requires n <= |rs|
  {
    if n == 0 then 0
    else Turn(rs, order, n - 1) + if rs[n - 1].order == order && rs[n - 1].status == Active then 1 else 0
  }

  /** How many of those have not expired when their turn comes. */
  function UnexpiredAmong(rs: seq<Reservation>, order: OrderId, clock: nat -> Time, n: nat): nat
    requires n <= |rs|
  {
    if n == 0 then 0
    else
      var r := rs[n - 1];
      UnexpiredAmong(rs, order, clock, n - 1)
        + if r.order == order && r.status == Active && clock(Turn(rs, order, n - 1)) <= r.expiresAt then 1 else 0
  }

  function KeptQuantity(keep: Reservation -> bool): Reservation -> int {
    (r: Reservation) => if keep(r) then r.quantity else 0
  }

  function Kept(keep: Reservation -> bool): Reservation -> int { (r: Reservation) => if keep(r) then 1 else 0 }

  /** The quantities of the rows found among the first `n`, and how many these are. */
  function FoundAmong(rs: seq<Reservation>, keep: Reservation -> bool, n: nat): (int, nat)
    requires n <= |rs|
  {
    (SumOver(Positions(rs[..n], keep), QuantityOf(rs)), |Positions(rs[..n], keep)|)
  }

  /** Adding up over the positions found is adding up over the rows kept. */
  lemma {:induction false} PositionsSum(rs: seq<Reservation>, keep: Reservation -> bool, n: nat)
    requires n <= |rs|
    ensures FoundAmong(rs, keep, n) == (SumOver(rs[..n], KeptQuantity(keep)), SumOver(rs[..n], Kept(keep)))
    decreases n
  {
    hide SumOver, FoundAmong;
    if n == 0 {
      NothingFound(rs, keep);
    } else {
      PositionsSum(rs, keep, n - 1);
      SumPrefix(rs, n - 1, KeptQuantity(keep));
      SumPrefix(rs, n - 1, Kept(keep));
      PositionsNext(rs, keep, n - 1);
    }
  }

  lemma NothingFound(rs: seq<Reservation>, keep: Reservation -> bool)
    ensures FoundAmong(rs, keep, 0) == (0, 0)
    ensures SumOver(rs[..0], KeptQuantity(keep)) == 0 && SumOver(rs[..0], Kept(keep)) == 0
  {
    assert rs[..0] == [];
  }

  lemma PositionsNext(rs: seq<Reservation>, keep: Reservation -> bool, n: nat)
    requires n < |rs|
    ensures
      var (sum, count) := FoundAmong(rs, keep, n);
      FoundAmong(rs, keep, n + 1) == (sum + KeptQuantity(keep)(rs[n]), count + Kept(keep)(rs[n]))
  {
    hide SumOver;
    var front := Positions(rs[..n], keep);
    assert rs[..n + 1][..n] == rs[..n];
    SumSnoc<nat>(front, n, QuantityOf(rs));
  }

  // ----- release and expiry

  /** `release_reservations` releases every active reservation of the order and no other row, and the quantities it
      adds up are those of exactly these rows. */
  lemma ReleasesTheOrder(db: Db, order: OrderId)
    ensures
      var after := Next(db, Releasing(order)).reservations;
      && |after| == |db.reservations|
      && forall i :: 0 <= i < |after| ==>
           var r := db.reservations[i];
           after[i] == if r.order == order && r.status == Active then r.(status := Released) else r
    ensures SumOver(ActiveForOrder(db.reservations, order), QuantityOf(db.reservations))
         == SumOver(db.reservations, HeldBy(order))
  {
    hide ReleaseMany, SumOver;
    ReleaseManyFates(db, ActiveForOrder(db.reservations, order));
    PositionsSum(db.reservations, ActiveOf(order), |db.reservations|);
    assert db.reservations[..|db.reservations|] == db.reservations;
    SumCongruence(db.reservations, db.reservations, KeptQuantity(ActiveOf(order)), HeldBy(order));
  }

  /** `process_expired` does the same to the active reservations whose time has passed. */
  lemma ReleasesTheExpired(db: Db, now: Time)
    ensures
      var after := Next(db, Expiring(now)).reservations;
      && |after| == |db.reservations|
      && forall i :: 0 <= i < |after| ==>
           var r := db.reservations[i];
           after[i] == if r.status == Active && r.expiresAt < now then r.(status := Released) else r
    ensures SumOver(Expired(db.reservations, now), QuantityOf(db.reservations))
         == SumOver(db.reservations, LapsedBy(now))
    ensures |Expired(db.reservations, now)| == SumOver(db.reservations, IsLapsed(now))
  {
    hide ReleaseMany, SumOver;
    var rs := db.reservations;
    ReleaseManyFates(db, Expired(rs, now));
    PositionsSum(rs, ExpiredBy(now), |rs|);
    assert rs[..|rs|] == rs;
    SumCongruence(rs, rs, KeptQuantity(ExpiredBy(now)), LapsedBy(now));
    SumCongruence(rs, rs, Kept(ExpiredBy(now)), IsLapsed(now));
  }

  function TakenOff(x: int, q: int): int { if x < q then 0 else x - q }

  /** A release takes the quantity off the home row's counter, the allocated one once confirmed and else the reserved
      one, stopping at zero; without a home row only the reservation changes. */
  lemma ReleaseExactly(db: Db, id: nat)
    requires id < |db.reservations|
    ensures
      var after, r := ReleaseSingle(db, id), db.reservations[id];
      && after.reservations == db.reservations[id := r.(status := Released)]
      && after.warehouses == db.warehouses && after.transfers == db.transfers
      && match GetBalance(db.balances, r.warehouse, r.sku)
         case None => after.balances == db.balances
         case Some(h) =>
           var b := db.balances[h];
           after.balances == db.balances[h :=
             if r.status == Confirmed then
               b.(allocatedQty := TakenOff(b.allocatedQty, r.quantity), version := b.version + 1)
             else b.(reserved := TakenOff(b.reserved, r.quantity), version := b.version + 1)]
  {
  }

  // ----- confirmation

  /** The order's `t`-th active reservation is the `t`-th one found. */
  lemma {:induction false} FoundInTurn(rs: seq<Reservation>, order: OrderId)
    ensures |ActiveForOrder(rs, order)| == Turn(rs, order, |rs|)
    ensures forall i :: 0 <= i < |rs| && rs[i].order == order && rs[i].status == Active ==>
              Turn(rs, order, i) < |ActiveForOrder(rs, order)| && ActiveForOrder(rs, order)[Turn(rs, order, i)] == i
    decreases |rs|
  {
    if rs != [] {
      var n := |rs| - 1;
      FoundInTurn(rs[..n], order);
      forall i | 0 <= i <= n ensures Turn(rs[..n], order, i) == Turn(rs, order, i) {
        TurnOfPrefix(rs, order, n, i);
      }
    }
  }

  lemma {:induction false} TurnOfPrefix(rs: seq<Reservation>, order: OrderId, n: nat, i: nat)
    requires i <= n <= |rs|
    ensures Turn(rs[..n], order, i) == Turn(rs, order, i)
    decreases i
  {
    if i > 0 {
      TurnOfPrefix(rs, order, n, i - 1);
    }
  }

  lemma {:induction false} UnexpiredOfPrefix(rs: seq<Reservation>, order: OrderId, clock: nat -> Time, n: nat, i: nat)
    requires i <= n <= |rs|
    ensures UnexpiredAmong(rs[..n], order, clock, i) == UnexpiredAmong(rs, order, clock, i)
    decreases i
  {
    if i > 0 {
      UnexpiredOfPrefix(rs, order, clock, n, i - 1);
      TurnOfPrefix(rs, order, n, i - 1);
    }
  }

  lemma {:induction false} UnexpiredCounted(rs: seq<Reservation>, order: OrderId, clock: nat -> Time)
    ensures UnexpiredCount(rs, ActiveForOrder(rs, order), clock) == UnexpiredAmong(rs, order, clock, |rs|)
    decreases |rs|
  {
    if rs != [] {
      var n := |rs| - 1;
      var front := ActiveForOrder(rs[..n], order);
      UnexpiredCounted(rs[..n], order, clock);
      UnexpiredOfPrefix(rs, order, clock, n, n);
      FoundInTurn(rs[..n], order);
      TurnOfPrefix(rs, order, n, n);
      SameCount(rs, rs[..n], front, clock);
      if rs[n].order == order && rs[n].status == Active {
        CountOneMore(rs, front, n, clock);
      }
    }
  }

  lemma CountOneMore(rs: seq<Reservation>, front: seq<nat>, n: nat, clock: nat -> Time)
    requires n < |rs| && forall j :: 0 <= j < |front| ==> front[j] < |rs|
    ensures UnexpiredCount(rs, front + [n], clock) ==
            UnexpiredCount(rs, front, clock) + if clock(|front|) <= rs[n].expiresAt then 1 else 0
  {
    assert (front + [n])[..|front|] == front;
  }

  lemma {:induction false} SameCount(rs: seq<Reservation>, front: seq<Reservation>, ids: seq<nat>, clock: nat -> Time)
    requires front <= rs && forall j :: 0 <= j < |ids| ==> ids[j] < |front|
    ensures UnexpiredCount(rs, ids, clock) == UnexpiredCount(front, ids, clock)
    decreases |ids|
  {
    if ids != [] {
      SameCount(rs, front, ids[..|ids| - 1], clock);
    }
  }

  /** `confirm_all_for_order` settles every active reservation of the order against the clock at its own turn, in table
      order, touches no other row, and returns the number confirmed. */
  lemma ConfirmsTheOrder(db: Db, order: OrderId, clock: nat -> Time)
    ensures
      var after := ConfirmAll(db, order, clock).0.reservations;
      && |after| == |db.reservations|
      && forall i :: 0 <= i < |after| ==>
           var r := db.reservations[i];
           if r.order != order || r.status != Active then after[i] == r
           else if r.expiresAt < clock(Turn(db.reservations, order, i)) then after[i] == r.(status := Released)
           else after[i] == r.(status := Confirmed)
    ensures ConfirmAll(db, order, clock).1 == UnexpiredAmong(db.reservations, order, clock, |db.reservations|)
  {
    hide ConfirmMany, Turn, UnexpiredCount, UnexpiredAmong;
    var rs, ids := db.reservations, ActiveForOrder(db.reservations, order);
    ConfirmManyFates(db, ids, clock);
    ConfirmManyCounts(db, ids, clock);
    UnexpiredCounted(rs, order, clock);
    FoundInTurn(rs, order);
    var after := ConfirmAll(db, order, clock).0.reservations;
    forall i: nat | i < |rs| && rs[i].order == order && rs[i].status == Active
      ensures after[i] == Fate(rs[i], clock(Turn(rs, order, i)))
    {
      assert ids[Turn(rs, order, i)] == i;
    }
  }

  /** A confirmation is refused exactly for an unknown or a settled reservation, and then changes nothing. Otherwise the
      reservation is settled: released if its time has passed, and else confirmed. */
  lemma ConfirmsOrRefuses(db: Db, id: nat, now: Time)
    ensures
      var (after, outcome) := ConfirmAllocation(db, id, now);
      && (outcome == NotFound <==> id >= |db.reservations|)
      && (outcome == NotActive <==> id < |db.reservations| && db.reservations[id].status != Active)
      && (outcome in {NotFound, NotActive} ==> after == db)
      && (outcome in {Done, Lapsed} ==>
            var r := db.reservations[id];
            && (outcome == Lapsed <==> r.expiresAt < now)
            && after.reservations ==
               db.reservations[id := r.(status := if outcome == Done then Confirmed else Released)]
            && after.warehouses == db.warehouses && after.transfers == db.transfers
            && (outcome == Done ==>
                  match GetBalance(db.balances, r.warehouse, r.sku)
                  case None => after.balances == db.balances
                  case Some(h) =>
                    var b := db.balances[h];
                    after.balances == db.balances[h :=
                      b.(reserved := b.reserved - r.quantity, allocatedQty := b.allocatedQty + r.quantity,
                         version := b.version + 1)])
            && (outcome == Lapsed ==> after == ReleaseSingle(db, id)))
  {
    hide GetBalance;
  }

  // ----- extension

  /** An extension moves the expiry of one active reservation by the minutes asked for, an hour at most, and nothing
      else; an unknown or settled reservation is refused unchanged. */
  lemma ExtendsAtMostAnHour(db: Db, id: nat, minutes: int, now: Time)
    ensures
      var (after, outcome) := Extend(db, id, minutes, now);
      && (outcome == UnknownReservation <==> id >= |db.reservations|)
      && (outcome == Inactive <==> id < |db.reservations| && db.reservations[id].status != Active)
      && (!outcome.Extended? ==> after == db)
      && (outcome.Extended? ==>
            var r, r' := db.reservations[id], after.reservations[id];
            && after == db.(reservations := db.reservations[id := r']) && r' == r.(expiresAt := r'.expiresAt)
            && r'.expiresAt - r.expiresAt == (if minutes <= 60 then minutes * 60 else 3600)
            && outcome.summary.id == id && outcome.summary.expiresAt == r'.expiresAt
            && (outcome.summary.isExpired <==> r'.expiresAt < now)
            && outcome.summary.secondsRemaining == (if outcome.summary.isExpired then 0 else r'.expiresAt - now))
  {
  }
}
