/** Bulk expiry, bulk confirmation and extension of reservations. */
module Reservations {
  import opened Sums
  import opened Tables
  import opened Allocation

  const MAX_EXTENSION_MINUTES := 60

  datatype ExtendOutcome = Extended(summary: Summary) | UnknownReservation | Inactive

  datatype Summary = Summary(id: nat, expiresAt: Time, secondsRemaining: int, isExpired: bool)

  function ProcessExpired(db: Db, now: Time): Db { ReleaseMany(db, Expired(db.reservations, now)) }

  /** Confirms each listed reservation at the time its turn comes; lapsed ones are released and not counted. */
  function ConfirmMany(db: Db, ids: seq<nat>, clock: nat -> Time): (Db, nat)
    decreases |ids|
  {
    if ids == [] then (db, 0)
    else
      var m := |ids| - 1;
      var (front, confirmed) := ConfirmMany(db, ids[..m], clock);
      var (after, outcome) := ConfirmAllocation(front, ids[m], clock(m));
      (after, if outcome == Done then confirmed + 1 else confirmed)
  }

  function ConfirmAll(db: Db, order: OrderId, clock: nat -> Time): (Db, nat) {
    ConfirmMany(db, ActiveForOrder(db.reservations, order), clock)
  }

  function Extend(db: Db, id: nat, minutes: int, now: Time): (Db, ExtendOutcome) {
    if id >= |db.reservations| then (db, UnknownReservation)
    else
      var r := db.reservations[id];
      if r.status != Active then (db, Inactive)
      else
        var expires := r.expiresAt + Min(minutes, MAX_EXTENSION_MINUTES) * 60;
        (db.(reservations := db.reservations[id := r.(expiresAt := expires)]),
         Extended(Summary(id, expires, Max(0, expires - now), expires < now)))
  }

  lemma NothingConfirmed(db: Db, clock: nat -> Time)
    ensures ConfirmMany(db, [], clock) == (db, 0)
  {
  }

  lemma ConfirmNext(db: Db, ids: seq<nat>, i: nat, clock: nat -> Time)
    requires i < |ids|
    ensures
      var (front, confirmed) := ConfirmMany(db, ids[..i], clock);
      var (after, outcome) := ConfirmAllocation(front, ids[i], clock(i));
      ConfirmMany(db, ids[..i + 1], clock) == (after, if outcome == Done then confirmed + 1 else confirmed)
  {
    hide ConfirmAllocation;
    assert ids[..i + 1][..i] == ids[..i];
  }

  class ReservationManager {
    const session: Session
    const engine: AllocationEngine

    constructor (session: Session)
      ensures this.session == session && engine.session == session
    {
      this.session := session;
      this.engine := new AllocationEngine(session);
    }

    /** Returns how many reservations were processed and how many units came back. */
    method ProcessExpiredReservations(now: Time) returns (processed: nat, released: int)
      requires engine.session == session
      modifies session
      ensures session.View() == ProcessExpired(old(session.View()), now)
      ensures processed == |Expired(old(session.reservations), now)|
      ensures released == SumOver(Expired(old(session.reservations), now), QuantityOf(old(session.reservations)))
    {
      var expired := Expired(session.reservations, now);
      processed := |expired|;
      released := engine.ReleaseListed(expired);
    }

    method ConfirmAllForOrder(order: OrderId, clock: nat -> Time) returns (confirmed: nat)
      requires engine.session == session
      modifies session
      ensures (session.View(), confirmed) == ConfirmAll(old(session.View()), order, clock)
    {
      hide ConfirmMany;
      confirmed := ConfirmListed(ActiveForOrder(session.reservations, order), clock);
    }

    /** The loop over the reservations found, each confirmed at the time its turn comes. */
    method ConfirmListed(ids: seq<nat>, clock: nat -> Time) returns (confirmed: nat)
      requires engine.session == session
      modifies session
      ensures (session.View(), confirmed) == ConfirmMany(old(session.View()), ids, clock)
    {
      hide ConfirmAllocation, ConfirmMany;
      ghost var before := session.View();
      confirmed := 0;
      NothingConfirmed(before, clock);
      for i := 0 to |ids|
        invariant (session.View(), confirmed) == ConfirmMany(before, ids[..i], clock)
      {
        ConfirmNext(before, ids, i, clock);
        var outcome := engine.Confirm(ids[i], clock(i));
        if outcome == Done {
          confirmed := confirmed + 1;
        }
      }
      assert ids[..|ids|] == ids;
    }

    method ExtendReservation(id: nat, minutes: int, now: Time) returns (outcome: ExtendOutcome)
      modifies session
      ensures (session.View(), outcome) == Extend(old(session.View()), id, minutes, now)
    {
      if id >= |session.reservations| {
        return UnknownReservation;
      }
      var r := session.reservations[id];
      if r.status != Active {
        return Inactive;
      }
      var extension := Min(minutes, MAX_EXTENSION_MINUTES);
      session.reservations := session.reservations[id := r.(expiresAt := r.expiresAt + extension * 60)];
      var expires := session.reservations[id].expiresAt;
      return Extended(Summary(id, expires, Max(0, expires - now), expires < now));
    }
  }
}
