/** What scheduling guarantees: nearest slots, as many placements as there is room, each id once, doors apart. */
module DockLaws {
  import opened Sums
  import opened Tables
  import opened DockScheduling

  function Room(): SlotState -> int { (s: SlotState) => Max(0, s.capacity - s.booked) }

  /** The free capacity over all the slots. */
  function Free(states: seq<SlotState>): int { SumOver(states, Room()) }

  function Found(wanted: map<ShipmentId, Option<Time>>, ids: seq<ShipmentId>): nat {
    if ids == [] then 0 else Found(wanted, ids[..|ids| - 1]) + if ids[|ids| - 1] in wanted then 1 else 0
  }

  /** How far a slot is from the preferred time; without one all are as good. */
  function Away(s: SlotState, preferred: Option<Time>): int {
    match preferred
    case None => 0
    case Some(t) => if s.date <= t then t - s.date else s.date - t
  }

  /** A nearest slot with room, the first of them in the list. */
  ghost predicate Nearest(states: seq<SlotState>, i: nat, preferred: Option<Time>) {
    && i < |states| && states[i].booked < states[i].capacity
    && forall j :: 0 <= j < |states| && states[j].booked < states[j].capacity ==>
         if j < i then Away(states[i], preferred) < Away(states[j], preferred)
         else Away(states[i], preferred) <= Away(states[j], preferred)
  }

  lemma {:induction false} BestPrefix(states: seq<SlotState>, n: nat, preferred: Option<Time>)
    requires n <= |states|
    ensures Best(states, n, preferred).None? ==> forall j :: 0 <= j < n ==> states[j].IsFull()
    ensures Best(states, n, preferred).Some? ==> Nearest(states[..n], Best(states, n, preferred).value, preferred)
    decreases n
  {
    if n > 0 {
      BestPrefix(states, n - 1, preferred);
      assert states[..n] == states[..n - 1] + [states[n - 1]];
    }
  }

  /** The search finds a nearest slot with room, and nothing only when every slot is full. */
  lemma BestIsNearest(states: seq<SlotState>, preferred: Option<Time>)
    ensures Best(states, |states|, preferred).None? <==> forall j :: 0 <= j < |states| ==> states[j].IsFull()
    ensures Best(states, |states|, preferred).Some? ==>
            Nearest(states, Best(states, |states|, preferred).value, preferred)
  {
    BestPrefix(states, |states|, preferred);
    assert states[..|states|] == states;
  }

  lemma {:induction false} FreeIffRoom(states: seq<SlotState>)
    ensures 0 <= Free(states)
    ensures Free(states) == 0 <==> forall j :: 0 <= j < |states| ==> states[j].IsFull()
    decreases |states|
  {
    if states != [] {
      var n := |states| - 1;
      FreeIffRoom(states[..n]);
      assert forall j :: 0 <= j < n ==> states[..n][j] == states[j];
    }
  }

  lemma BookedTakesOne(states: seq<SlotState>, i: nat)
    requires i < |states| && !states[i].IsFull()
    ensures Free(Booked(states, i)) == Free(states) - 1
  {
    SumUpdate(states, i, states[i].(booked := states[i].booked + 1), Room());
  }

  /** One more shipment is placed exactly when it is known and there is room. */
  lemma OneMorePlaced(b: Board, id: ShipmentId)
    ensures
      var after := ScheduleOne(b, id);
      && after.wanted.Keys == b.wanted.Keys
      && if id in b.wanted && Free(b.states) > 0
         then |after.placed| == |b.placed| + 1 && Free(after.states) == Free(b.states) - 1
         else after.placed == b.placed && after.states == b.states
  {
    hide Best, Free;
    FreeIffRoom(b.states);
    if id in b.wanted {
      var preferred := b.wanted[id];
      BestIsNearest(b.states, preferred);
      var best := Best(b.states, |b.states|, preferred);
      if best.Some? {
        BookedTakesOne(b.states, best.value);
      }
    }
  }

  /** A call places exactly as many of the shipments it finds as there is free capacity. */
  lemma {:induction false} PlacesExactly(b: Board, ids: seq<ShipmentId>)
    ensures
      var after := ScheduleAll(b, ids);
      && after.wanted.Keys == b.wanted.Keys
      && |after.placed| == |b.placed| + Min(Found(b.wanted, ids), Free(b.states))
      && Free(after.states) == Free(b.states) - Min(Found(b.wanted, ids), Free(b.states))
    decreases |ids|
  {
    hide Free, ScheduleOne;
    FreeIffRoom(b.states);
    if ids != [] {
      var n := |ids| - 1;
      PlacesExactly(b, ids[..n]);
      OneMorePlaced(ScheduleAll(b, ids[..n]), ids[n]);
    }
  }

  function Placed(placed: seq<Placement>): seq<ShipmentId> {
    seq(|placed|, i requires 0 <= i < |placed| => placed[i].shipment)
  }

  /** Every id is listed once per occurrence, as scheduled or as unscheduled with a conflict of its own. */
  ghost predicate Accounted(b: Board, wanted: map<ShipmentId, Option<Time>>, ids: seq<ShipmentId>) {
    && multiset(Placed(b.placed)) + multiset(b.unscheduled) == multiset(ids)
    && |b.conflicts| == |b.unscheduled|
    && forall i :: 0 <= i < |b.conflicts| ==>
         && b.conflicts[i].shipment == b.unscheduled[i]
         && (b.conflicts[i].NotFound? <==> b.unscheduled[i] !in wanted)
  }

  lemma AccountedStep(b: Board, wanted: map<ShipmentId, Option<Time>>, ids: seq<ShipmentId>, id: ShipmentId)
    requires Accounted(b, wanted, ids) && b.wanted.Keys == wanted.Keys
    ensures Accounted(ScheduleOne(b, id), wanted, ids + [id])
  {
    hide ScheduleOne;
    OnePlacedOrNot(b, id);
    assert id in b.wanted <==> id in wanted by { assert id in b.wanted.Keys <==> id in wanted.Keys; }
  }

  lemma {:induction false} EachIdOnce(states: seq<SlotState>, wanted: map<ShipmentId, Option<Time>>,
                                      ids: seq<ShipmentId>)
    ensures Accounted(ScheduleAll(Empty(states, wanted), ids), wanted, ids)
    decreases |ids|
  {
    hide Accounted, ScheduleOne;
    if ids == [] {
      NothingAccounted(states, wanted);
    } else {
      var n := |ids| - 1;
      EachIdOnce(states, wanted, ids[..n]);
      PlacesExactly(Empty(states, wanted), ids[..n]);
      AccountedStep(ScheduleAll(Empty(states, wanted), ids[..n]), wanted, ids[..n], ids[n]);
      assert ids == ids[..n] + [ids[n]];
    }
  }

  lemma NothingAccounted(states: seq<SlotState>, wanted: map<ShipmentId, Option<Time>>)
    ensures Accounted(Empty(states, wanted), wanted, [])
  {
    assert Placed([]) == [];
  }

  lemma OnePlacedOrNot(b: Board, id: ShipmentId)
    ensures
      var after := ScheduleOne(b, id);
      || (Placed(after.placed) == Placed(b.placed) + [id] && id in b.wanted
          && after.unscheduled == b.unscheduled && after.conflicts == b.conflicts)
      || (after.placed == b.placed && after.unscheduled == b.unscheduled + [id]
          && after.conflicts == b.conflicts + [if id in b.wanted then NoSlot(id) else NotFound(id)])
  {
    hide Best;
  }

  /** Each placement, in its turn, takes a nearest slot with room and the next door of that slot. */
  lemma EachPlacementNearest(b: Board, ids: seq<ShipmentId>, n: nat)
    requires n < |ids| && ids[n] in b.wanted && Free(ScheduleAll(b, ids[..n]).states) > 0
    ensures ids[n] in ScheduleAll(b, ids[..n]).wanted
    ensures
      var before, after := ScheduleAll(b, ids[..n]), ScheduleAll(b, ids[..n + 1]);
      && |after.placed| == |before.placed| + 1 && after.placed[..|before.placed|] == before.placed
      && var p := after.placed[|before.placed|];
         && p.shipment == ids[n] && Nearest(before.states, p.slot, before.wanted[ids[n]])
         && p.door == before.states[p.slot].booked + 1
         && after.states == Booked(before.states, p.slot)
         && after.wanted == before.wanted[ids[n] := Some(before.states[p.slot].date)]
  {
    hide Best, Nearest, Free;
    var before := ScheduleAll(b, ids[..n]);
    PlacesExactly(b, ids[..n]);
    ScheduleStep(b, ids, n);
    FreeIffRoom(before.states);
    BestIsNearest(before.states, before.wanted[ids[n]]);
  }

  /** A warehouse without slots gets fifteen, with room for a hundred and twenty shipments. */
  lemma FreshWeekPlaces(now: Time, states: seq<SlotState>, wanted: map<ShipmentId, Option<Time>>, ids: seq<ShipmentId>)
    requires |states| == |SlotSpecs(now, 7)|
    requires forall i :: 0 <= i < |states| ==> states[i] == NewState(SlotSpecs(now, 7)[i])
    ensures |states| == 15
    ensures |ScheduleAll(Empty(states, wanted), ids).placed| == Min(Found(wanted, ids), 120)
  {
    hide SlotSpecs;
    WeekOfSlots(now, 0);
    NoSpecs(now);
    FreeNew(states);
    PlacesExactly(Empty(states, wanted), ids);
  }

  lemma NoSpecs(now: Time)
    ensures SlotSpecs(now, 0) == []
  {
  }

  lemma {:induction false} FreeNew(states: seq<SlotState>)
    requires forall i :: 0 <= i < |states| ==> states[i].capacity == DOCK_CAPACITY && states[i].booked == 0
    ensures Free(states) == DOCK_CAPACITY * |states|
    decreases |states|
  {
    if states != [] {
      FreeNew(states[..|states| - 1]);
    }
  }

  lemma {:induction false} CountGrows(issued: seq<DeliverySchedule>, i: nat, j: nat, s: DeliverySlot)
    requires i < j < |issued| && issued[j].slot == s
    ensures IssuedFor(issued[..i + 1], s) < IssuedFor(issued[..j + 1], s)
    decreases j
  {
    assert issued[..j + 1][..j] == issued[..j];
    CountMonotone(issued, i + 1, j, s);
  }

  lemma {:induction false} CountMonotone(issued: seq<DeliverySchedule>, i: nat, j: nat, s: DeliverySlot)
    requires i <= j <= |issued|
    ensures IssuedFor(issued[..i], s) <= IssuedFor(issued[..j], s)
    decreases j
  {
    if i < j {
      assert issued[..j][..j - 1] == issued[..j - 1];
      CountMonotone(issued, i, j - 1, s);
    }
  }

  /** No two schedules share a slot and a dock door. */
  lemma DoorsApart(issued: seq<DeliverySchedule>, i: nat, j: nat)
    requires DoorsNumbered(issued) && i < j < |issued|
    requires issued[i].slot == issued[j].slot && issued[i].door.Some? && issued[j].door.Some?
    ensures issued[i].door != issued[j].door
  {
    CountGrows(issued, i, j, issued[j].slot);
  }
}
