/** Delivery slots at the docks: generation, scheduling to the nearest open slot, rescheduling. */
module DockScheduling {
  import opened Sums
  import opened Tables

  type ShipmentId = nat

  const DOCK_CAPACITY := 8
  const SLOT_DURATION := 4 * 3600
  const DAY := 86400

  datatype DeliveryWindow = Morning | Afternoon | Evening

  // ----- the calendar

  function DayOf(t: Time): int { t / DAY }

  /** Monday is 0; day 0 of the clock was a Thursday. */
  function Weekday(day: int): int { (day + 3) % 7 }

  function EightOClock(day: int): Time { day * DAY + 8 * 3600 }

  datatype SlotSpec = SlotSpec(window: DeliveryWindow, date: Time)

  const WINDOWS := [Morning, Afternoon, Evening]

  /** The day's first `n` windows. */
  function DaySpecs(day: int, n: nat): (specs: seq<SlotSpec>)
    requires n <= 3
    ensures |specs| == n
  {
    if n == 0 then [] else DaySpecs(day, n - 1) + [SlotSpec(WINDOWS[n - 1], EightOClock(day))]
  }

  /** Three windows on every weekday of the first `days` days. */
  function SlotSpecs(start: Time, days: nat): seq<SlotSpec> {
    if days == 0 then []
    else
      var front, day := SlotSpecs(start, days - 1), DayOf(start + (days - 1) * DAY);
      if Weekday(day) >= 5 then front
      else front + DaySpecs(day, 3)
  }

  lemma NextDay(start: Time, days: nat)
    ensures DayOf(start + days * DAY) == DayOf(start) + days
  {
  }

  function Worked(day: int): nat { if Weekday(day) >= 5 then 0 else 3 }

  lemma SlotsOfDay(start: Time, days: nat)
    ensures |SlotSpecs(start, days + 1)| == |SlotSpecs(start, days)| + Worked(DayOf(start) + days)
  {
    hide DayOf, Weekday;
    NextDay(start, days);
  }

  lemma NextWeekday(day: int)
    ensures 0 <= Weekday(day) < 7
    ensures Weekday(day + 1) == if Weekday(day) == 6 then 0 else Weekday(day) + 1
  {
  }

  lemma FiveWeekdays(day: int)
    ensures Worked(day) + Worked(day + 1) + Worked(day + 2) + Worked(day + 3) + Worked(day + 4) + Worked(day + 5) +
            Worked(day + 6) == 15
  {
    hide Weekday;
    NextWeekday(day);
    NextWeekday(day + 1);
    NextWeekday(day + 2);
    NextWeekday(day + 3);
    NextWeekday(day + 4);
    NextWeekday(day + 5);
  }

  /** Whatever the start, seven more days bring fifteen more slots. */
  lemma WeekOfSlots(start: Time, days: nat)
    ensures |SlotSpecs(start, days + 7)| == |SlotSpecs(start, days)| + 15
  {
    hide SlotSpecs, Worked, DayOf;
    FiveWeekdays(DayOf(start) + days);
    SlotsOfDay(start, days);
    SlotsOfDay(start, days + 1);
    SlotsOfDay(start, days + 2);
    SlotsOfDay(start, days + 3);
    SlotsOfDay(start, days + 4);
    SlotsOfDay(start, days + 5);
    SlotsOfDay(start, days + 6);
  }

  function Place(w: DeliveryWindow): nat { match w case Morning => 0 case Afternoon => 1 case Evening => 2 }

  /** The slots of some days, counted from the start's own: three windows at eight on each day that is neither a
      Saturday nor a Sunday. Day 2 of the clock was a Saturday. */
  ghost predicate OnWeekdays(specs: seq<SlotSpec>, start: Time, days: nat) {
    forall spec :: spec in specs <==>
      var day := spec.date / 86400;
      && spec.date % 86400 == 8 * 3600 && start / 86400 <= day < start / 86400 + days
      && day % 7 != 2 && day % 7 != 3
  }

  ghost predicate Earlier(a: SlotSpec, b: SlotSpec) {
    a.date < b.date || (a.date == b.date && Place(a.window) < Place(b.window))
  }

  /** By date, and on one day from morning to evening. */
  ghost predicate Ordered(specs: seq<SlotSpec>) {
    forall i, j :: 0 <= i < j < |specs| ==> Earlier(specs[i], specs[j])
  }

  lemma {:induction false} SlotsOnWeekdays(start: Time, days: nat)
    ensures OnWeekdays(SlotSpecs(start, days), start, days) && Ordered(SlotSpecs(start, days))
    decreases days
  {
    hide OnWeekdays, Ordered, DaySpecs, SlotSpecs, Weekday;
    if days == 0 {
      NoDays(start);
    } else {
      SlotsOnWeekdays(start, days - 1);
      SlotsNext(start, days - 1);
      if Weekday(start / 86400 + days - 1) >= 5 {
        FreeDay(SlotSpecs(start, days - 1), start, days - 1);
      } else {
        WorkDay(SlotSpecs(start, days - 1), start, days - 1);
      }
    }
  }

  lemma NoDays(start: Time)
    ensures OnWeekdays(SlotSpecs(start, 0), start, 0) && Ordered(SlotSpecs(start, 0))
  {
  }

  lemma SlotsNext(start: Time, days: nat)
    ensures SlotSpecs(start, days + 1) ==
            if Weekday(start / 86400 + days) >= 5 then SlotSpecs(start, days)
            else SlotSpecs(start, days) + DaySpecs(start / 86400 + days, 3)
  {
    hide Weekday, DaySpecs;
    NextDay(start, days);
  }

  lemma FreeDay(specs: seq<SlotSpec>, start: Time, days: nat)
    requires OnWeekdays(specs, start, days) && Weekday(start / 86400 + days) >= 5
    ensures OnWeekdays(specs, start, days + 1)
  {
  }

  lemma WorkDay(specs: seq<SlotSpec>, start: Time, days: nat)
    requires OnWeekdays(specs, start, days) && Ordered(specs) && Weekday(start / 86400 + days) < 5
    ensures
      var longer := specs + DaySpecs(start / 86400 + days, 3);
      OnWeekdays(longer, start, days + 1) && Ordered(longer)
  {
    var day := start / 86400 + days;
    var today := DaySpecs(day, 3);
    DayHolds(day);
    hide DaySpecs, EightOClock;
    forall spec: SlotSpec ensures spec.date % 86400 == 8 * 3600 && spec.date / 86400 == day <==> spec in today {
      AtEight(spec.date, day);
    }
    LaterDay(specs, today, start, days);
  }

  lemma LaterDay(specs: seq<SlotSpec>, today: seq<SlotSpec>, start: Time, days: nat)
    requires OnWeekdays(specs, start, days) && Ordered(specs) && Ordered(today)
    requires forall spec :: spec in today ==> spec.date / 86400 == start / 86400 + days
    ensures Ordered(specs + today)
  {
    forall i, j | 0 <= i < |specs| && 0 <= j < |today| ensures specs[i].date < today[j].date {
      assert specs[i] in specs && today[j] in today;
    }
  }

  lemma AtEight(t: Time, day: int)
    ensures t % 86400 == 8 * 3600 && t / 86400 == day <==> t == EightOClock(day)
  {
  }

  lemma DayHolds(day: int)
    ensures forall spec :: spec in DaySpecs(day, 3) <==> spec.date == EightOClock(day)
    ensures Ordered(DaySpecs(day, 3))
  {
    var date := EightOClock(day);
    assert DaySpecs(day, 1) == [SlotSpec(Morning, date)];
    assert DaySpecs(day, 2) == [SlotSpec(Morning, date), SlotSpec(Afternoon, date)];
    assert DaySpecs(day, 3) == [SlotSpec(Morning, date), SlotSpec(Afternoon, date), SlotSpec(Evening, date)];
    forall spec: SlotSpec | spec.date == date ensures spec in DaySpecs(day, 3) {
      match spec.window
      case Morning => assert DaySpecs(day, 3)[0] == spec;
      case Afternoon => assert DaySpecs(day, 3)[1] == spec;
      case Evening => assert DaySpecs(day, 3)[2] == spec;
    }
  }

  // ----- scheduling, as a function of what the open slots look like

  datatype SlotState = SlotState(date: Time, capacity: int, booked: int)
  {
    predicate IsFull() { booked >= capacity }
  }

  /** `slot` is the position of the slot among the open ones. */
  datatype Placement = Placement(shipment: ShipmentId, slot: nat, door: int)

  datatype Conflict = NotFound(shipment: ShipmentId) | NoSlot(shipment: ShipmentId)

  /** `wanted` is the shipment table's preferred delivery time. */
  datatype Board = Board(states: seq<SlotState>, wanted: map<ShipmentId, Option<Time>>, placed: seq<Placement>,
                         unscheduled: seq<ShipmentId>, conflicts: seq<Conflict>)

  function Distance(a: Time, b: Time): int { if a < b then b - a else a - b }

  function DistanceTo(s: SlotState, preferred: Option<Time>): int {
    if preferred.Some? then Distance(s.date, preferred.value) else 0
  }

  /** The first nearest slot with room among the first `n`; without a preference, the first with room. */
  function Best(states: seq<SlotState>, n: nat, preferred: Option<Time>): (best: Option<nat>)
    requires n <= |states|
    ensures best.Some? ==> best.value < n
  {
    if n == 0 then None
    else
      var front := Best(states, n - 1, preferred);
      if states[n - 1].IsFull() then front
      else if front.Some? && DistanceTo(states[front.value], preferred) <= DistanceTo(states[n - 1], preferred)
      then front
      else Some(n - 1)
  }

  function Booked(states: seq<SlotState>, i: nat): seq<SlotState>
    requires i < |states|
  {
    states[i := states[i].(booked := states[i].booked + 1)]
  }

  function ScheduleOne(b: Board, id: ShipmentId): Board {
    if id !in b.wanted then
      b.(unscheduled := b.unscheduled + [id], conflicts := b.conflicts + [NotFound(id)])
    else
      var best := Best(b.states, |b.states|, b.wanted[id]);
      if best.None? then b.(unscheduled := b.unscheduled + [id], conflicts := b.conflicts + [NoSlot(id)])
      else
        var i := best.value;
        b.(states := Booked(b.states, i), wanted := b.wanted[id := Some(b.states[i].date)],
           placed := b.placed + [Placement(id, i, b.states[i].booked + 1)])
  }

  function ScheduleAll(b: Board, ids: seq<ShipmentId>): Board {
    if ids == [] then b else ScheduleOne(ScheduleAll(b, ids[..|ids| - 1]), ids[|ids| - 1])
  }

  function Empty(states: seq<SlotState>, wanted: map<ShipmentId, Option<Time>>): Board {
    Board(states, wanted, [], [], [])
  }

  // ----- the scheduler

  class DeliverySlot {
    const slotId: nat
    const warehouse: WarehouseId
    const window: DeliveryWindow
    const date: Time
    const capacity: int
    var booked: int

    constructor (slotId: nat, warehouse: WarehouseId, window: DeliveryWindow, date: Time, capacity: int)
      ensures this.slotId == slotId && this.warehouse == warehouse && this.window == window
      ensures this.date == date && this.capacity == capacity && booked == 0
    {
      this.slotId, this.warehouse, this.window, this.date, this.capacity := slotId, warehouse, window, date, capacity;
      this.booked := 0;
    }

    predicate IsFull()
      reads this
    {
      booked >= capacity
    }

    function State(): SlotState
      reads this
    {
      SlotState(date, capacity, booked)
    }
  }

  datatype DeliverySchedule = DeliverySchedule(shipment: ShipmentId, slot: DeliverySlot, arrival: Time, departure: Time,
                                               door: Option<int>)

  datatype SchedulingResult = SchedulingResult(scheduled: seq<DeliverySchedule>, unscheduled: seq<ShipmentId>,
                                               conflicts: seq<Conflict>)

  function States(slots: seq<DeliverySlot>): seq<SlotState>
    reads slots
  {
    seq(|slots|, i requires 0 <= i < |slots| reads slots => slots[i].State())
  }

  function OpenSlots(slots: seq<DeliverySlot>): (open: seq<DeliverySlot>)
    reads slots
    ensures forall i :: 0 <= i < |open| ==> open[i] in slots && !open[i].IsFull()
    ensures forall s :: s in slots && !s.IsFull() ==> s in open
  {
    if slots == [] then []
    else
      var n := |slots| - 1;
      OpenSlots(slots[..n]) + if slots[n].IsFull() then [] else [slots[n]]
  }

  /** How many schedules have been issued for the slot. */
  function IssuedFor(issued: seq<DeliverySchedule>, s: DeliverySlot): nat {
    if issued == [] then 0
    else IssuedFor(issued[..|issued| - 1], s) + if issued[|issued| - 1].slot == s then 1 else 0
  }

  /** A dock door's number is the place of its schedule among those of its slot. */
  ghost predicate DoorsNumbered(issued: seq<DeliverySchedule>) {
    forall i :: 0 <= i < |issued| && issued[i].door.Some? ==>
      issued[i].door.value == IssuedFor(issued[..i + 1], issued[i].slot)
  }

  ghost predicate DistinctSlots(slots: seq<DeliverySlot>) {
    forall i, j :: 0 <= i < j < |slots| ==> slots[i] != slots[j]
  }

  /** The schedules are the placements, with the slots they name. */
  ghost predicate Realises(scheduled: seq<DeliverySchedule>, placed: seq<Placement>, open: seq<DeliverySlot>) {
    && |scheduled| == |placed|
    && forall i :: 0 <= i < |placed| ==>
         && placed[i].slot < |open|
         && scheduled[i] == ScheduleAt(placed[i].shipment, open[placed[i].slot], Some(placed[i].door))
  }

  function ScheduleAt(shipment: ShipmentId, slot: DeliverySlot, door: Option<int>): DeliverySchedule {
    DeliverySchedule(shipment, slot, slot.date, slot.date + SLOT_DURATION, door)
  }

  function NewState(spec: SlotSpec): SlotState { SlotState(spec.date, DOCK_CAPACITY, 0) }

  ghost predicate Generated(list: seq<DeliverySlot>, specs: seq<SlotSpec>, w: WarehouseId, first: nat)
    reads list
  {
    && |list| == |specs|
    && forall i :: 0 <= i < |list| ==>
         && list[i].slotId == first + i && list[i].warehouse == w && list[i].window == specs[i].window
         && list[i].State() == NewState(specs[i])
  }

  /** The scheduler's dictionary lists slots it made, each warehouse's without repetition. */
  ghost predicate Listing(warehouses: seq<WarehouseId>, slots: map<WarehouseId, seq<DeliverySlot>>,
                          made: set<DeliverySlot>) {
    && (forall w :: w in warehouses <==> w in slots)
    && (forall w :: w in slots ==> DistinctSlots(slots[w]) && forall i :: 0 <= i < |slots[w]| ==> slots[w][i] in made)
  }

  /** Slots have ids of their own, and each is booked once per schedule issued for it, within capacity. */
  ghost predicate Counted(made: set<DeliverySlot>, nextSlot: nat, issued: seq<DeliverySchedule>)
    reads made
  {
    && (forall s :: s in made ==>
        s.slotId < nextSlot && 0 <= s.booked <= s.capacity && s.booked == IssuedFor(issued, s))
    && (forall s, t :: s in made && t in made && s.slotId == t.slotId ==> s == t)
  }

  class DeliveryScheduler {
    /** The shipment table: each shipment's scheduled delivery. */
    var wanted: map<ShipmentId, Option<Time>>
    var warehouses: seq<WarehouseId>
    var slots: map<WarehouseId, seq<DeliverySlot>>
    var nextSlot: nat
    /** Every slot ever generated and every schedule ever issued. */
    ghost var made: set<DeliverySlot>
    ghost var issued: seq<DeliverySchedule>

    ghost predicate Valid()
      reads this, made
    {
      && Listing(warehouses, slots, made)
      && Counted(made, nextSlot, issued)
      && (forall i :: 0 <= i < |issued| ==> issued[i].slot in made)
      && DoorsNumbered(issued)
    }

    constructor (wanted: map<ShipmentId, Option<Time>>)
      ensures Valid() && this.wanted == wanted && slots == map[] && issued == []
    {
      this.wanted, warehouses, slots, nextSlot, made, issued := wanted, [], map[], 0, {}, [];
    }

    method AddSlot(list: seq<DeliverySlot>, ghost specs: seq<SlotSpec>, w: WarehouseId, window: DeliveryWindow,
                   date: Time, ghost first: nat) returns (longer: seq<DeliverySlot>)
      requires Generated(list, specs, w, first) && nextSlot == first + |list|
      modifies this`nextSlot
      ensures nextSlot == old(nextSlot) + 1 && |longer| == |list| + 1
      ensures longer[..|list|] == list && fresh(longer[|list|])
      ensures Generated(longer, specs + [SlotSpec(window, date)], w, first)
    {
      var slot := new DeliverySlot(nextSlot, w, window, date, DOCK_CAPACITY);
      nextSlot := nextSlot + 1;
      longer := list + [slot];
    }

    /** The slots of one working day. */
    method AddDay(list: seq<DeliverySlot>, ghost specs: seq<SlotSpec>, w: WarehouseId, day: int, ghost first: nat)
        returns (longer: seq<DeliverySlot>)
      requires Generated(list, specs, w, first) && nextSlot == first + |list|
      modifies this`nextSlot
      ensures nextSlot == first + |longer| && |list| <= |longer| && longer[..|list|] == list
      ensures forall i :: |list| <= i < |longer| ==> fresh(longer[i])
      ensures Generated(longer, specs + DaySpecs(day, 3), w, first)
    {
      longer := list;
      assert specs + DaySpecs(day, 0) == specs;
      for k := 0 to 3
        invariant Generated(longer, specs + DaySpecs(day, k), w, first) && nextSlot == first + |longer|
        invariant |list| <= |longer| && longer[..|list|] == list
        invariant forall i :: |list| <= i < |longer| ==> fresh(longer[i])
      {
        assert specs + DaySpecs(day, k + 1) == specs + DaySpecs(day, k) + [SlotSpec(WINDOWS[k], EightOClock(day))];
        ghost var before := longer;
        longer := AddSlot(longer, specs + DaySpecs(day, k), w, WINDOWS[k], EightOClock(day), first);
        assert longer[..|before|][..|list|] == longer[..|list|];
        assert forall i :: 0 <= i < |before| ==> longer[..|before|][i] == longer[i];
      }
    }

    method MakeSlots(w: WarehouseId, start: Time, days: nat) returns (list: seq<DeliverySlot>)
      modifies this`nextSlot
      ensures Generated(list, SlotSpecs(start, days), w, old(nextSlot)) && nextSlot == old(nextSlot) + |list|
      ensures forall i :: 0 <= i < |list| ==> fresh(list[i])
    {
      hide Generated, DaySpecs;
      list := [];
      var first := nextSlot;
      NothingGenerated(w, first);
      for offset := 0 to days
        invariant Generated(list, SlotSpecs(start, offset), w, first) && nextSlot == first + |list|
        invariant forall i :: 0 <= i < |list| ==> fresh(list[i])
      {
        var day := DayOf(start + offset * DAY);
        if Weekday(day) < 5 {
          ghost var before := list;
          list := AddDay(list, SlotSpecs(start, offset), w, day, first);
          assert forall i :: 0 <= i < |before| ==> list[..|before|][i] == list[i];
        }
      }
    }

    /** Replaces the warehouse's slots by new ones over the coming days. */
    method GenerateSlots(w: WarehouseId, start: Time, days: nat) returns (list: seq<DeliverySlot>)
      requires Valid()
      modifies this
      ensures Valid() && wanted == old(wanted) && issued == old(issued)
      ensures Generated(list, SlotSpecs(start, days), w, old(nextSlot))
      ensures forall i :: 0 <= i < |list| ==> fresh(list[i])
      ensures slots == old(slots)[w := list]
      ensures made == old(made) + set s | s in list
    {
      hide SlotSpecs, IssuedFor, DoorsNumbered, Listing, Counted, Generated;
      var first := nextSlot;
      list := MakeSlots(w, start, days);
      MoreCounted(made, first, issued, list, SlotSpecs(start, days), w);
      MoreListed(warehouses, slots, made, list, w);
      if w !in warehouses {
        warehouses := warehouses + [w];
      }
      slots, made := slots[w := list], made + (set s | s in list);
    }

    /** Takes one place in the slot; scheduling assigns a dock door, rescheduling does not. */
    method Book(slot: DeliverySlot, shipment: ShipmentId, atDoor: bool) returns (schedule: DeliverySchedule)
      requires Valid() && slot in made && !slot.IsFull()
      modifies this`issued, slot`booked
      ensures Valid() && slot.booked == old(slot.booked) + 1
      ensures schedule == ScheduleAt(shipment, slot, if atDoor then Some(slot.booked) else None)
      ensures issued == old(issued) + [schedule]
    {
      hide Listing, DoorsNumbered, IssuedFor;
      slot.booked := slot.booked + 1;
      schedule := ScheduleAt(shipment, slot, if atDoor then Some(slot.booked) else None);
      DoorsGrow(issued, schedule);
      IssuedMore(issued, schedule);
      issued := issued + [schedule];
    }

    /** The slot with room that is nearest to the preferred time. */
    method FindBestSlot(open: seq<DeliverySlot>, preferred: Option<Time>) returns (best: Option<nat>)
      ensures best == Best(States(open), |open|, preferred)
    {
      best := None;
      for i := 0 to |open|
        invariant best == Best(States(open), i, preferred)
      {
        assert States(open)[i] == open[i].State();
        if !open[i].IsFull() {
          if best.None? || DistanceTo(open[i].State(), preferred) < DistanceTo(open[best.value].State(), preferred) {
            best := Some(i);
          }
        }
      }
    }

    /** Places one known shipment; `board` is the state of play before. */
    method PlaceOne(open: seq<DeliverySlot>, id: ShipmentId, ghost board: Board)
        returns (schedule: Option<DeliverySchedule>, ghost placement: Placement)
      requires Valid() && DistinctSlots(open) && forall i :: 0 <= i < |open| ==> open[i] in made
      requires States(open) == board.states && wanted == board.wanted && id in wanted
      modifies this`wanted, this`issued, open
      ensures Valid()
      ensures States(open) == ScheduleOne(board, id).states && wanted == ScheduleOne(board, id).wanted
      ensures schedule.None? ==>
                && issued == old(issued)
                && ScheduleOne(board, id) ==
                   board.(unscheduled := board.unscheduled + [id], conflicts := board.conflicts + [NoSlot(id)])
      ensures schedule.Some? ==>
                && issued == old(issued) + [schedule.value]
                && placement.slot < |open|
                && schedule.value == ScheduleAt(placement.shipment, open[placement.slot], Some(placement.door))
                && ScheduleOne(board, id) ==
                   Board(States(open), wanted, board.placed + [placement], board.unscheduled, board.conflicts)
    {
      hide Listing, Counted, DoorsNumbered, Best;
      placement := Placement(id, 0, 0);
      ghost var states := States(open);
      var best := FindBestSlot(open, wanted[id]);
      if best.None? {
        return None, placement;
      }
      var slot := open[best.value];
      BestIsOpen(states, |states|, wanted[id]);
      var booked := Book(slot, id, true);
      wanted := wanted[id := Some(booked.arrival)];
      return Some(booked), Placement(id, best.value, slot.booked);
    }

    /** Places the shipments, one after another, into the slots that had room. */
    method PlaceAll(open: seq<DeliverySlot>, ids: seq<ShipmentId>) returns (result: SchedulingResult)
      requires Valid() && DistinctSlots(open) && forall i :: 0 <= i < |open| ==> open[i] in made
      modifies this`wanted, this`issued, open
      ensures Valid() && issued == old(issued) + result.scheduled
      ensures
        var board := ScheduleAll(Empty(old(States(open)), old(wanted)), ids);
        && States(open) == board.states && wanted == board.wanted
        && Realises(result.scheduled, board.placed, open)
        && result.unscheduled == board.unscheduled && result.conflicts == board.conflicts
    {
      hide Listing, Counted, DoorsNumbered, Best, Realises;
      ghost var board := Empty(States(open), wanted);
      ghost var start := board;
      var scheduled, unscheduled, conflicts := [], [], [];
      NothingRealised(open);
      for k := 0 to |ids|
        invariant Valid() && board == ScheduleAll(start, ids[..k])
        invariant forall i :: 0 <= i < |open| ==> open[i] in made
        invariant States(open) == board.states && wanted == board.wanted
        invariant Realises(scheduled, board.placed, open)
        invariant unscheduled == board.unscheduled && conflicts == board.conflicts
        invariant issued == old(issued) + scheduled
      {
        var id := ids[k];
        ScheduleStep(start, ids, k);
        ghost var before := board;
        board := ScheduleOne(board, id);
        if id !in wanted {
          conflicts, unscheduled := conflicts + [NotFound(id)], unscheduled + [id];
        } else {
          var schedule, placement := PlaceOne(open, id, before);
          if schedule.None? {
            unscheduled, conflicts := unscheduled + [id], conflicts + [NoSlot(id)];
          } else {
            RealisesOneMore(scheduled, before.placed, open, placement, schedule.value);
            scheduled := scheduled + [schedule.value];
          }
        }
      }
      assert ids[..|ids|] == ids;
      result := SchedulingResult(scheduled, unscheduled, conflicts);
    }

    /** Schedules shipments at a warehouse. `open` lists the slots that had room, `states` how they stood. */
    method ScheduleShipments(w: WarehouseId, ids: seq<ShipmentId>, now: Time)
        returns (result: SchedulingResult, ghost open: seq<DeliverySlot>, ghost states: seq<SlotState>)
      requires Valid()
      modifies this, made
      ensures Valid() && w in slots
      ensures w in old(slots) ==>
              slots == old(slots) && open == old(OpenSlots(slots[w])) && states == old(States(OpenSlots(slots[w])))
      ensures w !in old(slots) ==>
                && slots == old(slots)[w := slots[w]] && open == slots[w] && |states| == |SlotSpecs(now, 7)|
                && forall i :: 0 <= i < |states| ==> states[i] == NewState(SlotSpecs(now, 7)[i])
      ensures
        var board := ScheduleAll(Empty(states, old(wanted)), ids);
        && States(open) == board.states && wanted == board.wanted
        && Realises(result.scheduled, board.placed, open)
        && result.unscheduled == board.unscheduled && result.conflicts == board.conflicts
      ensures issued == old(issued) + result.scheduled
      ensures forall s :: s in old(made) && s !in open ==> s.booked == old(s.booked)
      ensures forall i :: 0 <= i < |result.scheduled| ==>
                var s := result.scheduled[i];
                s.slot in open && s.arrival == s.slot.date && s.departure == s.arrival + 4 * 3600
    {
      hide Counted, DoorsNumbered, Best, Realises, SlotSpecs, ScheduleAll;
      if w !in slots {
        var list := GenerateSlots(w, now, 7);
        NewSlotsOpen(list, SlotSpecs(now, 7), w, old(nextSlot));
      }
      var available := OpenSlots(slots[w]);
      OpenDistinct(slots[w]);
      open, states := available, States(available);
      result := PlaceAll(available, ids);
      RealisedTimes(result.scheduled, ScheduleAll(Empty(states, old(wanted)), ids).placed, open);
    }

    /** Books another slot for a shipment; the place it held before, if any, is not given back. */
    method Reschedule(shipment: ShipmentId, slotId: nat) returns (schedule: Option<DeliverySchedule>)
      requires Valid()
      modifies this`issued, made
      ensures Valid()
      ensures schedule.None? ==>
                && issued == old(issued) && (forall s :: s in made ==> s.booked == old(s.booked))
                && forall w, i :: w in slots && 0 <= i < |slots[w]| && slots[w][i].slotId == slotId ==>
                     slots[w][i].IsFull()
      ensures schedule.Some? ==>
                && schedule.value.slot in made && schedule.value == ScheduleAt(shipment, schedule.value.slot, None)
                && schedule.value.arrival == schedule.value.slot.date
                && schedule.value.departure == schedule.value.arrival + 4 * 3600
                && (exists w :: w in slots && schedule.value.slot in slots[w])
                && schedule.value.slot.slotId == slotId && !old(schedule.value.slot.IsFull())
                && schedule.value.slot.booked == old(schedule.value.slot.booked) + 1
                && (forall s :: s in made && s != schedule.value.slot ==> s.booked == old(s.booked))
                && issued == old(issued) + [schedule.value]
    {
      for n := 0 to |warehouses|
        invariant forall m, i :: 0 <= m < n && 0 <= i < |slots[warehouses[m]]| ==>
                    slots[warehouses[m]][i].slotId == slotId ==> slots[warehouses[m]][i].IsFull()
      {
        var list := slots[warehouses[n]];
        for k := 0 to |list|
          invariant forall i :: 0 <= i < k && list[i].slotId == slotId ==> list[i].IsFull()
        {
          if list[k].slotId == slotId && !list[k].IsFull() {
            var booked := Book(list[k], shipment, false);
            return Some(booked);
          }
        }
      }
      return None;
    }
  }

  lemma RealisedTimes(scheduled: seq<DeliverySchedule>, placed: seq<Placement>, open: seq<DeliverySlot>)
    requires Realises(scheduled, placed, open)
    ensures forall i :: 0 <= i < |scheduled| ==>
              var s := scheduled[i];
              s.slot in open && s.arrival == s.slot.date && s.departure == s.arrival + 4 * 3600
  {
  }

  lemma NothingRealised(open: seq<DeliverySlot>)
    ensures Realises([], [], open)
  {
  }

  lemma RealisesOneMore(scheduled: seq<DeliverySchedule>, placed: seq<Placement>, open: seq<DeliverySlot>, p: Placement,
                        schedule: DeliverySchedule)
    requires Realises(scheduled, placed, open)
    requires p.slot < |open| && schedule == ScheduleAt(p.shipment, open[p.slot], Some(p.door))
    ensures Realises(scheduled + [schedule], placed + [p], open)
  {
  }

  lemma ScheduleStep(b: Board, ids: seq<ShipmentId>, k: nat)
    requires k < |ids|
    ensures ScheduleAll(b, ids[..k + 1]) == ScheduleOne(ScheduleAll(b, ids[..k]), ids[k])
  {
    assert ids[..k + 1][..k] == ids[..k];
  }

  lemma {:induction false} BestIsOpen(states: seq<SlotState>, n: nat, preferred: Option<Time>)
    requires n <= |states|
    ensures Best(states, n, preferred).Some? ==> !states[Best(states, n, preferred).value].IsFull()
    decreases n
  {
    if n > 0 {
      BestIsOpen(states, n - 1, preferred);
    }
  }

  lemma {:induction false} OpenDistinct(slots: seq<DeliverySlot>)
    requires DistinctSlots(slots)
    ensures DistinctSlots(OpenSlots(slots))
    decreases |slots|
  {
    if slots != [] {
      OpenDistinct(slots[..|slots| - 1]);
    }
  }

  /** The slots with room keep the order they were listed in. */
  lemma {:induction false} OpenInOrder(slots: seq<DeliverySlot>) returns (at: seq<nat>)
    ensures |at| == |OpenSlots(slots)| && forall a, b :: 0 <= a < b < |at| ==> at[a] < at[b]
    ensures forall j :: 0 <= j < |at| ==> at[j] < |slots| && OpenSlots(slots)[j] == slots[at[j]]
    decreases |slots|
  {
    at := [];
    if slots != [] {
      var n := |slots| - 1;
      at := OpenInOrder(slots[..n]);
      if !slots[n].IsFull() {
        at := at + [n];
      }
    }
  }

  lemma NewSlotsOpen(list: seq<DeliverySlot>, specs: seq<SlotSpec>, w: WarehouseId, first: nat)
    requires Generated(list, specs, w, first)
    ensures OpenSlots(list) == list
    ensures |States(list)| == |specs| && forall i :: 0 <= i < |specs| ==> States(list)[i] == NewState(specs[i])
  {
    GeneratedApart(list, specs, w, first);
    AllOpen(list);
  }

  lemma {:induction false} AllOpen(list: seq<DeliverySlot>)
    requires forall i :: 0 <= i < |list| ==> !list[i].IsFull()
    ensures OpenSlots(list) == list
    decreases |list|
  {
    if list != [] {
      AllOpen(list[..|list| - 1]);
    }
  }

  lemma MoreListed(warehouses: seq<WarehouseId>, slots: map<WarehouseId, seq<DeliverySlot>>, made: set<DeliverySlot>,
                   list: seq<DeliverySlot>, w: WarehouseId)
    requires Listing(warehouses, slots, made) && DistinctSlots(list)
    ensures Listing(if w in warehouses then warehouses else warehouses + [w], slots[w := list],
                    made + (set s | s in list))
  {
  }

  lemma MoreCounted(made: set<DeliverySlot>, first: nat, issued: seq<DeliverySchedule>, list: seq<DeliverySlot>,
                    specs: seq<SlotSpec>, w: WarehouseId)
    requires Counted(made, first, issued) && Generated(list, specs, w, first)
    requires forall i :: 0 <= i < |issued| ==> issued[i].slot in made
    requires forall i :: 0 <= i < |list| ==> list[i] !in made
    ensures Counted(made + (set s | s in list), first + |list|, issued) && DistinctSlots(list)
  {
    hide IssuedFor, Generated;
    GeneratedApart(list, specs, w, first);
    Unissued(issued, made, list);
  }

  lemma IssuedMore(issued: seq<DeliverySchedule>, x: DeliverySchedule)
    ensures forall s :: IssuedFor(issued + [x], s) == IssuedFor(issued, s) + if s == x.slot then 1 else 0
  {
    assert (issued + [x])[..|issued|] == issued;
  }

  lemma DoorsGrow(issued: seq<DeliverySchedule>, x: DeliverySchedule)
    requires DoorsNumbered(issued)
    requires x.door.Some? ==> x.door.value == IssuedFor(issued, x.slot) + 1
    ensures DoorsNumbered(issued + [x])
  {
    var longer := issued + [x];
    forall i | 0 <= i < |longer| && longer[i].door.Some?
      ensures longer[i].door.value == IssuedFor(longer[..i + 1], longer[i].slot)
    {
      if i < |issued| {
        assert longer[..i + 1] == issued[..i + 1];
      } else {
        assert longer[..i + 1] == longer;
      }
    }
  }

  lemma NothingGenerated(w: WarehouseId, first: nat)
    ensures Generated([], [], w, first)
  {
  }

  lemma GeneratedApart(list: seq<DeliverySlot>, specs: seq<SlotSpec>, w: WarehouseId, first: nat)
    requires Generated(list, specs, w, first)
    ensures DistinctSlots(list)
    ensures forall s :: s in list ==> first <= s.slotId < first + |list| && s.booked == 0 && s.capacity == DOCK_CAPACITY
    ensures forall s, t :: s in list && t in list && s.slotId == t.slotId ==> s == t
  {
    forall i | 0 <= i < |list|
      ensures list[i].slotId == first + i && list[i].booked == 0 && list[i].capacity == DOCK_CAPACITY
    {
      assert list[i].State() == NewState(specs[i]);
    }
  }

  /** Nothing has been issued yet for a slot outside those made before. */
  lemma Unissued(issued: seq<DeliverySchedule>, made: set<DeliverySlot>, list: seq<DeliverySlot>)
    requires forall i :: 0 <= i < |issued| ==> issued[i].slot in made
    ensures forall s :: s in list && s !in made ==> IssuedFor(issued, s) == 0
  {
    forall s | s in list && s !in made ensures IssuedFor(issued, s) == 0 {
      NoneIssued(issued, s);
    }
  }

  lemma {:induction false} NoneIssued(issued: seq<DeliverySchedule>, s: DeliverySlot)
    requires forall i :: 0 <= i < |issued| ==> issued[i].slot != s
    ensures IssuedFor(issued, s) == 0
    decreases |issued|
  {
    if issued != [] {
      NoneIssued(issued[..|issued| - 1], s);
    }
  }
}
