/** The event store: numbering by the bus, ordering validation, and replay into projections. */
module EventLog {
  import opened Sums
  import opened Sorting
  import opened Tables

  datatype Aggregate = Aggregate(kind: string, id: nat)

  datatype Event = Event(id: nat, eventType: string, aggregate: Aggregate, number: int)

  datatype Violation = Violation(expected: int, actual: int, event: nat)

  datatype ReplayError = OrderingError(first: Violation, violations: nat) | HandlerError(event: nat, number: int)

  datatype ReplayResult = ReplayResult(replayed: nat, errors: seq<ReplayError>)

  // ----- queries on the log

  function Of(log: seq<Event>, a: Aggregate): (some: seq<Event>)
    ensures forall e :: e in some <==> e in log && e.aggregate == a
  {
    if log == [] then []
    else
      var n := |log| - 1;
      Of(log[..n], a) + if log[n].aggregate == a then [log[n]] else []
  }

  function Earlier(): (Event, Event) -> bool { (e: Event, f: Event) => e.number <= f.number }

  /** An aggregate's events in ascending number, insertion order breaking ties. */
  function ListForAggregate(log: seq<Event>, a: Aggregate): seq<Event> { Sort(Of(log, a), Earlier()) }

  function MaxNumber(events: seq<Event>): Option<int> {
    if events == [] then None
    else
      var n := |events| - 1;
      var front := MaxNumber(events[..n]);
      Some(if front.Some? then Max(front.value, events[n].number) else events[n].number)
  }

  /** The highest number of the aggregate, or zero, plus one. */
  function NextSequence(log: seq<Event>, a: Aggregate): int {
    var max := MaxNumber(Of(log, a));
    (if max.Some? then max.value else 0) + 1
  }

  /** The breaks in the numbering of the first `n` events: each is compared with its predecessor's number. */
  function Breaks(events: seq<Event>, n: nat): seq<Violation>
    requires n <= |events|
  {
    if n == 0 then []
    else
      var expected := if n == 1 then 1 else events[n - 2].number + 1;
      Breaks(events, n - 1) +
      if events[n - 1].number != expected then [Violation(expected, events[n - 1].number, events[n - 1].id)] else []
  }

  /** Event `i` is numbered `i + 1`. */
  ghost predicate Consecutive(events: seq<Event>) {
    forall i :: 0 <= i < |events| ==> events[i].number == i + 1
  }

  function HandledFrom(events: seq<Event>, from: int, handled: set<string>): seq<Event> {
    if events == [] then []
    else
      var n := |events| - 1;
      HandledFrom(events[..n], from, handled) +
      if events[n].number >= from && events[n].eventType in handled then [events[n]] else []
  }

  class EventStore {
    var log: seq<Event>
    /** Handlers by event type; a handler that returns false has raised. */
    var projections: map<string, Event -> bool>

    constructor ()
      ensures log == [] && projections == map[]
    {
      log, projections := [], map[];
    }

    method RegisterProjection(eventType: string, handler: Event -> bool)
      modifies this`projections
      ensures projections == old(projections)[eventType := handler]
    {
      projections := projections[eventType := handler];
    }

    method Publish(eventType: string, a: Aggregate) returns (stored: Event)
      modifies this`log
      ensures stored == Event(|old(log)|, eventType, a, NextSequence(old(log), a))
      ensures log == old(log) + [stored]
    {
      stored := Event(|log|, eventType, a, NextSequence(log, a));
      log := log + [stored];
    }

    method ValidateAggregate(a: Aggregate) returns (violations: seq<Violation>)
      ensures violations == Breaks(ListForAggregate(log, a), |ListForAggregate(log, a)|)
      ensures violations == [] <==> Consecutive(ListForAggregate(log, a))
    {
      var events := ListForAggregate(log, a);
      violations := [];
      var expected := 1;
      for i := 0 to |events|
        invariant violations == Breaks(events, i)
        invariant expected == if i == 0 then 1 else events[i - 1].number + 1
      {
        if events[i].number != expected {
          violations := violations + [Violation(expected, events[i].number, events[i].id)];
        }
        expected := events[i].number + 1;
      }
      BreaksFindAll(events, |events|);
    }

    method GetExpectedNextSequence(a: Aggregate) returns (next: int)
      ensures next == NextSequence(log, a)
    {
      var events := ListForAggregate(log, a);
      LastIsMax(log, a);
      if |events| == 0 {
        return 1;
      }
      return events[|events| - 1].number + 1;
    }

    /** Replays the aggregate's events from a number on; `visited` lists the events handed to a handler. */
    method ReplayAggregate(a: Aggregate, from: int) returns (result: ReplayResult, visited: seq<Event>)
      ensures !Consecutive(ListForAggregate(log, a)) ==>
                && visited == [] && result.replayed == 0
                && var found := Breaks(ListForAggregate(log, a), |ListForAggregate(log, a)|);
                   found != [] && result.errors == [OrderingError(found[0], |found|)]
      ensures Consecutive(ListForAggregate(log, a)) ==>
                && visited == HandledFrom(ListForAggregate(log, a), from, projections.Keys)
                && result.replayed + |result.errors| == |visited|
                && result.errors == Failures(visited, projections)
    {
      hide HandledFrom, Failures, Consecutive, ListForAggregate;
      var violations := ValidateAggregate(a);
      visited := [];
      if violations != [] {
        return ReplayResult(0, [OrderingError(violations[0], |violations|)]), visited;
      }
      var events := ListForAggregate(log, a);
      var replayed, errors := 0, [];
      NothingVisited(from, projections);
      for i := 0 to |events|
        invariant visited == HandledFrom(events[..i], from, projections.Keys)
        invariant replayed + |errors| == |visited|
        invariant errors == Failures(visited, projections)
      {
        HandledStep(events, i, from, projections.Keys);
        var event := events[i];
        if event.number >= from && event.eventType in projections {
          FailuresStep(visited, event, projections);
          visited := visited + [event];
          if projections[event.eventType](event) {
            replayed := replayed + 1;
          } else {
            errors := errors + [HandlerError(event.id, event.number)];
          }
        }
      }
      assert events[..|events|] == events;
      return ReplayResult(replayed, errors), visited;
    }
  }

  /** The visited events whose handler raised, in order. */
  function Failures(visited: seq<Event>, projections: map<string, Event -> bool>): seq<ReplayError> {
    if visited == [] then []
    else
      var e := visited[|visited| - 1];
      Failures(visited[..|visited| - 1], projections) +
      if e.eventType in projections && !projections[e.eventType](e) then [HandlerError(e.id, e.number)] else []
  }

  lemma NothingVisited(from: int, projections: map<string, Event -> bool>)
    ensures HandledFrom([], from, projections.Keys) == [] && Failures([], projections) == []
  {
  }

  lemma HandledStep(events: seq<Event>, i: nat, from: int, handled: set<string>)
    requires i < |events|
    ensures HandledFrom(events[..i + 1], from, handled) ==
            HandledFrom(events[..i], from, handled) +
            if events[i].number >= from && events[i].eventType in handled then [events[i]] else []
  {
    assert events[..i + 1][..i] == events[..i];
  }

  lemma FailuresStep(visited: seq<Event>, e: Event, projections: map<string, Event -> bool>)
    ensures Failures(visited + [e], projections) == Failures(visited, projections) +
            if e.eventType in projections && !projections[e.eventType](e) then [HandlerError(e.id, e.number)] else []
  {
    assert (visited + [e])[..|visited|] == visited;
  }

  // ----- what the validator decides

  lemma {:induction false} BreaksFindAll(events: seq<Event>, n: nat)
    requires n <= |events|
    ensures Breaks(events, n) == [] <==> Consecutive(events[..n])
    decreases n
  {
    if n > 0 {
      BreaksFindAll(events, n - 1);
      assert events[..n] == events[..n - 1] + [events[n - 1]];
      if Consecutive(events[..n]) {
        assert events[..n][n - 1].number == n;
        assert n > 1 ==> events[..n][n - 2].number == n - 1;
        assert Consecutive(events[..n - 1]);
      } else if Consecutive(events[..n - 1]) {
        assert n > 1 ==> events[..n - 1][n - 2].number == n - 1;
      }
    }
  }

  // ----- the lists, entry by entry

  /** The event at a position does not follow its predecessor; the first must be number one. */
  function Breaking(events: seq<Event>): nat -> bool {
    (i: nat) => i < |events| && (if i == 0 then events[0].number != 1 else events[i].number - events[i - 1].number != 1)
  }

  function BreakAt(events: seq<Event>): nat -> Violation {
    (i: nat) =>
      if i < |events| then
        Violation(if i == 0 then 1 else events[i - 1].number + 1, events[i].number, events[i].id)
      else Violation(0, 0, 0)
  }

  /** Validation lists every break, in order, with the number expected there, the one found and the event. */
  lemma {:induction false} BreaksListed(events: seq<Event>, n: nat) returns (at: seq<nat>)
    requires n <= |events|
    ensures Gathers(Breaks(events, n), at, n, Breaking(events), BreakAt(events))
    decreases n
  {
    hide Gathers, Breaks, Breaking, BreakAt;
    if n == 0 {
      at := [];
      NoBreaks(events);
    } else {
      at := BreaksListed(events, n - 1);
      at := GatherNext(Breaks(events, n - 1), at, n - 1, Breaking(events), BreakAt(events));
      BreaksNext(events, n - 1);
    }
  }

  lemma NoBreaks(events: seq<Event>)
    ensures Gathers(Breaks(events, 0), [], 0, Breaking(events), BreakAt(events))
  {
  }

  lemma BreaksNext(events: seq<Event>, n: nat)
    requires n < |events|
    ensures Breaks(events, n + 1) ==
            if Breaking(events)(n) then Breaks(events, n) + [BreakAt(events)(n)] else Breaks(events, n)
  {
    assert Breaks(events, n) + [] == Breaks(events, n);
  }

  function Handled(events: seq<Event>, from: int, handled: set<string>): nat -> bool {
    (i: nat) => i < |events| && from <= events[i].number && events[i].eventType in handled
  }

  function EventAt(events: seq<Event>): nat -> Event {
    (i: nat) => if i < |events| then events[i] else Event(0, "", Aggregate("", 0), 0)
  }

  function Failing(visited: seq<Event>, projections: map<string, Event -> bool>): nat -> bool {
    (i: nat) => i < |visited| && visited[i].eventType in projections && !projections[visited[i].eventType](visited[i])
  }

  function ErrorAt(visited: seq<Event>): nat -> ReplayError {
    (i: nat) => if i < |visited| then HandlerError(visited[i].id, visited[i].number) else HandlerError(0, 0)
  }

  /** A replay visits, in order, exactly the events from the given number on that have a handler. */
  lemma {:induction false} VisitedListed(events: seq<Event>, from: int, handled: set<string>) returns (at: seq<nat>)
    ensures Gathers(HandledFrom(events, from, handled), at, |events|, Handled(events, from, handled), EventAt(events))
    decreases |events|
  {
    hide Gathers;
    if events == [] {
      at := [];
      GatherNothing(Handled(events, from, handled), EventAt(events));
    } else {
      var n := |events| - 1;
      var front := HandledFrom(events[..n], from, handled);
      at := VisitedListed(events[..n], from, handled);
      GatherAlike(front, at, n, Handled(events[..n], from, handled), EventAt(events[..n]),
                  Handled(events, from, handled), EventAt(events));
      at := GatherNext(front, at, n, Handled(events, from, handled), EventAt(events));
      assert front + [] == front;
    }
  }

  /** It reports, in order, exactly the visited events whose handler raised. */
  lemma {:induction false} FailuresListed(visited: seq<Event>, projections: map<string, Event -> bool>)
      returns (at: seq<nat>)
    ensures Gathers(Failures(visited, projections), at, |visited|, Failing(visited, projections), ErrorAt(visited))
    decreases |visited|
  {
    hide Gathers;
    if visited == [] {
      at := [];
      GatherNothing(Failing(visited, projections), ErrorAt(visited));
    } else {
      var n := |visited| - 1;
      var front := Failures(visited[..n], projections);
      at := FailuresListed(visited[..n], projections);
      GatherAlike(front, at, n, Failing(visited[..n], projections), ErrorAt(visited[..n]),
                  Failing(visited, projections), ErrorAt(visited));
      at := GatherNext(front, at, n, Failing(visited, projections), ErrorAt(visited));
      assert front + [] == front;
    }
  }

  ghost predicate HasNumber(events: seq<Event>, k: int) {
    exists i :: 0 <= i < |events| && events[i].number == k
  }

  ghost predicate Gapless(events: seq<Event>) {
    forall k :: 1 <= k <= |events| ==> HasNumber(events, k)
  }

  lemma ListHoldsOf(log: seq<Event>, a: Aggregate)
    ensures SortedBy(ListForAggregate(log, a), Earlier())
    ensures forall e :: e in ListForAggregate(log, a) <==> e in log && e.aggregate == a
    ensures |ListForAggregate(log, a)| == |Of(log, a)|
  {
    SortSorts(Of(log, a), Earlier());
    SortMembers(Of(log, a), Earlier());
    SortPermutes(Of(log, a), Earlier());
  }

  lemma InOrder(events: seq<Event>, i: nat, j: nat)
    requires SortedBy(events, Earlier()) && i < |events| && j < |events|
    ensures i <= j ==> events[i].number <= events[j].number
  {
    if i < j {
      assert Earlier()(events[i], events[j]);
    }
  }

  /** In a sorted list holding each of 1..n, the place of k is at least k - 1 ... */
  lemma {:induction false} PlaceAtLeast(events: seq<Event>, k: nat, i: nat)
    requires SortedBy(events, Earlier()) && Gapless(events)
    requires 1 <= k && i < |events| && events[i].number == k <= |events|
    ensures i >= k - 1
    decreases k
  {
    if k > 1 {
      assert HasNumber(events, k - 1);
      var j: nat :| j < |events| && events[j].number == k - 1;
      PlaceAtLeast(events, k - 1, j);
      InOrder(events, i, j);
    }
  }

  /** ... and at most k - 1. */
  lemma {:induction false} PlaceAtMost(events: seq<Event>, k: nat, i: nat)
    requires SortedBy(events, Earlier()) && Gapless(events)
    requires 1 <= k && i < |events| && events[i].number == k <= |events|
    ensures i <= k - 1
    decreases |events| - k
  {
    if k < |events| {
      assert HasNumber(events, k + 1);
      var j: nat :| j < |events| && events[j].number == k + 1;
      PlaceAtMost(events, k + 1, j);
      InOrder(events, j, i);
    }
  }

  /** An aggregate validates exactly when its n events, in any order, hold every number from 1 to n. */
  lemma ValidIffGapless(log: seq<Event>, a: Aggregate)
    ensures Consecutive(ListForAggregate(log, a)) <==> Gapless(Of(log, a))
  {
    hide Of, Sort, Gapless, Consecutive;
    ListHoldsOf(log, a);
    SameNumbers(ListForAggregate(log, a), Of(log, a));
    SortedGapless(ListForAggregate(log, a));
  }

  lemma SameNumbers(events: seq<Event>, others: seq<Event>)
    requires |events| == |others| && forall e :: e in events <==> e in others
    ensures Gapless(events) <==> Gapless(others)
  {
    forall k ensures HasNumber(events, k) <==> HasNumber(others, k) {
      if HasNumber(events, k) {
        var i :| 0 <= i < |events| && events[i].number == k;
        assert events[i] in others;
      }
      if HasNumber(others, k) {
        var i :| 0 <= i < |others| && others[i].number == k;
        assert others[i] in events;
      }
    }
  }

  lemma SortedGapless(events: seq<Event>)
    requires SortedBy(events, Earlier())
    ensures Consecutive(events) <==> Gapless(events)
  {
    if Consecutive(events) {
      forall k | 1 <= k <= |events| ensures HasNumber(events, k) {
        assert events[k - 1].number == k;
      }
    }
    if Gapless(events) {
      forall i | 0 <= i < |events| ensures events[i].number == i + 1 {
        assert HasNumber(events, i + 1);
        var j: nat :| j < |events| && events[j].number == i + 1;
        PlaceAtLeast(events, i + 1, j);
        PlaceAtMost(events, i + 1, j);
      }
    }
  }

  // ----- what the bus numbers

  lemma {:induction false} MaxBounds(events: seq<Event>)
    ensures MaxNumber(events).None? <==> events == []
    ensures events != [] ==> HasNumber(events, MaxNumber(events).value)
    ensures forall i :: 0 <= i < |events| ==> events[i].number <= MaxNumber(events).value
    decreases |events|
  {
    if events != [] {
      var n := |events| - 1;
      MaxBounds(events[..n]);
      if n > 0 && MaxNumber(events).value != events[n].number {
        var i :| 0 <= i < n && events[..n][i].number == MaxNumber(events[..n]).value;
        assert events[i].number == MaxNumber(events).value;
      }
    }
  }

  /** The last event listed carries the highest number: what comes next is the same from either end. */
  lemma LastIsMax(log: seq<Event>, a: Aggregate)
    ensures
      var events := ListForAggregate(log, a);
      NextSequence(log, a) == if events == [] then 1 else events[|events| - 1].number + 1
  {
    hide Of, Sort, MaxNumber;
    var events, some := ListForAggregate(log, a), Of(log, a);
    ListHoldsOf(log, a);
    MaxBounds(some);
    if events != [] {
      var last, max := events[|events| - 1], MaxNumber(some).value;
      var j :| 0 <= j < |some| && some[j].number == max;
      assert some[j] in events;
      var i :| 0 <= i < |events| && events[i] == some[j];
      assert i < |events| - 1 ==> Earlier()(events[i], last);
      assert last in some;
    }
  }

  datatype Publication = Publication(eventType: string, aggregate: Aggregate)

  /** The log after publishing one event after another. */
  function Published(publications: seq<Publication>): seq<Event> {
    if publications == [] then []
    else
      var n := |publications| - 1;
      var log := Published(publications[..n]);
      log + [Event(|log|, publications[n].eventType, publications[n].aggregate,
                   NextSequence(log, publications[n].aggregate))]
  }

  lemma {:induction false} SortedStays(events: seq<Event>)
    requires SortedBy(events, Earlier())
    ensures Sort(events, Earlier()) == events
    decreases |events|
  {
    if events != [] {
      SortedStays(events[1..]);
      if |events| > 1 {
        assert Earlier()(events[0], events[1]);
      }
      assert events == [events[0]] + events[1..];
    }
  }

  lemma OfSnoc(log: seq<Event>, e: Event, a: Aggregate)
    ensures Of(log + [e], a) == if e.aggregate == a then Of(log, a) + [e] else Of(log, a)
  {
    assert (log + [e])[..|log|] == log;
  }

  /** Published one after another, the events of every aggregate are numbered 1..n in the order of publication. */
  lemma {:induction false} SequentialNumbering(publications: seq<Publication>, a: Aggregate)
    ensures Consecutive(Of(Published(publications), a))
    ensures ListForAggregate(Published(publications), a) == Of(Published(publications), a)
    decreases |publications|
  {
    hide Of, Sort, NextSequence;
    var log := Published(publications);
    if publications == [] {
      OfNothing(a);
    } else {
      var n := |publications| - 1;
      var before := Published(publications[..n]);
      SequentialNumbering(publications[..n], a);
      LastIsMax(before, a);
      OfSnoc(before, log[|before|], a);
      assert log == before + [log[|before|]];
    }
    SortedStays(Of(log, a));
  }

  lemma OfNothing(a: Aggregate)
    ensures Of([], a) == []
  {
  }

  // ----- what a replay visits

  /** On a validated list, starting from number k skips exactly the first k - 1 events. */
  lemma {:induction false} ReplayIsSuffix(events: seq<Event>, from: int, handled: set<string>)
    requires Consecutive(events)
    ensures HandledFrom(events, from, handled) ==
            HandledFrom(events[Min(|events|, Max(0, from - 1))..], 1, handled)
    decreases |events|
  {
    if events != [] {
      var n := |events| - 1;
      var front, k := events[..n], Min(|events|, Max(0, from - 1));
      ReplayIsSuffix(front, from, handled);
      if k <= n {
        assert events[k..][..n - k] == front[k..];
        assert events[k..][n - k] == events[n];
      } else {
        assert front[n..] == [] && events[k..] == [];
      }
    }
  }

  /** The visited events come in strictly increasing number, each handled and numbered from `from` on, none missing. */
  lemma {:induction false} ReplayInOrder(events: seq<Event>, from: int, handled: set<string>)
    requires Consecutive(events)
    ensures
      var visited := HandledFrom(events, from, handled);
      && (forall i, j :: 0 <= i < j < |visited| ==> visited[i].number < visited[j].number)
      && forall e :: e in visited <==> e in events && e.number >= from && e.eventType in handled
    decreases |events|
  {
    if events != [] {
      var n := |events| - 1;
      assert events == events[..n] + [events[n]];
      ReplayInOrder(events[..n], from, handled);
    }
  }

  // ----- two publishers that read before either writes

  function Raced(log: seq<Event>, first: Publication, second: Publication): seq<Event> {
    log + [Event(|log|, first.eventType, first.aggregate, NextSequence(log, first.aggregate)),
           Event(|log| + 1, second.eventType, second.aggregate, NextSequence(log, second.aggregate))]
  }

  lemma TwoOfANumber(events: seq<Event>, e: Event, f: Event)
    requires e in events && f in events && e != f && e.number == f.number
    ensures !Consecutive(events)
  {
    var i :| 0 <= i < |events| && events[i] == e;
    var j :| 0 <= j < |events| && events[j] == f;
  }

  /** The race leaves every aggregate valid exactly when the two publications are to different aggregates. */
  lemma RaceSafeIff(log: seq<Event>, first: Publication, second: Publication)
    requires forall a :: Consecutive(ListForAggregate(log, a))
    ensures (forall a :: Consecutive(ListForAggregate(Raced(log, first, second), a))) <==>
            first.aggregate != second.aggregate
  {
    hide Of, Sort, NextSequence, ListForAggregate, Consecutive;
    var raced := Raced(log, first, second);
    if first.aggregate == second.aggregate {
      RaceDuplicates(log, first, second);
    } else {
      forall a ensures Consecutive(ListForAggregate(raced, a)) {
        RaceApart(log, first, second, a);
      }
    }
  }

  lemma RaceDuplicates(log: seq<Event>, first: Publication, second: Publication)
    requires first.aggregate == second.aggregate
    ensures !Consecutive(ListForAggregate(Raced(log, first, second), first.aggregate))
  {
    hide Of, Sort, NextSequence;
    var raced := Raced(log, first, second);
    ListHoldsOf(raced, first.aggregate);
    assert raced[|log|] in raced && raced[|log| + 1] in raced;
    TwoOfANumber(ListForAggregate(raced, first.aggregate), raced[|log|], raced[|log| + 1]);
  }

  lemma RaceApart(log: seq<Event>, first: Publication, second: Publication, a: Aggregate)
    requires first.aggregate != second.aggregate && Consecutive(ListForAggregate(log, a))
    ensures Consecutive(ListForAggregate(Raced(log, first, second), a))
  {
    hide Of, Sort, NextSequence;
    var raced := Raced(log, first, second);
    var e, f := raced[|log|], raced[|log| + 1];
    assert raced == (log + [e]) + [f];
    OfSnoc(log, e, a);
    OfSnoc(log + [e], f, a);
    LastIsMax(log, a);
    if e.aggregate == a {
      AppendedLast(log, e, a);
    } else if f.aggregate == a {
      AppendedLast(log, f, a);
    }
  }

  /** An event numbered after the last one lands at the end of the list, wherever the log has it. */
  lemma AppendedLast(log: seq<Event>, e: Event, a: Aggregate)
    requires Consecutive(ListForAggregate(log, a)) && e.aggregate == a && e.number == NextSequence(log, a)
    ensures Consecutive(Sort(Of(log, a) + [e], Earlier()))
  {
    hide Of, Sort, NextSequence;
    var events := ListForAggregate(log, a);
    LastIsMax(log, a);
    ListHoldsOf(log, a);
    forall x | x in Of(log, a) ensures x.number <= e.number {
      assert x in events;
    }
    SortAppends(Of(log, a), e);
  }

  lemma {:induction false} InsertBefore(x: Event, s: seq<Event>, e: Event)
    requires x.number <= e.number
    ensures Insert(x, s + [e], Earlier()) == Insert(x, s, Earlier()) + [e]
    decreases |s|
  {
    if s != [] {
      assert (s + [e])[1..] == s[1..] + [e];
      InsertBefore(x, s[1..], e);
    }
  }

  lemma {:induction false} SortAppends(events: seq<Event>, e: Event)
    requires forall x :: x in events ==> x.number <= e.number
    ensures Sort(events + [e], Earlier()) == Sort(events, Earlier()) + [e]
    decreases |events|
  {
    if events == [] {
      assert [e][1..] == [];
    } else {
      assert (events + [e])[1..] == events[1..] + [e];
      SortAppends(events[1..], e);
      InsertBefore(events[0], Sort(events[1..], Earlier()), e);
    }
  }
}
