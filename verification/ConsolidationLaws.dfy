/** What a consolidated window guarantees: few groups, a partition of the candidates, and how much saving is booked. */
module ConsolidationLaws {
  import opened Sums
  import opened Sorting
  import opened Tables
  import opened Consolidation

  ghost predicate NonNegative(weights: seq<real>) {
    forall i :: 0 <= i < |weights| ==> weights[i] >= 0.0
  }

  lemma WeightConcat(weights: seq<real>, a: seq<nat>, b: seq<nat>)
    ensures TotalWeight(weights, a + b) == TotalWeight(weights, a) + TotalWeight(weights, b)
  {
    RealSumConcat(a, b, WeightIn(weights));
  }

  lemma {:induction false} WeightNonNegative(weights: seq<real>, a: seq<nat>)
    requires NonNegative(weights)
    ensures TotalWeight(weights, a) >= 0.0
    decreases |a|
  {
    if a != [] {
      WeightNonNegative(weights, a[..|a| - 1]);
    }
  }

  /** A group weighs at least as much as the shipment it was opened with. */
  lemma OpenerFits(weights: seq<real>, g: Group)
    requires NonNegative(weights) && Packed(weights, g)
    ensures WeightIn(weights)(g.members[0]) <= g.weight
  {
    assert g.members == [g.members[0]] + g.members[1..];
    WeightConcat(weights, [g.members[0]], g.members[1..]);
    WeightNonNegative(weights, g.members[1..]);
    WeightOfOne(weights, g.members[0]);
  }

  /** Every closed group is charged either to its ten members or to its own and its successor's weight. */
  lemma {:induction false} ClosedGroupsCharged(weights: seq<real>, groups: seq<Group>, region: string,
                                               warehouse: WarehouseId, first: nat)
    requires NonNegative(weights) && Chain(weights, groups, region, warehouse, first) && groups != []
    ensures 500.0 * (|groups| - 1) as real <=
            50.0 * |Flatten(groups[..|groups| - 1])| as real +
            2.0 * TotalWeight(weights, Flatten(groups[..|groups| - 1])) + groups[|groups| - 1].weight
    decreases |groups|
  {
    var k := |groups| - 1;
    var last := groups[k];
    assert Packed(weights, last);
    if k == 0 {
      OpenerFits(weights, last);
      assert WeightIn(weights)(last.members[0]) >= 0.0;
      assert groups[..k] == [] && TotalWeight(weights, []) == 0.0;
    } else {
      var front, g := groups[..k], groups[k - 1];
      ShorterChain(weights, groups, region, warehouse, first);
      ClosedGroupsCharged(weights, front, region, warehouse, first);
      assert front[..k - 1] == groups[..k - 1] && front[k - 1] == g;
      assert Flatten(front) == Flatten(front[..k - 1]) + g.members;
      WeightConcat(weights, Flatten(front[..k - 1]), g.members);
      assert ClosedForCause(weights, groups[k - 1], groups[k - 1 + 1].members[0]);
      OpenerFits(weights, last);
      OpenerFits(weights, g);
      assert WeightIn(weights)(last.members[0]) >= 0.0 && WeightIn(weights)(g.members[0]) >= 0.0;
    }
  }

  lemma ShorterChain(weights: seq<real>, groups: seq<Group>, region: string, warehouse: WarehouseId, first: nat)
    requires Chain(weights, groups, region, warehouse, first) && |groups| > 1
    ensures Chain(weights, groups[..|groups| - 1], region, warehouse, first)
    ensures Packed(weights, groups[|groups| - 2])
  {
    var front := groups[..|groups| - 1];
    forall i | 0 <= i < |front| - 1 ensures ClosedForCause(weights, front[i], front[i + 1].members[0]) {
      assert ClosedForCause(weights, groups[i], groups[i + 1].members[0]);
    }
  }

  /** Next-fit opens at most 1 + n/10 + W/250 groups for n shipments of total effective weight W. */
  lemma FewGroups(weights: seq<real>, groups: seq<Group>, region: string, warehouse: WarehouseId, first: nat)
    requires NonNegative(weights) && Chain(weights, groups, region, warehouse, first)
    ensures |groups| as real <= 1.0 + |Flatten(groups)| as real / 10.0 + TotalWeight(weights, Flatten(groups)) / 250.0
  {
    if groups == [] {
      assert TotalWeight(weights, []) == 0.0;
    } else {
      var k := |groups| - 1;
      assert Packed(weights, groups[k]);
      ClosedGroupsCharged(weights, groups, region, warehouse, first);
      WeightConcat(weights, Flatten(groups[..k]), groups[k].members);
      WeightNonNegative(weights, groups[k].members);
    }
  }

  /** A region is packed lightest first, a missing weight counting as zero in this order. */
  lemma LightestFirst(table: seq<Shipment>, ids: seq<nat>, region: string, a: nat, b: nat)
    requires forall i :: i in ids ==> i < |table|
    requires a < b < |PackingOrder(table, ids, region)|
    ensures PackingOrder(table, ids, region)[a] < |table| && PackingOrder(table, ids, region)[b] < |table|
    ensures
      var light, heavy := table[PackingOrder(table, ids, region)[a]], table[PackingOrder(table, ids, region)[b]];
      (if light.weight.Some? then light.weight.value else 0.0)
      <= (if heavy.weight.Some? then heavy.weight.value else 0.0)
  {
    hide InRegion, RegionOf, Sort;
    var weights := SortWeights(table);
    var some, order := InRegion(table, ids, region), PackingOrder(table, ids, region);
    SortSorts(some, Lighter(weights));
    SortMembers(some, Lighter(weights));
    assert order[a] in some && order[b] in some;
    assert Lighter(weights)(order[a], order[b]);
    assert WeightIn(weights)(order[a]) == weights[order[a]] && WeightIn(weights)(order[b]) == weights[order[b]];
  }

  function Weighing(table: seq<Shipment>, x: real): nat -> bool {
    (i: nat) => i < |table| && (if table[i].weight.Some? then table[i].weight.value else 0.0) == x
  }

  /** Shipments of the same weight are packed in candidate order. */
  lemma EqualWeightsAsListed(table: seq<Shipment>, ids: seq<nat>, region: string, x: real)
    ensures Where(PackingOrder(table, ids, region), Weighing(table, x))
         == Where(InRegion(table, ids, region), Weighing(table, x))
  {
    hide InRegion;
    forall i: nat | Weighing(table, x)(i) ensures WeightIn(SortWeights(table))(i) == x {
      assert SortWeights(table)[i] == x;
    }
    SortStable(InRegion(table, ids, region), Lighter(SortWeights(table)), Weighing(table, x));
  }

  function MeetsRegion(table: seq<Shipment>, ids: seq<nat>, region: string): nat -> bool {
    (i: nat) => i < |ids| && RegionOf(table, ids[i]) == region
  }

  function IdAt(ids: seq<nat>): nat -> nat { (i: nat) => if i < |ids| then ids[i] else 0 }

  /** A region's bucket lists its candidates in their order. */
  lemma {:induction false} BucketInOrder(table: seq<Shipment>, ids: seq<nat>, region: string) returns (at: seq<nat>)
    ensures Gathers(InRegion(table, ids, region), at, |ids|, MeetsRegion(table, ids, region), IdAt(ids))
    decreases |ids|
  {
    hide Gathers, RegionOf;
    if ids == [] {
      at := [];
      GatherNothing(MeetsRegion(table, ids, region), IdAt(ids));
    } else {
      var n := |ids| - 1;
      var front := InRegion(table, ids[..n], region);
      at := BucketInOrder(table, ids[..n], region);
      GatherAlike(front, at, n, MeetsRegion(table, ids[..n], region), IdAt(ids[..n]),
                  MeetsRegion(table, ids, region), IdAt(ids));
      at := GatherNext(front, at, n, MeetsRegion(table, ids, region), IdAt(ids));
    }
  }

  /** The candidate at `i` is of one region, and up to it none is of the other. */
  ghost predicate MetBefore(table: seq<Shipment>, ids: seq<nat>, i: nat, region: string, other: string) {
    && i < |ids| && RegionOf(table, ids[i]) == region
    && forall j :: 0 <= j <= i ==> RegionOf(table, ids[j]) != other
  }

  /** Regions come in the order in which their first candidates do. */
  lemma {:induction false} RegionsAsMet(table: seq<Shipment>, ids: seq<nat>, a: nat, b: nat) returns (i: nat)
    requires a < b < |Regions(table, ids)|
    ensures MetBefore(table, ids, i, Regions(table, ids)[a], Regions(table, ids)[b])
    decreases |ids|
  {
    hide MetBefore;
    var n := |ids| - 1;
    RegionsNext(table, ids);
    hide Regions, RegionOf;
    var regions, front := Regions(table, ids), Regions(table, ids[..n]);
    if b < |front| {
      i := RegionsAsMet(table, ids[..n], a, b);
      MetInLonger(table, ids, i, front[a], front[b]);
    } else {
      i := MetBy(table, ids[..n], front[a]);
      MetInFront(table, ids, i, front[a], regions[b]);
    }
  }

  lemma MetInLonger(table: seq<Shipment>, ids: seq<nat>, i: nat, region: string, other: string)
    requires ids != [] && MetBefore(table, ids[..|ids| - 1], i, region, other)
    ensures MetBefore(table, ids, i, region, other)
  {
    hide RegionOf;
    forall j | 0 <= j <= i ensures RegionOf(table, ids[j]) != other {
      assert ids[..|ids| - 1][j] == ids[j];
    }
  }

  lemma MetInFront(table: seq<Shipment>, ids: seq<nat>, i: nat, region: string, other: string)
    requires i < |ids| - 1 && RegionOf(table, ids[..|ids| - 1][i]) == region
    requires forall j :: 0 <= j < |ids| - 1 ==> RegionOf(table, ids[j]) != other
    ensures MetBefore(table, ids, i, region, other)
  {
    hide RegionOf;
  }

  lemma RegionsNext(table: seq<Shipment>, ids: seq<nat>)
    requires ids != []
    ensures
      var n := |ids| - 1;
      var front, region := Regions(table, ids[..n]), RegionOf(table, ids[n]);
      if region in front then Regions(table, ids) == front
      else
        && Regions(table, ids) == front + [region]
        && forall j :: 0 <= j < n ==> RegionOf(table, ids[j]) != region
  {
    hide RegionOf;
    var n := |ids| - 1;
    forall j | 0 <= j < n ensures RegionOf(table, ids[j]) in Regions(table, ids[..n]) {
      assert ids[..n][j] in ids[..n];
    }
  }

  lemma {:induction false} MetBy(table: seq<Shipment>, ids: seq<nat>, region: string) returns (i: nat)
    requires region in Regions(table, ids)
    ensures i < |ids| && RegionOf(table, ids[i]) == region
    decreases |ids|
  {
    hide RegionOf;
    i := |ids| - 1;
    if RegionOf(table, ids[i]) != region {
      i := MetBy(table, ids[..i], region);
    }
  }

  lemma {:induction false} FlattenConcat(a: seq<Group>, b: seq<Group>)
    ensures Flatten(a + b) == Flatten(a) + Flatten(b)
    decreases |b|
  {
    if b == [] {
      assert a + b == a;
    } else {
      var k := |b| - 1;
      assert (a + b)[..|a| + k] == a + b[..k];
      FlattenConcat(a, b[..k]);
    }
  }

  lemma FewerRegions(before: seq<Shipment>, now: seq<Shipment>, ids: seq<nat>, regions: seq<string>,
                     parts: seq<seq<Group>>, warehouse: WarehouseId, first: nat, r: nat)
    requires WindowPacked(before, now, ids, regions, parts, warehouse, first) && r < |parts|
    ensures RegionPacked(before, now, ids, parts[r], regions[r], warehouse, first + |Concat(parts[..r])|)
  {
  }

  /** The regions' groups together hold exactly the gathered candidates. */
  lemma {:induction false} GroupsHoldGathered(before: seq<Shipment>, ids: seq<nat>, regions: seq<string>,
                                              parts: seq<seq<Group>>)
    requires |parts| == |regions|
    requires forall r :: 0 <= r < |parts| ==> Flatten(parts[r]) == PackingOrder(before, ids, regions[r])
    ensures multiset(Flatten(Concat(parts))) == multiset(Gather(before, ids, regions))
    decreases |parts|
  {
    if parts != [] {
      var n := |parts| - 1;
      GroupsHoldGathered(before, ids, regions[..n], parts[..n]);
      FlattenConcat(Concat(parts[..n]), parts[n]);
      SortPermutes(InRegion(before, ids, regions[n]), Lighter(SortWeights(before)));
    }
  }

  /** Every candidate is in exactly one group, and nothing else is. */
  lemma WindowPartitions(before: seq<Shipment>, now: seq<Shipment>, ids: seq<nat>, parts: seq<seq<Group>>,
                         warehouse: WarehouseId, first: nat)
    requires WindowPacked(before, now, ids, Regions(before, ids), parts, warehouse, first)
    ensures multiset(Flatten(Concat(parts))) == multiset(ids)
  {
    var regions := Regions(before, ids);
    forall r | 0 <= r < |parts| ensures Flatten(parts[r]) == PackingOrder(before, ids, regions[r]) {
      FewerRegions(before, now, ids, regions, parts, warehouse, first, r);
    }
    GroupsHoldGathered(before, ids, regions, parts);
    RegionsPartition(before, ids);
  }

  lemma {:induction false} GroupHolding(groups: seq<Group>, m: nat) returns (i: nat)
    requires m in Flatten(groups)
    ensures i < |groups| && m in groups[i].members
    decreases |groups|
  {
    var k := |groups| - 1;
    if m in groups[k].members {
      i := k;
    } else {
      i := GroupHolding(groups[..k], m);
    }
  }

  /** A candidate's row names a group of its own region that lists it. */
  ghost predicate Grouped(before: seq<Shipment>, now: seq<Shipment>, m: nat, g: Group) {
    m < |now| && m in g.members && now[m].group == Some(g.id) && g.region == RegionOf(before, m)
  }

  lemma EachCandidateGrouped(before: seq<Shipment>, now: seq<Shipment>, ids: seq<nat>, parts: seq<seq<Group>>,
                             warehouse: WarehouseId, first: nat, m: nat)
      returns (r: nat, i: nat)
    requires DistinctIds(ids) && WindowPacked(before, now, ids, Regions(before, ids), parts, warehouse, first)
    requires m in ids
    ensures r < |parts| && i < |parts[r]| && Grouped(before, now, m, parts[r][i])
  {
    hide EffectiveWeights, Concat, Regions, RegionOf, PackingOrder;
    var regions := Regions(before, ids);
    r :| 0 <= r < |regions| && regions[r] == RegionOf(before, m);
    FewerRegions(before, now, ids, regions, parts, warehouse, first, r);
    PackingOrderHolds(before, ids, regions[r]);
    i := GroupHolding(parts[r], m);
    assert PointsBack(now, parts[r][i]);
  }

  /** What a shipment counts for in its group: its own weight, or ten when it has none. */
  function CountsFor(table: seq<Shipment>): nat -> real {
    (m: nat) =>
      if m < |table| then
        match table[m].weight
        case None => 10.0
        case Some(x) => if x == 0.0 then 10.0 else x
      else 0.0
  }

  /** Every group holds ten shipments at most and, unless it holds one alone, weighs 500 at most; it is left for the
      next group of its region only when full or too heavy for that group's first shipment; savings are booked for the
      last. */
  lemma GroupsWithinLimits(before: seq<Shipment>, now: seq<Shipment>, ids: seq<nat>, parts: seq<seq<Group>>,
                           warehouse: WarehouseId, first: nat, r: nat, i: nat)
    requires WindowPacked(before, now, ids, Regions(before, ids), parts, warehouse, first)
    requires r < |parts| && i < |parts[r]|
    ensures
      var g := parts[r][i];
      && 1 <= |g.members| <= 10 && (|g.members| == 1 || g.weight <= 500.0)
      && g.weight == RealSumOver(g.members, CountsFor(before))
      && g.warehouse == warehouse && g.region == Regions(before, ids)[r]
      && (i + 1 < |parts[r]| ==>
            && parts[r][i + 1].members != [] && g.savings == 0.0
            && (|g.members| == 10 || g.weight + CountsFor(before)(parts[r][i + 1].members[0]) > 500.0))
      && (i + 1 == |parts[r]| ==> g.savings == 5.0 * |g.members| as real)
  {
    hide Regions, RegionOf, PackingOrder, RealSumOver, AllPointBack, Concat, OnlyGrouped;
    var weights, part := EffectiveWeights(before), parts[r];
    FewerRegions(before, now, ids, Regions(before, ids), parts, warehouse, first, r);
    assert Packed(weights, part[i]);
    forall m: nat ensures WeightIn(weights)(m) == CountsFor(before)(m) {
    }
    RealSumCongruence(part[i].members, WeightIn(weights), CountsFor(before));
    if i + 1 < |part| {
      assert Packed(weights, part[i + 1]) && ClosedForCause(weights, part[i], part[i + 1].members[0]);
    }
  }

  /** The window puts a group into exactly the rows of the warehouse that are planned, not grouped yet and picked up
      within the window, both ends included, and changes nothing else. */
  lemma WindowTouches(before: seq<Shipment>, now: seq<Shipment>, parts: seq<seq<Group>>, warehouse: WarehouseId,
                      start: Time, end: Time, first: nat, m: nat)
    requires
      var ids := Candidates(before, warehouse, start, end);
      WindowPacked(before, now, ids, Regions(before, ids), parts, warehouse, first)
    requires m < |before|
    ensures |now| == |before| && now[m] == before[m].(group := now[m].group)
    ensures now[m].group != before[m].group <==>
            && before[m].warehouse == warehouse && before[m].planned && before[m].group == None
            && before[m].pickup.Some? && start <= before[m].pickup.value <= end
  {
    hide Regions, RegionPacked, Concat, RegionOf;
    var ids := Candidates(before, warehouse, start, end);
    if m in ids {
      CandidatesDistinct(before, warehouse, start, end);
      var r, i := EachCandidateGrouped(before, now, ids, parts, warehouse, first, m);
    }
  }

  /** Five per shipment, booked in full only when the region's shipments fill a single group. */
  ghost predicate BookedAtMost(part: seq<Group>, shipments: nat) {
    && SavingsOfLast(part) <= 5.0 * shipments as real
    && (SavingsOfLast(part) == 5.0 * shipments as real <==> |part| <= 1)
  }

  /** Every group of the region but the last is booked at nothing. */
  lemma SavingsOfRegion(before: seq<Shipment>, now: seq<Shipment>, ids: seq<nat>, part: seq<Group>,
                        region: string, warehouse: WarehouseId, first: nat)
    requires RegionPacked(before, now, ids, part, region, warehouse, first)
    ensures BookedAtMost(part, |InRegion(before, ids, region)|)
  {
    hide AllPointBack, InRegion, Sort, EffectiveWeights, ClosedForCause, RegionOf;
    SortPermutes(InRegion(before, ids, region), Lighter(SortWeights(before)));
    SavingsOfChain(EffectiveWeights(before), part, region, warehouse, first);
  }

  lemma SavingsOfChain(weights: seq<real>, part: seq<Group>, region: string, warehouse: WarehouseId, first: nat)
    requires Chain(weights, part, region, warehouse, first) && OnlyLastSaves(part)
    ensures BookedAtMost(part, |Flatten(part)|)
  {
    hide TotalWeight, ClosedForCause;
    if |part| == 0 {
    } else if |part| == 1 {
      assert part[..0] == [];
    } else {
      var front := part[..|part| - 1];
      assert Packed(weights, part[0]);
      MembersFlattened(front, 0);
      assert part[0].members[0] in Flatten(front);
    }
  }

  ghost predicate SingleGroups(parts: seq<seq<Group>>) {
    forall r :: 0 <= r < |parts| ==> |parts[r]| <= 1
  }

  lemma {:induction false} SavingsAddUp(before: seq<Shipment>, ids: seq<nat>, regions: seq<string>,
                                        parts: seq<seq<Group>>)
    requires |parts| == |regions|
    requires forall r :: 0 <= r < |parts| ==> BookedAtMost(parts[r], |InRegion(before, ids, regions[r])|)
    ensures RealSumOver(parts, SavingsOfLast) <= 5.0 * |Gather(before, ids, regions)| as real
    ensures RealSumOver(parts, SavingsOfLast) == 5.0 * |Gather(before, ids, regions)| as real <==> SingleGroups(parts)
    decreases |parts|
  {
    hide InRegion, SavingsOfLast, SingleGroups;
    SingleFront(parts);
    if parts != [] {
      var n := |parts| - 1;
      SavingsAddUp(before, ids, regions[..n], parts[..n]);
      assert BookedAtMost(parts[n], |InRegion(before, ids, regions[n])|);
    }
  }

  lemma SingleFront(parts: seq<seq<Group>>)
    ensures SingleGroups(parts) <==>
            parts == [] || (SingleGroups(parts[..|parts| - 1]) && |parts[|parts| - 1]| <= 1)
  {
    if parts != [] {
      var n := |parts| - 1;
      assert forall r :: 0 <= r < n ==> parts[..n][r] == parts[r];
    }
  }

  /** One group takes all these shipments: one at most, or ten at most that weigh 500 at most together. */
  ghost predicate FitsOneGroup(weights: seq<real>, ids: seq<nat>) {
    |ids| <= 1 || (|ids| <= 10 && TotalWeight(weights, ids) <= 500.0)
  }

  /** A chain needs a second group exactly when its shipments do not fit one. */
  lemma OneGroupIff(weights: seq<real>, part: seq<Group>, region: string, warehouse: WarehouseId, first: nat)
    requires NonNegative(weights) && Chain(weights, part, region, warehouse, first)
    ensures |part| <= 1 <==> FitsOneGroup(weights, Flatten(part))
  {
    hide TotalWeight, ClosedForCause, NonNegative;
    if |part| == 1 {
      assert part == [part[0]] && Packed(weights, part[0]);
      FlattenOne(part[0]);
    } else if |part| > 1 {
      TwoGroupsTooMuch(weights, part, region, warehouse, first);
    }
  }

  /** The first two groups of a longer chain already exceed a single group's limits. */
  lemma TwoGroupsTooMuch(weights: seq<real>, part: seq<Group>, region: string, warehouse: WarehouseId, first: nat)
    requires NonNegative(weights) && Chain(weights, part, region, warehouse, first) && |part| >= 2
    ensures !FitsOneGroup(weights, Flatten(part))
  {
    hide TotalWeight;
    var g, h := part[0], part[1];
    assert Packed(weights, g) && Packed(weights, h) && ClosedForCause(weights, part[0], part[0 + 1].members[0]);
    var rest := part[2..];
    assert part == ([g] + [h]) + rest;
    FlattenConcat([g] + [h], rest);
    FlattenConcat([g], [h]);
    FlattenOne(g);
    FlattenOne(h);
    var both := g.members + h.members;
    WeightConcat(weights, both, Flatten(rest));
    WeightConcat(weights, g.members, h.members);
    WeightNonNegative(weights, Flatten(rest));
    OpenerFits(weights, h);
  }

  lemma FlattenOne(g: Group)
    ensures Flatten([g]) == g.members
  {
    assert [g][..0] == [];
  }

  /** The shipments of every region fit one group. */
  ghost predicate RegionsFit(table: seq<Shipment>, ids: seq<nat>) {
    forall region :: region in Regions(table, ids) ==>
      FitsOneGroup(EffectiveWeights(table), InRegion(table, ids, region))
  }

  lemma SingleGroupsIff(before: seq<Shipment>, now: seq<Shipment>, ids: seq<nat>, parts: seq<seq<Group>>,
                        warehouse: WarehouseId, first: nat)
    requires WindowPacked(before, now, ids, Regions(before, ids), parts, warehouse, first)
    requires NonNegative(EffectiveWeights(before))
    ensures SingleGroups(parts) <==> RegionsFit(before, ids)
  {
    hide InRegion, FitsOneGroup, EffectiveWeights, Regions, Concat, OnlyGrouped, Chain, AllPointBack, OnlyLastSaves,
         Flatten;
    var weights, regions := EffectiveWeights(before), Regions(before, ids);
    forall r | 0 <= r < |parts|
      ensures |parts[r]| <= 1 <==> FitsOneGroup(weights, InRegion(before, ids, regions[r]))
    {
      FewerRegions(before, now, ids, regions, parts, warehouse, first, r);
      OneGroupIff(weights, parts[r], regions[r], warehouse, first + |Concat(parts[..r])|);
      OrderFitsAlike(before, ids, regions[r]);
    }
    if SingleGroups(parts) {
      forall region | region in regions ensures FitsOneGroup(weights, InRegion(before, ids, region)) {
        var r :| 0 <= r < |regions| && regions[r] == region;
        assert |parts[r]| <= 1;
      }
    }
    if RegionsFit(before, ids) {
      forall r | 0 <= r < |parts| ensures |parts[r]| <= 1 {
        assert regions[r] in regions;
      }
    }
  }

  lemma OrderFitsAlike(table: seq<Shipment>, ids: seq<nat>, region: string)
    ensures FitsOneGroup(EffectiveWeights(table), PackingOrder(table, ids, region)) <==>
            FitsOneGroup(EffectiveWeights(table), InRegion(table, ids, region))
  {
    hide InRegion, Sort, EffectiveWeights;
    SortPermutes(InRegion(table, ids, region), Lighter(SortWeights(table)));
    SortRealSum(InRegion(table, ids, region), Lighter(SortWeights(table)), WeightIn(EffectiveWeights(table)));
  }

  /** For non-negative weights the window books five per shipment exactly when every region's shipments fit one group:
      one at most, or ten at most of 500 at most in all. Otherwise it books less. */
  lemma SavingsBooked(before: seq<Shipment>, now: seq<Shipment>, ids: seq<nat>, parts: seq<seq<Group>>,
                      warehouse: WarehouseId, first: nat)
    requires WindowPacked(before, now, ids, Regions(before, ids), parts, warehouse, first)
    ensures RealSumOver(parts, SavingsOfLast) <= 5.0 * |ids| as real
    ensures NonNegative(EffectiveWeights(before)) ==>
              (RealSumOver(parts, SavingsOfLast) == 5.0 * |ids| as real <==> RegionsFit(before, ids))
  {
    hide InRegion, SingleGroups, RegionPacked, BookedAtMost, Gather, Regions, Concat, OnlyGrouped, SavingsOfLast,
         RegionsFit;
    var regions := Regions(before, ids);
    forall r | 0 <= r < |parts| ensures BookedAtMost(parts[r], |InRegion(before, ids, regions[r])|) {
      FewerRegions(before, now, ids, regions, parts, warehouse, first, r);
      SavingsOfRegion(before, now, ids, parts[r], regions[r], warehouse, first + |Concat(parts[..r])|);
    }
    SavingsAddUp(before, ids, regions, parts);
    RegionsPartition(before, ids);
    if NonNegative(EffectiveWeights(before)) {
      SingleGroupsIff(before, now, ids, parts, warehouse, first);
    }
  }

  /** `s` with its postal prefix `p` reads as `t` with `q`: what follows a dash in `s` is taken for prefix. */
  ghost predicate ReadsAs(s: string, p: string, t: string, q: string, u: string) {
    s == t + "-" + u && q == u + "-" + p
  }

  function StateIn(address: map<string, string>): string {
    if "state" in address then address["state"] else "UNKNOWN"
  }

  /** The first three characters of the postal code, or as many as there are. */
  function FirstThree(address: map<string, string>): string {
    if "postal_code" !in address then ""
    else
      var postal := address["postal_code"];
      if |postal| < 3 then postal else postal[..3]
  }

  lemma RegionReads(address: map<string, string>)
    ensures ExtractRegion(address) == StateIn(address) + "-" + FirstThree(address)
  {
    if "postal_code" in address && |address["postal_code"]| == 3 {
      assert address["postal_code"][..3] == address["postal_code"];
    }
  }

  /** Two addresses share a region exactly when state and postal prefix agree, or when one state is the other followed
      by a dash and something that the other's prefix begins with, the rest matching. */
  lemma RegionsSeparate(a: map<string, string>, b: map<string, string>)
    ensures
      var s, t := StateIn(a), StateIn(b);
      var p, q := FirstThree(a), FirstThree(b);
      ExtractRegion(a) == ExtractRegion(b) <==>
      (s == t && p == q) || (exists u :: ReadsAs(s, p, t, q, u)) || (exists u :: ReadsAs(t, q, s, p, u))
  {
    forall address ensures ExtractRegion(address) == StateIn(address) + "-" + FirstThree(address) {
      RegionReads(address);
    }
    SameStem(StateIn(a), FirstThree(a), StateIn(b), FirstThree(b));
  }

  lemma SameStem(s: string, p: string, t: string, q: string)
    ensures s + "-" + p == t + "-" + q <==>
            (s == t && p == q) || (exists u :: ReadsAs(s, p, t, q, u)) || (exists u :: ReadsAs(t, q, s, p, u))
  {
    if s + "-" + p == t + "-" + q {
      if |s| <= |t| {
        StemOfLonger(t, q, s, p);
      } else {
        StemOfLonger(s, p, t, q);
      }
    }
    if u :| ReadsAs(s, p, t, q, u) {
      assert s + "-" + p == t + "-" + (u + "-" + p);
    }
    if u :| ReadsAs(t, q, s, p, u) {
      assert t + "-" + q == s + "-" + (u + "-" + q);
    }
  }

  lemma StemOfLonger(s: string, p: string, t: string, q: string)
    requires s + "-" + p == t + "-" + q && |t| <= |s|
    ensures (s == t && p == q) || exists u :: ReadsAs(s, p, t, q, u)
  {
    var x := s + "-" + p;
    assert x[..|s|] == s && x[..|t|] == t && x[|t| + 1..] == q && x[|s| + 1..] == p && x[|t|] == '-' && x[|s|] == '-';
    if |t| < |s| {
      var u := x[|t| + 1..|s|];
      assert s == x[..|t|] + [x[|t|]] + u;
      assert q == u + [x[|s|]] + x[|s| + 1..];
      assert ReadsAs(s, p, t, q, u);
    }
  }

  /** With a dash in the state, different states can fall into one region. */
  lemma DashedStateMerges()
    ensures ExtractRegion(map["state" := "A-B", "postal_code" := "1"]) ==
            ExtractRegion(map["state" := "A", "postal_code" := "B-1"])
  {
    assert "A-B" + "-" + "1" == "A" + "-" + "B-1";
  }
}
