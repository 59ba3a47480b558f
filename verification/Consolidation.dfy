/** Shipment consolidation: next-fit packing of a window's shipments, region by region. */
module Consolidation {
  import opened Sums
  import opened Sorting
  import opened Tables

  const MAX_GROUP_WEIGHT := 500.0
  const MAX_GROUP_SIZE := 10

  /** A shipment row; its id is its position in the table. */
  datatype Shipment = Shipment(warehouse: WarehouseId, planned: bool, pickup: Option<Time>,
                               address: map<string, string>, weight: Option<real>, group: Option<nat>)

  datatype Group = Group(id: nat, warehouse: WarehouseId, members: seq<nat>, weight: real, region: string,
                         savings: real)

  datatype ConsolidationResult = ConsolidationResult(groups: seq<Group>, consolidated: nat, totalSavings: real)

  function Lookup(address: map<string, string>, key: string, otherwise: string): string {
    if key in address then address[key] else otherwise
  }

  function PostalPrefix(address: map<string, string>): string {
    var postal := Lookup(address, "postal_code", "");
    if |postal| <= 3 then postal else postal[..3]
  }

  /** The state and the first three characters of the postal code. */
  function ExtractRegion(address: map<string, string>): string {
    Lookup(address, "state", "UNKNOWN") + "-" + PostalPrefix(address)
  }

  function SortWeight(s: Shipment): real { if s.weight.Some? then s.weight.value else 0.0 }

  /** A missing or zero weight counts as ten kilograms. */
  function EffectiveWeight(s: Shipment): real {
    if s.weight.Some? && s.weight.value != 0.0 then s.weight.value else 10.0
  }

  predicate IsCandidate(s: Shipment, w: WarehouseId, start: Time, end: Time) {
    s.warehouse == w && s.planned && s.group.None? && s.pickup.Some? && start <= s.pickup.value <= end
  }

  function Candidates(table: seq<Shipment>, w: WarehouseId, start: Time, end: Time): (ids: seq<nat>)
    ensures forall i: nat :: i in ids <==> i < |table| && IsCandidate(table[i], w, start, end)
    ensures forall a :: 0 <= a < |ids| ==> ids[a] < |table|
    ensures forall a, b :: 0 <= a < b < |ids| ==> ids[a] < ids[b]
  {
    if table == [] then []
    else
      var n := |table| - 1;
      var front := Candidates(table[..n], w, start, end);
      if IsCandidate(table[n], w, start, end) then front + [n] else front
  }

  lemma CandidatesDistinct(table: seq<Shipment>, w: WarehouseId, start: Time, end: Time)
    ensures DistinctIds(Candidates(table, w, start, end))
  {
  }

  function EffectiveWeights(table: seq<Shipment>): seq<real> {
    seq(|table|, i requires 0 <= i < |table| => EffectiveWeight(table[i]))
  }

  /** The weight of listed shipments, as groups count it. */
  function WeightIn(weights: seq<real>): nat -> real {
    (i: nat) => if i < |weights| then weights[i] else 0.0
  }

  function TotalWeight(weights: seq<real>, ids: seq<nat>): real { RealSumOver(ids, WeightIn(weights)) }

  function Flatten(groups: seq<Group>): seq<nat> {
    if groups == [] then [] else Flatten(groups[..|groups| - 1]) + groups[|groups| - 1].members
  }

  ghost predicate DistinctIds(ids: seq<nat>) {
    forall i, j :: 0 <= i < j < |ids| ==> ids[i] != ids[j]
  }

  /** Group fields aside, the two tables hold the same shipments. */
  ghost predicate OnlyGrouped(before: seq<Shipment>, after: seq<Shipment>) {
    && |before| == |after|
    && forall i :: 0 <= i < |before| ==> after[i] == before[i].(group := after[i].group)
  }

  lemma WeightsKept(before: seq<Shipment>, after: seq<Shipment>)
    requires OnlyGrouped(before, after)
    ensures EffectiveWeights(before) == EffectiveWeights(after)
  {
  }

  /** A group within the limits. */
  ghost predicate Packed(weights: seq<real>, g: Group) {
    && 0 < |g.members| <= MAX_GROUP_SIZE
    && (|g.members| == 1 || g.weight <= MAX_GROUP_WEIGHT)
    && g.weight == TotalWeight(weights, g.members)
  }

  /** The shipments of a group point back to it. */
  ghost predicate PointsBack(table: seq<Shipment>, g: Group) {
    forall m :: m in g.members ==> m < |table| && table[m].group == Some(g.id)
  }

  /** The group was closed because it was full, or because the next shipment would overflow it. */
  ghost predicate ClosedForCause(weights: seq<real>, g: Group, next: nat) {
    |g.members| == MAX_GROUP_SIZE || g.weight + WeightIn(weights)(next) > MAX_GROUP_WEIGHT
  }

  ghost predicate Chain(weights: seq<real>, groups: seq<Group>, region: string, warehouse: WarehouseId, first: nat) {
    && (forall i :: 0 <= i < |groups| ==>
          && Packed(weights, groups[i]) && groups[i].id == first + i
          && groups[i].region == region && groups[i].warehouse == warehouse)
    && (forall i :: 0 <= i < |groups| - 1 ==> ClosedForCause(weights, groups[i], groups[i + 1].members[0]))
  }

  /** One more shipment put into the last group of the chain. */
  lemma ChainGrows(weights: seq<real>, done: seq<Group>, g: Group, m: nat, region: string, warehouse: WarehouseId,
                   first: nat)
    requires Chain(weights, done + [g], region, warehouse, first) && m < |weights|
    requires |g.members| < MAX_GROUP_SIZE && g.weight + weights[m] <= MAX_GROUP_WEIGHT
    ensures
      var g' := g.(members := g.members + [m], weight := g.weight + weights[m]);
      Chain(weights, done + [g'], region, warehouse, first)
  {
    RealSumSnoc(g.members, m, WeightIn(weights));
    var groups, g' := done + [g], g.(members := g.members + [m], weight := g.weight + weights[m]);
    var groups' := done + [g'];
    forall i | 0 <= i < |groups'| ensures Packed(weights, groups'[i]) && groups'[i].id == first + i
      && groups'[i].region == region && groups'[i].warehouse == warehouse
    {
      assert Packed(weights, groups[i]);
    }
    forall i | 0 <= i < |groups'| - 1 ensures ClosedForCause(weights, groups'[i], groups'[i + 1].members[0]) {
      assert ClosedForCause(weights, groups[i], groups[i + 1].members[0]);
    }
  }

  lemma WeightOfOne(weights: seq<real>, m: nat)
    ensures TotalWeight(weights, [m]) == WeightIn(weights)(m)
  {
    var none: seq<nat> := [];
    RealSumSnoc(none, m, WeightIn(weights));
    assert none + [m] == [m];
  }

  /** A new group opened with one shipment, for cause. */
  lemma ChainOpens(weights: seq<real>, groups: seq<Group>, g: Group, m: nat, region: string, warehouse: WarehouseId,
                   first: nat)
    requires Chain(weights, groups, region, warehouse, first) && m < |weights|
    requires g == Group(first + |groups|, warehouse, [m], weights[m], region, 0.0)
    requires groups != [] ==> ClosedForCause(weights, groups[|groups| - 1], m)
    ensures Chain(weights, groups + [g], region, warehouse, first)
  {
    WeightOfOne(weights, m);
    var groups' := groups + [g];
    forall i | 0 <= i < |groups'| - 1 ensures ClosedForCause(weights, groups'[i], groups'[i + 1].members[0]) {
      if i < |groups| - 1 {
        assert ClosedForCause(weights, groups[i], groups[i + 1].members[0]);
      }
    }
  }

  /** Each shipment already grouped points back to its group. */
  ghost predicate AllPointBack(table: seq<Shipment>, groups: seq<Group>) {
    forall i :: 0 <= i < |groups| ==> PointsBack(table, groups[i])
  }

  lemma {:induction false} MembersFlattened(groups: seq<Group>, i: nat)
    requires i < |groups|
    ensures forall m :: m in groups[i].members ==> m in Flatten(groups)
    decreases |groups|
  {
    if i < |groups| - 1 {
      MembersFlattened(groups[..|groups| - 1], i);
    }
  }

  /** Writing the group of a shipment not grouped yet disturbs none of the others. */
  lemma OthersPointBack(table: seq<Shipment>, groups: seq<Group>, m: nat, id: nat)
    requires AllPointBack(table, groups) && m < |table| && m !in Flatten(groups)
    ensures AllPointBack(table[m := table[m].(group := Some(id))], groups)
  {
    forall i | 0 <= i < |groups| ensures PointsBack(table[m := table[m].(group := Some(id))], groups[i]) {
      MembersFlattened(groups, i);
      assert PointsBack(table, groups[i]);
    }
  }

  lemma NextIsNew(ids: seq<nat>, i: nat)
    requires DistinctIds(ids) && i < |ids|
    ensures ids[i] !in ids[..i] && ids[..i + 1] == ids[..i] + [ids[i]]
  {
  }

  /** The closed groups and the open one, if any. */
  function Chained(closed: seq<Group>, current: Option<Group>): seq<Group> {
    if current.Some? then closed + [current.value] else closed
  }

  ghost predicate NoSavings(groups: seq<Group>) {
    forall i :: 0 <= i < |groups| ==> groups[i].savings == 0.0
  }

  /** The shipments of `done` have been put, in order, into the groups of `chain`; no other row has changed. */
  ghost predicate Progress(before: seq<Shipment>, now: seq<Shipment>, done: seq<nat>, chain: seq<Group>,
                           region: string, warehouse: WarehouseId, first: nat)
  {
    && OnlyGrouped(before, now)
    && (forall j: nat :: j < |now| && j !in done ==> now[j] == before[j])
    && Flatten(chain) == done
    && Chain(EffectiveWeights(before), chain, region, warehouse, first)
    && AllPointBack(now, chain)
  }

  /** The open group after it has taken shipment `m`. */
  lemma MemberAdded(table: seq<Shipment>, done: seq<Group>, g: Group, g': Group, m: nat)
    requires AllPointBack(table, done) && (g.members != [] ==> AllPointBack(table, done + [g]))
    requires m < |table| && table[m].group == Some(g.id)
    requires g' == g.(members := g.members + [m], weight := g'.weight)
    ensures AllPointBack(table, done + [g'])
    ensures Flatten(done + [g']) == Flatten(done) + g.members + [m]
    ensures Flatten(done + [g]) == Flatten(done) + g.members
  {
    assert (done + [g'])[..|done|] == done && (done + [g])[..|done|] == done;
    if g.members != [] {
      assert PointsBack(table, (done + [g])[|done|]);
    }
  }

  /** What the loop test decides: whether the open group may take shipment `m`. */
  lemma OpenGroupHolds(before: seq<Shipment>, now: seq<Shipment>, done: seq<nat>, closed: seq<Group>, g: Group, m: nat,
                       region: string, warehouse: WarehouseId, first: nat)
    requires Progress(before, now, done, closed + [g], region, warehouse, first) && m < |now|
    ensures g.members != []
    ensures |g.members| >= MAX_GROUP_SIZE || g.weight + EffectiveWeight(now[m]) > MAX_GROUP_WEIGHT ==>
              ClosedForCause(EffectiveWeights(before), g, m)
  {
    assert (closed + [g])[|closed|] == g;
    assert Packed(EffectiveWeights(before), (closed + [g])[|closed|]);
    WeightsKept(before, now);
    assert EffectiveWeights(now)[m] == EffectiveWeight(now[m]);
  }

  /** The open group `g`, just opened or old, takes shipment `m`. */
  lemma Takes(before: seq<Shipment>, now: seq<Shipment>, done: seq<nat>, chain: seq<Group>, closed: seq<Group>,
              g: Group, m: nat, region: string, warehouse: WarehouseId, first: nat)
    requires Progress(before, now, done, chain, region, warehouse, first)
    requires m < |now| && m !in done && NoSavings(chain)
    requires if g.members == []
             then chain == closed && g == Group(first + |closed|, warehouse, [], 0.0, region, 0.0)
                  && (closed != [] ==> ClosedForCause(EffectiveWeights(before), closed[|closed| - 1], m))
             else chain == closed + [g] && |g.members| < MAX_GROUP_SIZE
                  && g.weight + EffectiveWeight(now[m]) <= MAX_GROUP_WEIGHT
    ensures Progress(before, now[m := now[m].(group := Some(g.id))], done + [m],
                     closed + [g.(members := g.members + [m], weight := g.weight + EffectiveWeight(now[m]))],
                     region, warehouse, first)
    ensures NoSavings(closed + [g.(members := g.members + [m], weight := g.weight + EffectiveWeight(now[m]))])
  {
    hide Chain, AllPointBack, Flatten, ClosedForCause;
    var weights := EffectiveWeights(before);
    WeightsKept(before, now);
    assert weights[m] == EffectiveWeight(now[m]) by { assert EffectiveWeights(now)[m] == EffectiveWeight(now[m]); }
    var g' := g.(members := g.members + [m], weight := g.weight + weights[m]);
    OthersPointBack(now, chain, m, g.id);
    if g.members == [] {
      assert g' == Group(first + |closed|, warehouse, [m], weights[m], region, 0.0);
      ChainOpens(weights, closed, g', m, region, warehouse, first);
    } else {
      ChainGrows(weights, closed, g, m, region, warehouse, first);
      assert chain[|closed|] == g;
      assert forall i :: 0 <= i < |closed| ==> closed[i] == chain[i];
      FrontPointsBack(now[m := now[m].(group := Some(g.id))], closed, g);
    }
    MemberAdded(now[m := now[m].(group := Some(g.id))], closed, g, g', m);
  }

  lemma FrontPointsBack(table: seq<Shipment>, closed: seq<Group>, g: Group)
    requires AllPointBack(table, closed + [g])
    ensures AllPointBack(table, closed)
  {
    assert forall i :: 0 <= i < |closed| ==> (closed + [g])[i] == closed[i];
  }

  ghost predicate OnlyLastSaves(groups: seq<Group>) {
    forall i :: 0 <= i < |groups| ==>
      groups[i].savings == if i == |groups| - 1 then (|groups[i].members| * 5) as real else 0.0
  }

  function LastSavings(groups: seq<Group>): real {
    if groups == [] then 0.0 else groups[|groups| - 1].savings
  }

  lemma NothingPacked(table: seq<Shipment>, region: string, warehouse: WarehouseId, first: nat)
    ensures Progress(table, table, [], [], region, warehouse, first)
    ensures NoSavings([]) && OnlyLastSaves([]) && LastSavings([]) == 0.0
  {
  }

  /** Savings are booked on the region's last group only, when the loop over its shipments has ended. */
  lemma ChainSaves(before: seq<Shipment>, now: seq<Shipment>, done: seq<nat>, closed: seq<Group>, g: Group,
                   savings: real, region: string, warehouse: WarehouseId, first: nat)
    requires Progress(before, now, done, closed + [g], region, warehouse, first) && NoSavings(closed + [g])
    requires savings == (|g.members| * 5) as real
    ensures Progress(before, now, done, closed + [g.(savings := savings)], region, warehouse, first)
    ensures OnlyLastSaves(closed + [g.(savings := savings)])
    ensures LastSavings(closed + [g.(savings := savings)]) == savings
  {
    var weights := EffectiveWeights(before);
    var groups, groups' := closed + [g], closed + [g.(savings := savings)];
    assert groups[..|closed|] == closed && groups'[..|closed|] == closed;
    forall i | 0 <= i < |groups'|
      ensures Packed(weights, groups'[i]) && PointsBack(now, groups'[i])
      ensures groups'[i].id == first + i && groups'[i].region == region && groups'[i].warehouse == warehouse
      ensures i < |closed| ==> groups'[i].savings == 0.0
    {
      assert Packed(weights, groups[i]) && PointsBack(now, groups[i]) && groups[i].savings == 0.0;
    }
    forall i | 0 <= i < |groups'| - 1 ensures ClosedForCause(weights, groups'[i], groups'[i + 1].members[0]) {
      assert ClosedForCause(weights, groups[i], groups[i + 1].members[0]);
    }
  }

  // ----- the window: candidates split by region, each region packed on its own

  function RegionOf(table: seq<Shipment>, i: nat): string {
    if i < |table| then ExtractRegion(table[i].address) else ""
  }

  /** The regions met, in the order they are first met: the key order of the source's dictionary. */
  function Regions(table: seq<Shipment>, ids: seq<nat>): (regions: seq<string>)
    ensures forall i :: i in ids ==> RegionOf(table, i) in regions
    ensures forall a, b :: 0 <= a < b < |regions| ==> regions[a] != regions[b]
  {
    if ids == [] then []
    else
      var n := |ids| - 1;
      var front := Regions(table, ids[..n]);
      var region := RegionOf(table, ids[n]);
      if region in front then front else front + [region]
  }

  function InRegion(table: seq<Shipment>, ids: seq<nat>, region: string): (some: seq<nat>)
    ensures forall i :: i in some <==> i in ids && RegionOf(table, i) == region
  {
    if ids == [] then []
    else
      var n := |ids| - 1;
      var front := InRegion(table, ids[..n], region);
      if RegionOf(table, ids[n]) == region then front + [ids[n]] else front
  }

  lemma {:induction false} InRegionDistinct(table: seq<Shipment>, ids: seq<nat>, region: string)
    requires DistinctIds(ids)
    ensures DistinctIds(InRegion(table, ids, region))
    decreases |ids|
  {
    if ids != [] {
      InRegionDistinct(table, ids[..|ids| - 1], region);
    }
  }

  function SortWeights(table: seq<Shipment>): seq<real> {
    seq(|table|, i requires 0 <= i < |table| => SortWeight(table[i]))
  }

  function Lighter(weights: seq<real>): (nat, nat) -> bool {
    (i: nat, j: nat) => WeightIn(weights)(i) <= WeightIn(weights)(j)
  }

  /** A region's candidates, lightest first, in the order they are packed. */
  function PackingOrder(table: seq<Shipment>, ids: seq<nat>, region: string): seq<nat> {
    Sort(InRegion(table, ids, region), Lighter(SortWeights(table)))
  }

  lemma PackingOrderHolds(table: seq<Shipment>, ids: seq<nat>, region: string)
    requires DistinctIds(ids)
    ensures DistinctIds(PackingOrder(table, ids, region))
    ensures forall i :: i in PackingOrder(table, ids, region) <==> i in ids && RegionOf(table, i) == region
    ensures |PackingOrder(table, ids, region)| == |InRegion(table, ids, region)|
  {
    var some, leq := InRegion(table, ids, region), Lighter(SortWeights(table));
    InRegionDistinct(table, ids, region);
    SortMembers(some, leq);
    SortPermutes(some, leq);
    assert DistinctBy(some, (i: nat) => i);
    SortKeepsDistinct(some, leq, (i: nat) => i);
    var order, self := PackingOrder(table, ids, region), (i: nat) => i;
    forall i, j | 0 <= i < j < |order| ensures order[i] != order[j] {
      assert self(order[i]) != self(order[j]);
    }
  }

  /** Regrouping shipments does not change their packing order. */
  lemma OrderKept(before: seq<Shipment>, now: seq<Shipment>)
    requires OnlyGrouped(before, now)
    ensures SortWeights(now) == SortWeights(before) && |now| == |before|
  {
  }

  lemma NothingMet(table: seq<Shipment>)
    ensures Regions(table, []) == []
  {
  }

  lemma {:induction false} NoneInUnmetRegion(table: seq<Shipment>, ids: seq<nat>, region: string)
    requires region !in Regions(table, ids)
    ensures InRegion(table, ids, region) == []
    decreases |ids|
  {
    if ids != [] {
      NoneInUnmetRegion(table, ids[..|ids| - 1], region);
    }
  }

  lemma OneMoreMet(table: seq<Shipment>, ids: seq<nat>, i: nat)
    requires i < |ids| && ids[i] < |table|
    ensures
      var region, met := ExtractRegion(table[ids[i]].address), Regions(table, ids[..i]);
      && Regions(table, ids[..i + 1]) == (if region in met then met else met + [region])
      && InRegion(table, ids[..i + 1], region) == InRegion(table, ids[..i], region) + [ids[i]]
      && (region !in met ==> InRegion(table, ids[..i], region) == [])
    ensures forall other :: other != ExtractRegion(table[ids[i]].address) ==>
              InRegion(table, ids[..i + 1], other) == InRegion(table, ids[..i], other)
  {
    assert ids[..i + 1][..i] == ids[..i];
    var region := ExtractRegion(table[ids[i]].address);
    if region !in Regions(table, ids[..i]) {
      NoneInUnmetRegion(table, ids[..i], region);
    }
  }

  function Concat(parts: seq<seq<Group>>): seq<Group> {
    if parts == [] then [] else Concat(parts[..|parts| - 1]) + parts[|parts| - 1]
  }

  lemma ConcatSnoc(parts: seq<seq<Group>>, part: seq<Group>)
    ensures Concat(parts + [part]) == Concat(parts) + part
    ensures (parts + [part])[..|parts|] == parts
  {
  }

  /** One region's groups: they hold its shipments in packing order and were closed for cause. */
  ghost predicate RegionPacked(before: seq<Shipment>, now: seq<Shipment>, ids: seq<nat>, part: seq<Group>,
                               region: string, warehouse: WarehouseId, first: nat)
  {
    && Flatten(part) == PackingOrder(before, ids, region)
    && Chain(EffectiveWeights(before), part, region, warehouse, first)
    && AllPointBack(now, part)
    && OnlyLastSaves(part)
  }

  ghost predicate WindowPacked(before: seq<Shipment>, now: seq<Shipment>, ids: seq<nat>, regions: seq<string>,
                               parts: seq<seq<Group>>, warehouse: WarehouseId, first: nat)
  {
    && |parts| == |regions| && OnlyGrouped(before, now)
    && (forall j: nat :: j < |now| && (j !in ids || RegionOf(before, j) !in regions) ==> now[j] == before[j])
    && forall r :: 0 <= r < |parts| ==>
         RegionPacked(before, now, ids, parts[r], regions[r], warehouse, first + |Concat(parts[..r])|)
  }

  lemma NoRegionYet(before: seq<Shipment>, ids: seq<nat>, warehouse: WarehouseId, first: nat)
    ensures WindowPacked(before, before, ids, [], [], warehouse, first)
    ensures Concat([]) == []
  {
  }

  /** Packing one more region leaves the earlier regions' groups and back pointers as they were. */
  lemma WindowGrows(before: seq<Shipment>, mid: seq<Shipment>, now: seq<Shipment>, ids: seq<nat>, regions: seq<string>,
                    parts: seq<seq<Group>>, region: string, part: seq<Group>, warehouse: WarehouseId, first: nat)
    requires DistinctIds(ids) && region !in regions
    requires WindowPacked(before, mid, ids, regions, parts, warehouse, first)
    requires Progress(mid, now, PackingOrder(before, ids, region), part, region, warehouse, first + |Concat(parts)|)
    requires OnlyLastSaves(part)
    ensures WindowPacked(before, now, ids, regions + [region], parts + [part], warehouse, first)
    ensures Concat(parts + [part]) == Concat(parts) + part
  {
    hide Chain, OnlyLastSaves, Flatten, PackingOrder, EffectiveWeights, RegionOf, AllPointBack, RegionPacked,
         DistinctIds, Concat, OnlyGrouped;
    var regions', parts' := regions + [region], parts + [part];
    ConcatSnoc(parts, part);
    SameLength(before, mid);
    SameLength(mid, now);
    RestUntouched(before, mid, now, ids, regions, region);
    forall r | 0 <= r < |parts'|
      ensures RegionPacked(before, now, ids, parts'[r], regions'[r], warehouse, first + |Concat(parts'[..r])|)
    {
      if r < |parts| {
        assert parts'[..r] == parts[..r];
        EarlierRegionKept(before, mid, now, ids, parts[r], regions[r], region, warehouse, first + |Concat(parts[..r])|);
      } else {
        RegionDone(before, mid, now, ids, part, region, warehouse, first + |Concat(parts)|);
      }
    }
  }

  lemma SameLength(before: seq<Shipment>, now: seq<Shipment>)
    requires OnlyGrouped(before, now)
    ensures |before| == |now|
  {
  }

  lemma RestUntouched(before: seq<Shipment>, mid: seq<Shipment>, now: seq<Shipment>, ids: seq<nat>,
                      regions: seq<string>, region: string)
    requires DistinctIds(ids) && OnlyGrouped(before, mid) && OnlyGrouped(mid, now)
    requires forall j: nat :: j < |mid| && (j !in ids || RegionOf(before, j) !in regions) ==> mid[j] == before[j]
    requires forall j: nat :: j < |now| && j !in PackingOrder(before, ids, region) ==> now[j] == mid[j]
    ensures OnlyGrouped(before, now)
    ensures forall j: nat :: j < |now| && (j !in ids || RegionOf(before, j) !in regions + [region]) ==>
            now[j] == before[j]
  {
    hide RegionOf, PackingOrder;
    PackingOrderHolds(before, ids, region);
  }

  lemma EarlierRegionKept(before: seq<Shipment>, mid: seq<Shipment>, now: seq<Shipment>, ids: seq<nat>,
                          part: seq<Group>, mine: string, region: string, warehouse: WarehouseId, first: nat)
    requires DistinctIds(ids) && mine != region && |mid| == |now|
    requires RegionPacked(before, mid, ids, part, mine, warehouse, first)
    requires forall j: nat :: j < |now| && j !in PackingOrder(before, ids, region) ==> now[j] == mid[j]
    ensures RegionPacked(before, now, ids, part, mine, warehouse, first)
  {
    hide RegionOf, PackingOrder, Chain, Flatten, OnlyLastSaves, AllPointBack;
    PackingOrderHolds(before, ids, mine);
    PackingOrderHolds(before, ids, region);
    OthersKept(mid, now, part, PackingOrder(before, ids, region));
  }

  lemma RegionDone(before: seq<Shipment>, mid: seq<Shipment>, now: seq<Shipment>, ids: seq<nat>, part: seq<Group>,
                   region: string, warehouse: WarehouseId, first: nat)
    requires OnlyGrouped(before, mid) && OnlyLastSaves(part)
    requires Progress(mid, now, PackingOrder(before, ids, region), part, region, warehouse, first)
    ensures RegionPacked(before, now, ids, part, region, warehouse, first)
  {
    hide Chain, Flatten, OnlyLastSaves, AllPointBack, PackingOrder, EffectiveWeights;
    WeightsKept(before, mid);
  }

  /** Groups whose members lie outside the rows written keep their back pointers. */
  lemma OthersKept(mid: seq<Shipment>, now: seq<Shipment>, part: seq<Group>, written: seq<nat>)
    requires AllPointBack(mid, part) && |mid| == |now|
    requires forall j: nat :: j < |now| && j !in written ==> now[j] == mid[j]
    requires forall m :: m in Flatten(part) ==> m !in written
    ensures AllPointBack(now, part)
  {
    forall i | 0 <= i < |part| ensures PointsBack(now, part[i]) {
      MembersFlattened(part, i);
      assert PointsBack(mid, part[i]);
    }
  }

  /** The candidates of the listed regions, region by region. */
  function Gather(table: seq<Shipment>, ids: seq<nat>, regions: seq<string>): seq<nat> {
    if regions == [] then []
    else Gather(table, ids, regions[..|regions| - 1]) + InRegion(table, ids, regions[|regions| - 1])
  }

  lemma {:induction false} InRegionCounts(table: seq<Shipment>, ids: seq<nat>, region: string, i: nat)
    ensures multiset(InRegion(table, ids, region))[i] == if RegionOf(table, i) == region then multiset(ids)[i] else 0
    decreases |ids|
  {
    if ids != [] {
      var n := |ids| - 1;
      assert ids == ids[..n] + [ids[n]];
      InRegionCounts(table, ids[..n], region, i);
    }
  }

  lemma {:induction false} GatherCounts(table: seq<Shipment>, ids: seq<nat>, regions: seq<string>, i: nat)
    requires forall a, b :: 0 <= a < b < |regions| ==> regions[a] != regions[b]
    ensures multiset(Gather(table, ids, regions))[i] == if RegionOf(table, i) in regions then multiset(ids)[i] else 0
    decreases |regions|
  {
    if regions != [] {
      var n := |regions| - 1;
      assert regions == regions[..n] + [regions[n]];
      GatherCounts(table, ids, regions[..n], i);
      InRegionCounts(table, ids, regions[n], i);
    }
  }

  /** The regions partition the candidates. */
  lemma RegionsPartition(table: seq<Shipment>, ids: seq<nat>)
    ensures multiset(Gather(table, ids, Regions(table, ids))) == multiset(ids)
    ensures |Gather(table, ids, Regions(table, ids))| == |ids|
  {
    var all := Gather(table, ids, Regions(table, ids));
    var gathered, given := multiset(all), multiset(ids);
    forall i: nat ensures gathered[i] == given[i] {
      GatherCounts(table, ids, Regions(table, ids), i);
      if given[i] > 0 {
        assert i in ids;
      }
    }
    assert |gathered| == |all| && |given| == |ids|;
  }

  lemma NextRegion(table: seq<Shipment>, ids: seq<nat>, order: seq<string>, r: nat)
    requires r < |order| && forall a, b :: 0 <= a < b < |order| ==> order[a] != order[b]
    ensures order[..r + 1] == order[..r] + [order[r]] && order[r] !in order[..r]
    ensures Gather(table, ids, order[..r + 1]) == Gather(table, ids, order[..r]) + InRegion(table, ids, order[r])
  {
    assert order[..r + 1][..r] == order[..r];
  }

  lemma NothingGathered(table: seq<Shipment>, ids: seq<nat>)
    ensures Gather(table, ids, []) == []
    ensures RealSumOver([], SavingsOfLast) == 0.0
  {
  }

  function SavingsOfLast(part: seq<Group>): real { LastSavings(part) }

  class ConsolidationEngine {
    var table: seq<Shipment>
    /** The next fresh group id. */
    var nextGroup: nat

    constructor (table: seq<Shipment>)
      ensures this.table == table && nextGroup == 0
    {
      this.table, this.nextGroup := table, 0;
    }

    /** Packs one region's shipments, in the order given. */
    method PackRegion(warehouse: WarehouseId, region: string, ids: seq<nat>) returns (groups: seq<Group>, savings: real)
      requires DistinctIds(ids) && forall a :: 0 <= a < |ids| ==> ids[a] < |table|
      modifies this
      ensures Progress(old(table), table, ids, groups, region, warehouse, old(nextGroup))
      ensures nextGroup == old(nextGroup) + |groups|
      ensures OnlyLastSaves(groups) && savings == LastSavings(groups)
    {
      hide Progress, EffectiveWeight, EffectiveWeights, LastSavings, OnlyLastSaves, ClosedForCause, NoSavings,
           OnlyGrouped, DistinctIds;
      groups := [];
      var current: Option<Group> := None;
      NothingPacked(table, region, warehouse, nextGroup);
      for i := 0 to |ids|
        invariant Progress(old(table), table, ids[..i], Chained(groups, current), region, warehouse, old(nextGroup))
        invariant NoSavings(Chained(groups, current))
        invariant |table| == |old(table)|
        invariant nextGroup == old(nextGroup) + |Chained(groups, current)|
        invariant current.None? ==> groups == []
      {
        var m := ids[i];
        var weight := EffectiveWeight(table[m]);
        NextIsNew(ids, i);
        ghost var chain := Chained(groups, current);
        if current.Some? {
          OpenGroupHolds(old(table), table, ids[..i], groups, current.value, m, region, warehouse, old(nextGroup));
        }
        if
          || current.None?
          || |current.value.members| >= MAX_GROUP_SIZE
          || current.value.weight + weight > MAX_GROUP_WEIGHT
        {
          if current.Some? {
            groups := groups + [current.value];
          }
          current := Some(Group(nextGroup, warehouse, [], 0.0, region, 0.0));
          nextGroup := nextGroup + 1;
        }
        var g := current.value;
        Takes(old(table), table, ids[..i], chain, groups, g, m, region, warehouse, old(nextGroup));
        current := Some(g.(members := g.members + [m], weight := g.weight + weight));
        table := table[m := table[m].(group := Some(g.id))];
      }
      assert ids[..|ids|] == ids;
      savings := 0.0;
      if current.Some? {
        savings := (|current.value.members| * 5) as real;
        ChainSaves(old(table), table, ids, groups, current.value, savings, region, warehouse, old(nextGroup));
        groups := groups + [current.value.(savings := savings)];
      }
    }

    /** The source's dictionary of regions, as its key order and its buckets. */
    method GroupByRegion(ids: seq<nat>) returns (order: seq<string>, buckets: map<string, seq<nat>>)
      requires forall a :: 0 <= a < |ids| ==> ids[a] < |table|
      ensures order == Regions(table, ids)
      ensures forall region :: region in order ==> region in buckets && buckets[region] == InRegion(table, ids, region)
    {
      hide Regions, InRegion;
      order, buckets := [], map[];
      NothingMet(table);
      for i := 0 to |ids|
        invariant order == Regions(table, ids[..i])
        invariant forall region :: region in buckets <==> region in order
        invariant forall region :: region in buckets ==> buckets[region] == InRegion(table, ids[..i], region)
      {
        var region := ExtractRegion(table[ids[i]].address);
        OneMoreMet(table, ids, i);
        if region !in buckets {
          buckets, order := buckets[region := []], order + [region];
        }
        buckets := buckets[region := buckets[region] + [ids[i]]];
      }
      assert ids[..|ids|] == ids;
    }

    /** Consolidates the planned, ungrouped shipments picked up in the window. */
    method ConsolidateWindow(warehouse: WarehouseId, start: Time, end: Time)
        returns (result: ConsolidationResult, ghost parts: seq<seq<Group>>)
      modifies this
      ensures WindowPacked(old(table), table, Candidates(old(table), warehouse, start, end),
                           Regions(old(table), Candidates(old(table), warehouse, start, end)),
                           parts, warehouse, old(nextGroup))
      ensures result.groups == Concat(parts) && nextGroup == old(nextGroup) + |result.groups|
      ensures result.consolidated == |Candidates(old(table), warehouse, start, end)|
      ensures result.totalSavings == RealSumOver(parts, SavingsOfLast)
    {
      hide WindowPacked, Progress, OnlyLastSaves, LastSavings, PackingOrder, Regions, Candidates, InRegion,
           Gather, Concat, DistinctIds, Sort, SortWeights, Lighter, RealSumOver;
      var ids := Candidates(table, warehouse, start, end);
      var order, buckets := GroupByRegion(ids);
      var groups, consolidated, totalSavings := [], 0, 0.0;
      parts := [];
      NoRegionYet(table, ids, warehouse, nextGroup);
      NothingGathered(table, ids);
      CandidatesDistinct(table, warehouse, start, end);
      for r := 0 to |order|
        invariant |parts| == r
        invariant WindowPacked(old(table), table, ids, order[..r], parts, warehouse, old(nextGroup))
        invariant groups == Concat(parts) && nextGroup == old(nextGroup) + |groups|
        invariant consolidated == |Gather(old(table), ids, order[..r])|
        invariant totalSavings == RealSumOver(parts, SavingsOfLast)
      {
        var region := order[r];
        TableKept(old(table), table, ids, order[..r], parts, region, warehouse, old(nextGroup));
        var sorted := Sort(buckets[region], Lighter(SortWeights(table)));
        NextRegion(old(table), ids, order, r);
        ghost var mid := table;
        var part, savings := PackRegion(warehouse, region, sorted);
        WindowGrows(old(table), mid, table, ids, order[..r], parts, region, part, warehouse, old(nextGroup));
        RealSumSnoc(parts, part, SavingsOfLast);
        groups, parts := groups + part, parts + [part];
        consolidated, totalSavings := consolidated + |sorted|, totalSavings + savings;
      }
      assert order[..|order|] == order;
      RegionsPartition(old(table), ids);
      result := ConsolidationResult(groups, consolidated, totalSavings);
    }
  }

  /** What the next region's packing starts from. */
  lemma TableKept(before: seq<Shipment>, now: seq<Shipment>, ids: seq<nat>, regions: seq<string>,
                  parts: seq<seq<Group>>, region: string, warehouse: WarehouseId, first: nat)
    requires WindowPacked(before, now, ids, regions, parts, warehouse, first)
    requires DistinctIds(ids) && forall i :: i in ids ==> i < |before|
    ensures Sort(InRegion(before, ids, region), Lighter(SortWeights(now))) == PackingOrder(before, ids, region)
    ensures DistinctIds(PackingOrder(before, ids, region))
    ensures forall a :: 0 <= a < |PackingOrder(before, ids, region)| ==> PackingOrder(before, ids, region)[a] < |now|
    ensures |PackingOrder(before, ids, region)| == |InRegion(before, ids, region)|
  {
    hide RegionPacked, DistinctIds, RegionOf, InRegion, Sort, Concat, Lighter, SortWeights, OnlyGrouped;
    OrderKept(before, now);
    PackingOrderHolds(before, ids, region);
    var order := PackingOrder(before, ids, region);
    forall a | 0 <= a < |order| ensures order[a] < |now| {
      assert order[a] in order;
    }
  }
}
