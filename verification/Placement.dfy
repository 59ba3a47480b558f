/** Network placement: moving surplus stock to warehouses below their reorder point. */
module Placement {
  import opened Sums
  import opened Tables
  import opened Visibility

  datatype Policy = Policy(reorderPoint: int, safetyStock: int)

  /** Policies of one SKU by warehouse. */
  type Policies = map<WarehouseId, Policy>

  datatype Stock = Stock(warehouse: WarehouseId, quantity: int)

  datatype Recommendation = Recommendation(source: WarehouseId, target: WarehouseId, quantity: int, savings: real)

  datatype PlacementPlan = PlacementPlan(recommendations: seq<Recommendation>, unitsMoved: int, totalSavings: real,
                                         priority: int)

  const TRANSFER_COST_PER_UNIT := 0.5
  const STOCKOUT_PENALTY := 25.0

  function PolicyAt(policies: Policies, w: WarehouseId): Policy {
    if w in policies then policies[w] else Policy(50, 25)
  }

  predicate IsDonor(policies: Policies, line: VisibleStock) {
    var p := PolicyAt(policies, line.warehouse);
    line.available > p.reorderPoint + p.safetyStock * 2
  }

  predicate IsReceiver(policies: Policies, line: VisibleStock) {
    !IsDonor(policies, line) && line.available < PolicyAt(policies, line.warehouse).reorderPoint
  }

  /** Units a donor may give without falling below its reorder point plus safety stock. */
  function Spare(policies: Policies, line: VisibleStock): int {
    line.available - PolicyAt(policies, line.warehouse).reorderPoint - PolicyAt(policies, line.warehouse).safetyStock
  }

  function Missing(policies: Policies, line: VisibleStock): int {
    PolicyAt(policies, line.warehouse).reorderPoint - line.available
  }

  /** What a line offers to the plan, if anything. */
  function DonorAmount(policies: Policies): VisibleStock -> Option<int> {
    (line: VisibleStock) => if IsDonor(policies, line) then Some(Spare(policies, line)) else None
  }

  function ReceiverAmount(policies: Policies): VisibleStock -> Option<int> {
    (line: VisibleStock) => if IsReceiver(policies, line) then Some(Missing(policies, line)) else None
  }

  /** An amount as a number of units: negative spare counts as none. */
  function Units(amount: VisibleStock -> Option<int>): VisibleStock -> int {
    (line: VisibleStock) => if amount(line).Some? then Max(0, amount(line).value) else 0
  }

  function Positive(): Stock -> int { (s: Stock) => Max(0, s.quantity) }

  function IsPositive(): Stock -> int { (s: Stock) => if 0 < s.quantity then 1 else 0 }

  function Moved(): Recommendation -> int { (r: Recommendation) => r.quantity }

  function SentFrom(w: WarehouseId): Recommendation -> int {
    (r: Recommendation) => if r.source == w then r.quantity else 0
  }

  function SentTo(w: WarehouseId): Recommendation -> int {
    (r: Recommendation) => if r.target == w then r.quantity else 0
  }

  ghost predicate DistinctStock(s: seq<Stock>) {
    forall i, j :: 0 <= i < j < |s| ==> s[i].warehouse != s[j].warehouse
  }

  /** The rebinding `[(w, q - t if w == source else q) ...]`. */
  function Deduct(s: seq<Stock>, source: WarehouseId, t: int): seq<Stock> {
    seq(|s|, i requires 0 <= i < |s| => if s[i].warehouse == source then s[i].(quantity := s[i].quantity - t) else s[i])
  }

  lemma DeductIsUpdate(s: seq<Stock>, j: nat, t: int)
    requires DistinctStock(s) && j < |s|
    ensures Deduct(s, s[j].warehouse, t) == s[j := s[j].(quantity := s[j].quantity - t)]
  {
    forall i | 0 <= i < |s|
      ensures Deduct(s, s[j].warehouse, t)[i] == s[j := s[j].(quantity := s[j].quantity - t)][i]
    {
      if i < j {
        assert s[i].warehouse != s[j].warehouse;
      } else if j < i {
        assert s[j].warehouse != s[i].warehouse;
      }
    }
  }

  /** What holds of the recommendations made from the lists `donors` and `needs` while `left` is still to give. */
  ghost predicate Consistent(donors: seq<Stock>, left: seq<Stock>, recs: seq<Recommendation>, units: int,
                             savings: real) {
    && |left| == |donors|
    && (forall i :: 0 <= i < |donors| ==>
          && left[i].warehouse == donors[i].warehouse
          && left[i].quantity == donors[i].quantity - SumOver(recs, SentFrom(donors[i].warehouse))
          && Min(0, donors[i].quantity) <= left[i].quantity)
    && (forall i :: 0 <= i < |recs| ==>
          && 0 < recs[i].quantity
          && recs[i].savings == STOCKOUT_PENALTY - TRANSFER_COST_PER_UNIT * (recs[i].quantity as real))
    && units == SumOver(recs, Moved())
    && savings == STOCKOUT_PENALTY * (|recs| as real) - TRANSFER_COST_PER_UNIT * (units as real)
    && units + SumOver(left, Positive()) == SumOver(donors, Positive())
    && (forall i :: 0 <= i < |recs| ==>
        exists j :: 0 <= j < |donors| && donors[j].warehouse == recs[i].source && 0 < donors[j].quantity)
  }

  /** One more recommendation, for at most what the donor still has. */
  lemma OneMore(donors: seq<Stock>, left: seq<Stock>, recs: seq<Recommendation>, units: int, savings: real,
                j: nat, target: WarehouseId, t: int)
    requires DistinctStock(donors) && Consistent(donors, left, recs, units, savings)
    requires j < |donors| && 0 < t <= left[j].quantity
    ensures
      var r := Recommendation(left[j].warehouse, target, t, STOCKOUT_PENALTY - TRANSFER_COST_PER_UNIT * (t as real));
      var left' := left[j := left[j].(quantity := left[j].quantity - t)];
      && Consistent(donors, left', recs + [r], units + t, savings + r.savings)
      && SumOver(left', IsPositive()) == SumOver(left, IsPositive()) - (if t == left[j].quantity then 1 else 0)
      && (forall w :: SumOver(recs + [r], SentTo(w)) == SumOver(recs, SentTo(w)) + (if w == target then t else 0))
  {
    var r := Recommendation(left[j].warehouse, target, t, STOCKOUT_PENALTY - TRANSFER_COST_PER_UNIT * (t as real));
    var row := left[j].(quantity := left[j].quantity - t);
    SumUpdate(left, j, row, Positive());
    SumUpdate(left, j, row, IsPositive());
    SumSnoc(recs, r, Moved());
    forall w ensures SumOver(recs + [r], SentTo(w)) == SumOver(recs, SentTo(w)) + (if w == target then t else 0) {
      SumSnoc(recs, r, SentTo(w));
    }
    forall w
      ensures SumOver(recs + [r], SentFrom(w)) == SumOver(recs, SentFrom(w)) + (if w == left[j].warehouse then t else 0)
    {
      SumSnoc(recs, r, SentFrom(w));
    }
    assert 0 <= SumOver(recs, SentFrom(donors[j].warehouse)) by {
      forall x | x in recs ensures 0 <= SentFrom(donors[j].warehouse)(x) {
        var i :| 0 <= i < |recs| && recs[i] == x;
      }
      SumNonNegative(recs, SentFrom(donors[j].warehouse));
    }
    assert donors[j].warehouse == r.source && 0 < donors[j].quantity;
  }

  /** Units given to each of the first `n` needs. */
  ghost predicate Filled(needs: seq<Stock>, n: nat, recs: seq<Recommendation>) {
    && n <= |needs|
    && (forall i :: 0 <= i < n ==> SumOver(recs, SentTo(needs[i].warehouse)) <= needs[i].quantity)
    && (forall w :: (forall i :: 0 <= i < n ==> needs[i].warehouse != w) ==> SumOver(recs, SentTo(w)) == 0)
  }

  /** The inner loop: one need filled from the donors in order. It walks the list it started with, while the
      list it rebinds carries the new quantities. */
  method FillNeed(ghost donors: seq<Stock>, surplus: seq<Stock>, need: Stock, recs: seq<Recommendation>,
                  units: int, savings: real)
    returns (left: seq<Stock>, recs': seq<Recommendation>, units': int, savings': real, ghost missing: int)
    requires DistinctStock(donors) && Consistent(donors, surplus, recs, units, savings)
    requires 0 < need.quantity
    ensures Consistent(donors, left, recs', units', savings')
    ensures 0 <= missing <= need.quantity && units' == units + need.quantity - missing
    ensures forall w :: SumOver(recs', SentTo(w))
              == SumOver(recs, SentTo(w)) + (if w == need.warehouse then need.quantity - missing else 0)
    ensures 0 < missing ==> SumOver(left, Positive()) == 0
    ensures recs <= recs' && forall i :: |recs| <= i < |recs'| ==> recs'[i].target == need.warehouse
    ensures |recs'| - |recs| + SumOver(left, IsPositive()) + (if 0 < missing then 1 else 0)
              <= SumOver(surplus, IsPositive()) + 1
    ensures |recs'| - |recs| <= SumOver(surplus, IsPositive())
  {
    hide SumOver;
    var wanted := need.quantity;
    left, recs', units', savings' := surplus, recs, units, savings;
    assert 0 <= SumOver(surplus, IsPositive()) by { SumNonNegative(surplus, IsPositive()); }
    for j := 0 to |surplus|
      invariant Consistent(donors, left, recs', units', savings')
      invariant 0 <= wanted <= need.quantity && units' == units + need.quantity - wanted
      invariant forall w :: SumOver(recs', SentTo(w))
                  == SumOver(recs, SentTo(w)) + (if w == need.warehouse then need.quantity - wanted else 0)
      invariant |left| == |surplus| && forall i :: j <= i < |surplus| ==> left[i] == surplus[i]
      invariant 0 < wanted ==> forall i :: 0 <= i < j ==> left[i].quantity <= 0
      invariant recs <= recs' && forall i :: |recs| <= i < |recs'| ==> recs'[i].target == need.warehouse
      invariant |recs'| - |recs| + SumOver(left, IsPositive()) + (if 0 < wanted then 1 else 0)
                  <= SumOver(surplus, IsPositive()) + 1
      invariant |recs'| - |recs| <= SumOver(surplus, IsPositive())
    {
      var quantity := Min(wanted, surplus[j].quantity);
      if 0 < surplus[j].quantity && 0 < quantity {
        OneMore(donors, left, recs', units', savings', j, need.warehouse, quantity);
        SumNonNegative(left, IsPositive());
        SumCoversElement(left, j, IsPositive());
        assert DistinctStock(left) by { SameWarehouses(donors, left); }
        DeductIsUpdate(left, j, quantity);
        var gain := STOCKOUT_PENALTY - TRANSFER_COST_PER_UNIT * (quantity as real);
        recs' := recs' + [Recommendation(surplus[j].warehouse, need.warehouse, quantity, gain)];
        units' := units' + quantity;
        savings' := savings' + gain;
        wanted := wanted - quantity;
        left := Deduct(left, surplus[j].warehouse, quantity);
      }
    }
    missing := wanted;
    if 0 < wanted {
      SumZero(left, Positive());
    }
  }

  lemma SameWarehouses(donors: seq<Stock>, left: seq<Stock>)
    requires DistinctStock(donors) && |left| == |donors|
    requires forall i :: 0 <= i < |donors| ==> left[i].warehouse == donors[i].warehouse
    ensures DistinctStock(left)
  {
  }

  /** The outer loop: every need in turn. Exactly the smaller of the two totals moves, and at most one
      recommendation fewer than there are donors and needs. */
  method Rebalance(donors: seq<Stock>, needs: seq<Stock>)
    returns (recs: seq<Recommendation>, units: int, savings: real)
    requires DistinctStock(donors) && DistinctStock(needs)
    requires forall i :: 0 <= i < |needs| ==> 0 < needs[i].quantity
    ensures units == SumOver(recs, Moved()) == Min(SumOver(donors, Positive()), SumOver(needs, Positive()))
    ensures forall i :: 0 <= i < |recs| ==> 0 < recs[i].quantity
    ensures forall i :: 0 <= i < |donors| ==> SumOver(recs, SentFrom(donors[i].warehouse)) <= Max(0, donors[i].quantity)
    ensures forall i :: 0 <= i < |needs| ==> SumOver(recs, SentTo(needs[i].warehouse)) <= needs[i].quantity
    ensures forall i :: 0 <= i < |recs| ==> Gives(donors, recs[i].source) && Gives(needs, recs[i].target)
    ensures recs != [] ==> |recs| <= |donors| + |needs| - 1
    ensures savings == 25.0 * (|recs| as real) - 0.5 * (units as real)
    ensures forall i :: 0 <= i < |recs| ==> recs[i].savings == 25.0 - 0.5 * (recs[i].quantity as real)
  {
    hide SumOver;
    var left := donors;
    recs, units, savings := [], 0, 0.0;
    ghost var missed := 0;
    StartsConsistent(donors);
    for n := 0 to |needs|
      invariant Consistent(donors, left, recs, units, savings)
      invariant Filled(needs, n, recs)
      invariant 0 <= missed && units + missed == SumOver(needs[..n], Positive())
      invariant 0 < missed ==> SumOver(left, Positive()) == 0
      invariant forall i :: 0 <= i < |recs| ==> Gives(needs, recs[i].target)
      invariant |recs| + SumOver(left, IsPositive()) + (|needs| - n) <= SumOver(donors, IsPositive()) + |needs|
      invariant recs != [] ==> |recs| + 1 <= SumOver(donors, IsPositive()) + |needs|
    {
      ghost var before, surplus, was := recs, left, (units, savings);
      ghost var missing;
      left, recs, units, savings, missing := FillNeed(donors, left, needs[n], recs, units, savings);
      SumPrefix(needs, n, Positive());
      NothingLeft(donors, surplus, left, before, was.0, was.1, recs, units, savings);
      missed := missed + missing;
    }
    assert needs[..|needs|] == needs;
    SumNonNegative(left, Positive());
    PositivesCounted(donors);
    forall i | 0 <= i < |donors|
      ensures SumOver(recs, SentFrom(donors[i].warehouse)) <= Max(0, donors[i].quantity)
    {
      assert left[i].quantity == donors[i].quantity - SumOver(recs, SentFrom(donors[i].warehouse));
    }
  }

  ghost predicate Gives(s: seq<Stock>, w: WarehouseId) {
    exists i :: 0 <= i < |s| && s[i].warehouse == w && 0 < s[i].quantity
  }

  lemma StartsConsistent(donors: seq<Stock>)
    ensures Consistent(donors, donors, [], 0, 0.0)
    ensures forall w :: SumOver([], SentTo(w)) == 0
    ensures SumOver([], Positive()) == 0
  {
  }

  lemma {:induction false} PositivesCounted(s: seq<Stock>)
    ensures SumOver(s, IsPositive()) <= |s|
    decreases |s|
  {
    if s != [] {
      PositivesCounted(s[..|s| - 1]);
    }
  }

  /** Once the donors are exhausted they stay exhausted. */
  lemma NothingLeft(donors: seq<Stock>, left: seq<Stock>, left': seq<Stock>, recs: seq<Recommendation>, units: int,
                    savings: real, recs': seq<Recommendation>, units': int, savings': real)
    requires Consistent(donors, left, recs, units, savings) && Consistent(donors, left', recs', units', savings')
    requires units <= units'
    ensures 0 <= SumOver(left', Positive()) <= SumOver(left, Positive())
  {
    SumNonNegative(left', Positive());
  }

  // ----- the whole analysis

  /** The lines that have an amount, in order. */
  function Listed(v: seq<VisibleStock>, amount: VisibleStock -> Option<int>): seq<Stock> {
    if v == [] then []
    else
      var line := v[|v| - 1];
      if amount(line).Some? then Listed(v[..|v| - 1], amount) + [Stock(line.warehouse, amount(line).value)]
      else Listed(v[..|v| - 1], amount)
  }

  function DonorsOf(policies: Policies, v: seq<VisibleStock>): seq<Stock> { Listed(v, DonorAmount(policies)) }

  function NeedsOf(policies: Policies, v: seq<VisibleStock>): seq<Stock> { Listed(v, ReceiverAmount(policies)) }

  /** The entry is the amount of line `n`. */
  ghost predicate EntryOf(v: seq<VisibleStock>, amount: VisibleStock -> Option<int>, entry: Stock, n: nat) {
    n < |v| && amount(v[n]) == Some(entry.quantity) && v[n].warehouse == entry.warehouse
  }

  ghost predicate FromLine(v: seq<VisibleStock>, amount: VisibleStock -> Option<int>, entry: Stock) {
    exists n :: EntryOf(v, amount, entry, n)
  }

  /** Each listed entry comes from one line, no warehouse is listed twice, and the units add up. */
  lemma {:induction false} ListedFaithfully(v: seq<VisibleStock>, amount: VisibleStock -> Option<int>)
    requires DistinctLines(v)
    ensures
      var s := Listed(v, amount);
      && DistinctStock(s)
      && SumOver(s, Positive()) == SumOver(v, Units(amount))
      && (forall i :: 0 <= i < |s| ==> FromLine(v, amount, s[i]))
    decreases |v|
  {
    if v != [] {
      var m := |v| - 1;
      var front, s := Listed(v[..m], amount), Listed(v, amount);
      ListedFaithfully(v[..m], amount);
      forall i | 0 <= i < |front| ensures front[i].warehouse != v[m].warehouse {
        assert FromLine(v[..m], amount, front[i]);
        var n: nat :| EntryOf(v[..m], amount, front[i], n);
        assert v[n].warehouse != v[m].warehouse;
      }
      forall i | 0 <= i < |s| ensures FromLine(v, amount, s[i]) {
        if i < |front| {
          assert FromLine(v[..m], amount, front[i]);
          var n: nat :| EntryOf(v[..m], amount, front[i], n);
          assert EntryOf(v, amount, s[i], n);
        } else {
          assert EntryOf(v, amount, s[i], m);
        }
      }
      if amount(v[m]).Some? {
        SumSnoc(front, Stock(v[m].warehouse, amount(v[m]).value), Positive());
      }
    }
  }

  lemma {:induction false} ListsAreDisjoint(policies: Policies, v: seq<VisibleStock>)
    ensures |DonorsOf(policies, v)| + |NeedsOf(policies, v)| <= |v|
    decreases |v|
  {
    if v != [] {
      ListsAreDisjoint(policies, v[..|v| - 1]);
    }
  }

  /** With fewer than two lines there is nobody to move stock between. */
  lemma TooFewLines(policies: Policies, v: seq<VisibleStock>)
    requires |v| < 2
    ensures Min(SumOver(v, Units(DonorAmount(policies))), SumOver(v, Units(ReceiverAmount(policies)))) == 0
  {
    if |v| == 1 {
      assert v[..0] == [];
    }
  }

  method AnalyzeNetwork(balances: seq<Balance>, policies: Policies, sku: SkuId) returns (plan: PlacementPlan)
    ensures
      var v := NetworkVisibility(balances, sku);
      var recs := plan.recommendations;
      && plan.unitsMoved == SumOver(recs, Moved())
         == Min(SumOver(v, Units(DonorAmount(policies))), SumOver(v, Units(ReceiverAmount(policies))))
      && plan.totalSavings == 25.0 * (|recs| as real) - 0.5 * (plan.unitsMoved as real)
      && (forall i :: 0 <= i < |recs| ==> recs[i].savings == 25.0 - 0.5 * (recs[i].quantity as real))
      && plan.priority == (if 100 < plan.unitsMoved then 2 else if 0 < plan.unitsMoved then 4 else 5)
      && (forall i :: 0 <= i < |recs| ==> 0 < recs[i].quantity)
      && (forall w :: WarehouseKept(balances, policies, sku, recs, w))
      && NothingMoreToMove(balances, policies, sku, recs)
      && (recs != [] ==> |recs| <= |DonorsOf(policies, v)| + |NeedsOf(policies, v)| - 1 <= |v| - 1)
  {
    hide SumOver, NetworkVisibility;
    var v := NetworkVisibility(balances, sku);
    VisibilityLists(balances, sku);
    if |v| < 2 {
      TooFewLines(policies, v);
      forall n | 0 <= n < |v| {
        NobodyMoves(policies, v[n]);
      }
      EmptySum();
      SettledOnTables(balances, policies, sku, []);
      return PlacementPlan([], 0, 0.0, 5);
    }
    var surplus: seq<Stock>, deficit: seq<Stock> := [], [];
    for n := 0 to |v|
      invariant surplus == DonorsOf(policies, v[..n]) && deficit == NeedsOf(policies, v[..n])
    {
      assert v[..n + 1][..n] == v[..n];
      var p := PolicyAt(policies, v[n].warehouse);
      if v[n].available > p.reorderPoint + p.safetyStock * 2 {
        surplus := surplus + [Stock(v[n].warehouse, v[n].available - p.reorderPoint - p.safetyStock)];
      } else if v[n].available < p.reorderPoint {
        deficit := deficit + [Stock(v[n].warehouse, p.reorderPoint - v[n].available)];
      }
    }
    assert v[..|v|] == v;
    ListedFaithfully(v, DonorAmount(policies));
    ListedFaithfully(v, ReceiverAmount(policies));
    ListsAreDisjoint(policies, v);
    var recs, units, savings := Rebalance(surplus, deficit);
    forall n | 0 <= n < |v| {
      LineIsKept(policies, v, recs, n);
    }
    forall i | 0 <= i < |recs| ensures Shows(v, recs[i].source) && Shows(v, recs[i].target) {
      GivesShown(v, DonorAmount(policies), recs[i].source);
      GivesShown(v, ReceiverAmount(policies), recs[i].target);
    }
    SettledOnTables(balances, policies, sku, recs);
    plan := PlacementPlan(recs, units, savings, if 100 < units then 2 else if 0 < units then 4 else 5);
  }

  lemma EmptySum()
    ensures SumOver([], Moved()) == 0
  {
  }

  /** A donor that gives keeps its reorder point and safety stock; a receiver is not lifted above its reorder
      point; nobody gives and receives. */
  ghost predicate LineKept(policies: Policies, line: VisibleStock, recs: seq<Recommendation>) {
    var p := PolicyAt(policies, line.warehouse);
    var given, got := SumOver(recs, SentFrom(line.warehouse)), SumOver(recs, SentTo(line.warehouse));
    && 0 <= given && 0 <= got
    && (0 < given ==> IsDonor(policies, line) && p.reorderPoint + p.safetyStock <= line.available - given)
    && (0 < got ==> IsReceiver(policies, line) && line.available + got <= p.reorderPoint)
  }

  /** The same on the balance rows, with the default policy written out: a warehouse that gives has more than its
      reorder point and twice its safety stock, and keeps the reorder point and the safety stock; one that receives is
      below its reorder point and not lifted above it. */
  ghost predicate WarehouseKept(balances: seq<Balance>, policies: Policies, sku: SkuId, recs: seq<Recommendation>,
                                w: WarehouseId)
  {
    var stock := Max(0, RawSum(balances, w, sku));
    var p := if w in policies then policies[w] else Policy(50, 25);
    var given, got := SumOver(recs, SentFrom(w)), SumOver(recs, SentTo(w));
    && 0 <= given && 0 <= got
    && (0 < given || 0 < got ==> Stocks(balances, w, sku))
    && (0 < given ==> p.reorderPoint + 2 * p.safetyStock < stock && p.reorderPoint + p.safetyStock <= stock - given)
    && (0 < got ==> stock + got <= p.reorderPoint)
  }

  /** Either every warehouse below its reorder point is brought up to it, or every warehouse that may give has given all
      it may. */
  ghost predicate NothingMoreToMove(balances: seq<Balance>, policies: Policies, sku: SkuId,
                                    recs: seq<Recommendation>)
  {
    || (forall w :: Stocks(balances, w, sku) ==>
          var stock := Max(0, RawSum(balances, w, sku));
          var p := if w in policies then policies[w] else Policy(50, 25);
          stock < p.reorderPoint && stock <= p.reorderPoint + 2 * p.safetyStock ==>
            stock + SumOver(recs, SentTo(w)) == p.reorderPoint)
    || (forall w :: Stocks(balances, w, sku) ==>
          var stock := Max(0, RawSum(balances, w, sku));
          var p := if w in policies then policies[w] else Policy(50, 25);
          p.reorderPoint + 2 * p.safetyStock < stock && p.reorderPoint + p.safetyStock <= stock ==>
            stock - SumOver(recs, SentFrom(w)) == p.reorderPoint + p.safetyStock)
  }

  /** What each line's warehouse gives, or gets. */
  function SharesOf(recs: seq<Recommendation>, share: WarehouseId -> Recommendation -> int): VisibleStock -> int {
    (line: VisibleStock) => SumOver(recs, share(line.warehouse))
  }

  /** The shares of all the lines add up to the units moved. */
  lemma {:induction false} EndsAddUp(v: seq<VisibleStock>, recs: seq<Recommendation>,
                                     share: WarehouseId -> Recommendation -> int, end: Recommendation -> WarehouseId)
    requires DistinctLines(v) && forall i :: 0 <= i < |recs| ==> Shows(v, end(recs[i]))
    requires forall w, r :: share(w)(r) == if end(r) == w then r.quantity else 0
    ensures SumOver(v, SharesOf(recs, share)) == SumOver(recs, Moved())
    decreases |recs|
  {
    if recs == [] {
      forall n | 0 <= n < |v| ensures SharesOf(recs, share)(v[n]) == 0 {
        SumZero(recs, share(v[n].warehouse));
      }
      SumZero(v, SharesOf(recs, share));
    } else {
      var m := |recs| - 1;
      var r := recs[m];
      EndsAddUp(v, recs[..m], share, end);
      var own := (line: VisibleStock) => share(line.warehouse)(r);
      SumAdd(v, SharesOf(recs, share), SharesOf(recs[..m], share), own);
      var n :| 0 <= n < |v| && v[n].warehouse == end(r);
      SumSingle(v, n, own);
    }
  }

  lemma GivesShown(v: seq<VisibleStock>, amount: VisibleStock -> Option<int>, w: WarehouseId)
    requires DistinctLines(v) && Gives(Listed(v, amount), w)
    ensures Shows(v, w)
  {
    ListedFaithfully(v, amount);
    var i :| 0 <= i < |Listed(v, amount)| && Listed(v, amount)[i].warehouse == w;
    assert FromLine(v, amount, Listed(v, amount)[i]);
    var n: nat :| EntryOf(v, amount, Listed(v, amount)[i], n);
  }

  /** When the smaller total moves, every line on that side is settled. */
  lemma LinesSettled(policies: Policies, v: seq<VisibleStock>, recs: seq<Recommendation>)
    requires DistinctLines(v) && forall n :: 0 <= n < |v| ==> LineKept(policies, v[n], recs)
    requires forall i :: 0 <= i < |recs| ==> Shows(v, recs[i].source) && Shows(v, recs[i].target)
    requires SumOver(recs, Moved()) ==
             Min(SumOver(v, Units(DonorAmount(policies))), SumOver(v, Units(ReceiverAmount(policies))))
    ensures (forall n :: 0 <= n < |v| ==> SharesOf(recs, SentTo)(v[n]) == Units(ReceiverAmount(policies))(v[n])) ||
            (forall n :: 0 <= n < |v| ==> SharesOf(recs, SentFrom)(v[n]) == Units(DonorAmount(policies))(v[n]))
  {
    hide SumOver;
    EndsAddUp(v, recs, SentTo, (r: Recommendation) => r.target);
    EndsAddUp(v, recs, SentFrom, (r: Recommendation) => r.source);
    if SumOver(recs, Moved()) == SumOver(v, Units(ReceiverAmount(policies))) {
      forall n | 0 <= n < |v| ensures SharesOf(recs, SentTo)(v[n]) <= Units(ReceiverAmount(policies))(v[n]) {
        assert LineKept(policies, v[n], recs);
      }
      SumTight(v, SharesOf(recs, SentTo), Units(ReceiverAmount(policies)));
    } else {
      forall n | 0 <= n < |v| ensures SharesOf(recs, SentFrom)(v[n]) <= Units(DonorAmount(policies))(v[n]) {
        assert LineKept(policies, v[n], recs);
      }
      SumTight(v, SharesOf(recs, SentFrom), Units(DonorAmount(policies)));
    }
  }

  /** What holds of the lines, said of the rows they were made from. */
  lemma SettledOnTables(balances: seq<Balance>, policies: Policies, sku: SkuId, recs: seq<Recommendation>)
    requires
      var v := NetworkVisibility(balances, sku);
      && (forall n :: 0 <= n < |v| ==> LineKept(policies, v[n], recs))
      && (forall i :: 0 <= i < |recs| ==> Shows(v, recs[i].source) && Shows(v, recs[i].target))
      && SumOver(recs, Moved()) ==
         Min(SumOver(v, Units(DonorAmount(policies))), SumOver(v, Units(ReceiverAmount(policies))))
    ensures forall w :: WarehouseKept(balances, policies, sku, recs, w)
    ensures NothingMoreToMove(balances, policies, sku, recs)
  {
    hide SumOver, NetworkVisibility, Stocks, LineKept, WarehouseKept, NothingMoreToMove, Shows;
    var v := NetworkVisibility(balances, sku);
    VisibilityLists(balances, sku);
    LinesSettled(policies, v, recs);
    forall w ensures WarehouseKept(balances, policies, sku, recs, w) {
      KeptOnTables(balances, policies, sku, recs, w);
    }
    if forall n :: 0 <= n < |v| ==> SharesOf(recs, SentTo)(v[n]) == Units(ReceiverAmount(policies))(v[n]) {
      ReceiversSettled(balances, policies, sku, recs);
    } else {
      DonorsSettled(balances, policies, sku, recs);
    }
  }

  lemma KeptOnTables(balances: seq<Balance>, policies: Policies, sku: SkuId, recs: seq<Recommendation>,
                     w: WarehouseId)
    requires
      var v := NetworkVisibility(balances, sku);
      && (forall n :: 0 <= n < |v| ==> LineKept(policies, v[n], recs))
      && forall i :: 0 <= i < |recs| ==> Shows(v, recs[i].source) && Shows(v, recs[i].target)
    ensures WarehouseKept(balances, policies, sku, recs, w)
  {
    hide SumOver, NetworkVisibility, Stocks;
    var v := NetworkVisibility(balances, sku);
    VisibilityLists(balances, sku);
    if n :| 0 <= n < |v| && v[n].warehouse == w {
      assert LineKept(policies, v[n], recs);
      assert Shows(v, w);
    } else {
      SumZero(recs, SentFrom(w));
      SumZero(recs, SentTo(w));
    }
  }

  lemma ReceiversSettled(balances: seq<Balance>, policies: Policies, sku: SkuId, recs: seq<Recommendation>)
    requires
      var v := NetworkVisibility(balances, sku);
      forall n :: 0 <= n < |v| ==> SharesOf(recs, SentTo)(v[n]) == Units(ReceiverAmount(policies))(v[n])
    ensures NothingMoreToMove(balances, policies, sku, recs)
  {
    hide SumOver, NetworkVisibility, Stocks;
    var v := NetworkVisibility(balances, sku);
    VisibilityLists(balances, sku);
    forall w | Stocks(balances, w, sku)
      ensures SumOver(recs, SentTo(w)) == ReceiverShare(balances, policies, sku, w)
    {
      var n :| 0 <= n < |v| && v[n].warehouse == w;
      assert SharesOf(recs, SentTo)(v[n]) == SumOver(recs, SentTo(w));
    }
  }

  lemma DonorsSettled(balances: seq<Balance>, policies: Policies, sku: SkuId, recs: seq<Recommendation>)
    requires
      var v := NetworkVisibility(balances, sku);
      forall n :: 0 <= n < |v| ==> SharesOf(recs, SentFrom)(v[n]) == Units(DonorAmount(policies))(v[n])
    ensures NothingMoreToMove(balances, policies, sku, recs)
  {
    hide SumOver, NetworkVisibility, Stocks;
    var v := NetworkVisibility(balances, sku);
    VisibilityLists(balances, sku);
    forall w | Stocks(balances, w, sku)
      ensures SumOver(recs, SentFrom(w)) == DonorShare(balances, policies, sku, w)
    {
      var n :| 0 <= n < |v| && v[n].warehouse == w;
      assert SharesOf(recs, SentFrom)(v[n]) == SumOver(recs, SentFrom(w));
    }
  }

  ghost function ReceiverShare(balances: seq<Balance>, policies: Policies, sku: SkuId, w: WarehouseId): int {
    Units(ReceiverAmount(policies))(VisibleStock(w, OnHandSum(balances, w, sku), ReservedSum(balances, w, sku),
                                                 Max(0, RawSum(balances, w, sku))))
  }

  ghost function DonorShare(balances: seq<Balance>, policies: Policies, sku: SkuId, w: WarehouseId): int {
    Units(DonorAmount(policies))(VisibleStock(w, OnHandSum(balances, w, sku), ReservedSum(balances, w, sku),
                                              Max(0, RawSum(balances, w, sku))))
  }

  lemma NobodyMoves(policies: Policies, line: VisibleStock)
    ensures LineKept(policies, line, [])
  {
  }

  /** A warehouse's share of the moves is bounded by its own listed amount, and is nothing if it has none. */
  lemma {:induction false} ShareBounded(v: seq<VisibleStock>, amount: VisibleStock -> Option<int>, n: nat,
                                        recs: seq<Recommendation>, share: Recommendation -> int,
                                        end: Recommendation -> WarehouseId)
    requires DistinctLines(v) && n < |v|
    requires forall r :: share(r) == if end(r) == v[n].warehouse then r.quantity else 0
    requires forall i :: 0 <= i < |recs| ==> 0 < recs[i].quantity && Gives(Listed(v, amount), end(recs[i]))
    requires forall i :: 0 <= i < |Listed(v, amount)| && Listed(v, amount)[i].warehouse == v[n].warehouse ==>
               SumOver(recs, share) <= Max(0, Listed(v, amount)[i].quantity)
    ensures 0 <= SumOver(recs, share)
    ensures 0 < SumOver(recs, share) ==> amount(v[n]).Some? && SumOver(recs, share) <= amount(v[n]).value
  {
    hide SumOver;
    forall x | x in recs ensures 0 <= share(x) {
      var i :| 0 <= i < |recs| && recs[i] == x;
    }
    SumNonNegative(recs, share);
    if 0 < SumOver(recs, share) {
      var i := NonZeroTerm(recs, share);
      var d := EntryAtLine(v, amount, n, end(recs[i]));
    }
  }

  lemma {:induction false} LineIsKept(policies: Policies, v: seq<VisibleStock>, recs: seq<Recommendation>, n: nat)
    requires DistinctLines(v) && n < |v|
    requires forall i :: 0 <= i < |recs| ==> 0 < recs[i].quantity
    requires forall i :: 0 <= i < |DonorsOf(policies, v)| ==>
               SumOver(recs, SentFrom(DonorsOf(policies, v)[i].warehouse)) <= Max(0, DonorsOf(policies, v)[i].quantity)
    requires forall i :: 0 <= i < |NeedsOf(policies, v)| ==>
               SumOver(recs, SentTo(NeedsOf(policies, v)[i].warehouse)) <= NeedsOf(policies, v)[i].quantity
    requires forall i :: 0 <= i < |recs| ==>
             Gives(DonorsOf(policies, v), recs[i].source) && Gives(NeedsOf(policies, v), recs[i].target)
    ensures LineKept(policies, v[n], recs)
  {
    hide SumOver, Listed;
    var w := v[n].warehouse;
    var donors, needs := DonorsOf(policies, v), NeedsOf(policies, v);
    assert forall i :: 0 <= i < |donors| && donors[i].warehouse == w ==>
           SumOver(recs, SentFrom(w)) <= Max(0, donors[i].quantity);
    assert forall i :: 0 <= i < |needs| && needs[i].warehouse == w ==>
           SumOver(recs, SentTo(w)) <= Max(0, needs[i].quantity);
    ShareBounded(v, DonorAmount(policies), n, recs, SentFrom(w), (r: Recommendation) => r.source);
    ShareBounded(v, ReceiverAmount(policies), n, recs, SentTo(w), (r: Recommendation) => r.target);
  }

  /** A listed warehouse's entry is the amount of its own line. */
  lemma EntryAtLine(v: seq<VisibleStock>, amount: VisibleStock -> Option<int>, n: nat, w: WarehouseId) returns (d: nat)
    requires DistinctLines(v) && n < |v| && v[n].warehouse == w && Gives(Listed(v, amount), w)
    ensures d < |Listed(v, amount)| && Listed(v, amount)[d].warehouse == w
    ensures 0 < Listed(v, amount)[d].quantity && amount(v[n]) == Some(Listed(v, amount)[d].quantity)
  {
    ListedFaithfully(v, amount);
    d :| d < |Listed(v, amount)| && Listed(v, amount)[d].warehouse == w && 0 < Listed(v, amount)[d].quantity;
    assert FromLine(v, amount, Listed(v, amount)[d]);
    var m: nat :| EntryOf(v, amount, Listed(v, amount)[d], m);
  }

  lemma NonZeroTerm<T>(s: seq<T>, f: T -> int) returns (i: nat)
    requires SumOver(s, f) != 0
    ensures i < |s| && f(s[i]) != 0
  {
    if forall j :: 0 <= j < |s| ==> f(s[j]) == 0 {
      SumZero(s, f);
    }
    i :| i < |s| && f(s[i]) != 0;
  }
}
