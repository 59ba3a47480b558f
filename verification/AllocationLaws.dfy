/** What an allocation draws, when it may raise, and what it leaves in the tables. */
module AllocationLaws {
  import opened Sums
  import opened Sorting
  import opened Tables
  import opened Allocation

  function AvailableAt(bs: seq<Balance>, k: SkuId): Warehouse -> int {
    (w: Warehouse) => AggregatedAvailable(bs, w.id, k)
  }

  /** Availability over the active warehouses. */
  function TotalAvailable(db: Db, k: SkuId): int {
    SumOver(ListActive(db.warehouses), AvailableAt(db.balances, k))
  }

  function ScoreKey(): WarehouseScore -> WarehouseId { (s: WarehouseScore) => s.warehouse }

  function DrawKey(): Draw -> WarehouseId { (d: Draw) => d.warehouse }

  ghost predicate ActiveId(ws: seq<Warehouse>, id: WarehouseId) {
    exists w :: w in ws && w.isActive && w.id == id
  }

  ghost predicate NonNegative(scores: seq<WarehouseScore>) {
    forall s :: s in scores ==> 0 <= s.available
  }

  /** The ranking holds each active warehouse once, with its own availability. */
  ghost predicate Faithful(db: Db, k: SkuId, scores: seq<WarehouseScore>) {
    && DistinctBy(scores, ScoreKey())
    && NonNegative(scores)
    && (forall s :: s in scores ==>
          ActiveId(db.warehouses, s.warehouse) && s.available == AggregatedAvailable(db.balances, s.warehouse, k))
    && (forall w :: ActiveId(db.warehouses, w) ==> exists s :: s in scores && s.warehouse == w)
    && SumOver(scores, AvailableOf()) == TotalAvailable(db, k)
  }

  lemma SortFaithful(db: Db, k: SkuId, scores: seq<WarehouseScore>, leq: (WarehouseScore, WarehouseScore) -> bool)
    requires Faithful(db, k, scores)
    ensures Faithful(db, k, Sort(scores, leq))
  {
    SortKeepsDistinct(scores, leq, ScoreKey());
    SortMembers(scores, leq);
    SortSum(scores, leq, AvailableOf());
    forall w | ActiveId(db.warehouses, w) ensures exists s :: s in Sort(scores, leq) && s.warehouse == w {
      var s :| s in scores && s.warehouse == w;
      assert s in Sort(scores, leq);
    }
  }

  lemma ScoresFaithful(db: Db, k: SkuId)
    requires DistinctWarehouses(db.warehouses)
    ensures Faithful(db, k, Scores(db.balances, ListActive(db.warehouses), k))
  {
    hide SumOver, ListActive, AggregatedAvailable;
    var ws := ListActive(db.warehouses);
    var scores := Scores(db.balances, ws, k);
    ListActiveDistinct(db.warehouses);
    ScoresOfListed(db, k, ws);
    SumCongruence(scores, ws, AvailableOf(), AvailableAt(db.balances, k));
  }

  lemma ScoresOfListed(db: Db, k: SkuId, ws: seq<Warehouse>)
    requires DistinctWarehouses(ws) && forall w :: w in ws <==> w in db.warehouses && w.isActive
    ensures
      var scores := Scores(db.balances, ws, k);
      && DistinctBy(scores, ScoreKey())
      && NonNegative(scores)
      && (forall s :: s in scores ==>
            ActiveId(db.warehouses, s.warehouse) && s.available == AggregatedAvailable(db.balances, s.warehouse, k))
      && (forall w :: ActiveId(db.warehouses, w) ==> exists s :: s in scores && s.warehouse == w)
  {
    var scores := Scores(db.balances, ws, k);
    forall i, j | 0 <= i < j < |scores| ensures ScoreKey()(scores[i]) != ScoreKey()(scores[j]) {
      assert WarehouseKey()(ws[i]) != WarehouseKey()(ws[j]);
    }
    forall s | s in scores
      ensures ActiveId(db.warehouses, s.warehouse) && s.available == AggregatedAvailable(db.balances, s.warehouse, k)
    {
      var i :| 0 <= i < |scores| && scores[i] == s;
      assert ws[i] in ws;
    }
    forall w | ActiveId(db.warehouses, w) ensures exists s :: s in scores && s.warehouse == w {
      var row :| row in db.warehouses && row.isActive && row.id == w;
      assert row in ws;
      var i :| 0 <= i < |ws| && ws[i] == row;
      assert scores[i] in scores;
    }
  }

  lemma RankFaithful(db: Db, request: AllocationRequest)
    requires DistinctWarehouses(db.warehouses)
    ensures Faithful(db, request.sku, Rank(db, request))
  {
    var scores := Scores(db.balances, ListActive(db.warehouses), request.sku);
    ScoresFaithful(db, request.sku);
    SortFaithful(db, request.sku, scores, BestFirst());
    if request.preferred.Some? {
      SortFaithful(db, request.sku, Sort(scores, BestFirst()), PreferredFirst(request.preferred.value));
    }
  }

  /** An active preferred warehouse heads the ranking. */
  lemma PreferredHeads(db: Db, request: AllocationRequest)
    requires DistinctWarehouses(db.warehouses)
    requires request.preferred.Some? && ActiveId(db.warehouses, request.preferred.value)
    ensures Rank(db, request) != [] && Rank(db, request)[0].warehouse == request.preferred.value
  {
    var p := request.preferred.value;
    var scores := Sort(Scores(db.balances, ListActive(db.warehouses), request.sku), BestFirst());
    var ranked := Rank(db, request);
    RankFaithful(db, request);
    SortSorts(scores, PreferredFirst(p));
    var s :| s in ranked && s.warehouse == p;
    var i :| 0 <= i < |ranked| && ranked[i] == s;
    if i != 0 {
      assert PreferredFirst(p)(ranked[0], ranked[i]);
    }
  }

  /** Without a preference the ranking follows the composite score downwards. */
  lemma BestScoresFirst(db: Db, request: AllocationRequest)
    requires request.preferred.None?
    ensures forall i, j :: 0 <= i < j < |Rank(db, request)| ==>
              Rank(db, request)[i].composite >= Rank(db, request)[j].composite
  {
    var scores := Scores(db.balances, ListActive(db.warehouses), request.sku);
    SortSorts(scores, BestFirst());
    var ranked := Rank(db, request);
    forall i, j | 0 <= i < j < |ranked| ensures ranked[i].composite >= ranked[j].composite {
      assert BestFirst()(ranked[i], ranked[j]);
    }
  }

  /** A score of the ranking is that of the active warehouse with its id. */
  lemma ScoreOfWarehouse(db: Db, request: AllocationRequest, s: WarehouseScore, w: Warehouse)
    requires DistinctWarehouses(db.warehouses) && w in db.warehouses && w.isActive
    requires s in Rank(db, request) && s.warehouse == w.id
    ensures s == ScoreOf(db.balances, w, request.sku)
  {
    hide AggregatedAvailable, ListActive, Composite;
    var ws := ListActive(db.warehouses);
    var scores := Scores(db.balances, ws, request.sku);
    ListActiveDistinct(db.warehouses);
    SortMembers(scores, BestFirst());
    if request.preferred.Some? {
      SortMembers(Sort(scores, BestFirst()), PreferredFirst(request.preferred.value));
    }
    assert s in scores;
    var i :| 0 <= i < |scores| && scores[i] == s;
    assert ws[i] in ws;
    SameWarehouse(db.warehouses, ws[i], w);
  }

  lemma SameWarehouse(ws: seq<Warehouse>, a: Warehouse, b: Warehouse)
    requires DistinctWarehouses(ws) && a in ws && b in ws
    ensures a.id == b.id ==> a == b
  {
    if a != b {
      var i :| 0 <= i < |ws| && ws[i] == a;
      var j :| 0 <= j < |ws| && ws[j] == b;
      assert WarehouseKey()(ws[i]) != WarehouseKey()(ws[j]);
    }
  }

  lemma RankDescends(db: Db, request: AllocationRequest, i: nat, j: nat)
    requires i < j < |Rank(db, request)| && request.preferred != Some(Rank(db, request)[i].warehouse)
    requires DistinctWarehouses(db.warehouses)
    ensures Rank(db, request)[i].composite >= Rank(db, request)[j].composite
  {
    hide Composite, AggregatedAvailable, ListActive;
    if request.preferred.None? {
      BestScoresFirst(db, request);
    } else {
      var p := request.preferred.value;
      SortSorts(Sort(Scores(db.balances, ListActive(db.warehouses), request.sku), BestFirst()), PreferredFirst(p));
      assert PreferredFirst(p)(Rank(db, request)[i], Rank(db, request)[j]);
    }
  }

  /** A score falls as the priority number rises; numbers below one count as one. */
  lemma CompositeFalls(p: int, q: int)
    ensures Composite(p) >= Composite(q) ==> Max(p, 1) <= Max(q, 1)
  {
    ReciprocalFalls(Max(p, 1) as real, Max(q, 1) as real);
  }

  lemma ReciprocalFalls(a: real, b: real)
    requires 0.0 < a && 0.0 < b
    ensures 1.0 / a >= 1.0 / b ==> a <= b
  {
    var x, y := 1.0 / a, 1.0 / b;
    assert x * a == 1.0 && y * b == 1.0;
    assert (x - y) * (a * b) == b - a;
    if x >= y {
      assert (x - y) * (a * b) >= 0.0;
    }
  }

  /** The ranking goes by the warehouses' own priorities, smaller numbers first, but for the preferred warehouse. */
  lemma RankedByPriority(db: Db, request: AllocationRequest, i: nat, j: nat, a: Warehouse, b: Warehouse)
    requires DistinctWarehouses(db.warehouses) && i < j < |Rank(db, request)|
    requires a in db.warehouses && a.isActive && a.id == Rank(db, request)[i].warehouse
    requires b in db.warehouses && b.isActive && b.id == Rank(db, request)[j].warehouse
    ensures request.preferred != Some(a.id) ==> Max(a.priority, 1) <= Max(b.priority, 1)
  {
    hide Rank, Composite;
    if request.preferred != Some(a.id) {
      ScoreOfWarehouse(db, request, Rank(db, request)[i], a);
      ScoreOfWarehouse(db, request, Rank(db, request)[j], b);
      RankDescends(db, request, i, j);
      CompositeFalls(a.priority, b.priority);
    }
  }

  function Scoring(c: real): WarehouseScore -> bool { (s: WarehouseScore) => s.composite == c }

  /** Without a preference, warehouses that score alike are ranked in the order they were listed. */
  lemma TiesAsListed(db: Db, request: AllocationRequest, c: real)
    requires request.preferred.None?
    ensures Where(Rank(db, request), Scoring(c))
         == Where(Scores(db.balances, ListActive(db.warehouses), request.sku), Scoring(c))
  {
    SortStable(Scores(db.balances, ListActive(db.warehouses), request.sku), BestFirst(), Scoring(c));
  }

  // ----- what is drawn

  /** Once a warehouse is drawn on, those ranked before it have given all they have or, unsplit, could not do. */
  lemma {:induction false} EarlierGiveAll(scores: seq<WarehouseScore>, remaining: int, allowSplit: bool, i: nat, j: nat,
                                          d: Draw)
    requires DistinctBy(scores, ScoreKey()) && i < j < |scores|
    requires d in Draws(scores, remaining, allowSplit) && d.warehouse == scores[j].warehouse
    ensures 0 < remaining
    ensures allowSplit && 0 < scores[i].available ==>
              Draw(scores[i].warehouse, scores[i].available) in Draws(scores, remaining, allowSplit)
    ensures !allowSplit ==> scores[i].available < remaining
    decreases |scores|
  {
    var tail := scores[1..];
    var q := Min(remaining, scores[0].available);
    ScoresTail(scores);
    assert scores[j] in tail;
    var skips := scores[0].available <= 0 || (!allowSplit && q < remaining);
    var left := if skips then remaining else remaining - q;
    assert d in Draws(tail, left, allowSplit);
    if i > 0 {
      EarlierGiveAll(tail, left, allowSplit, i - 1, j - 1, d);
    }
  }

  /** Nothing is drawn from a warehouse while one of strictly better priority has anything left or, unsplit, could do
      it all; only the preferred warehouse is exempt. */
  lemma BetterPriorityFirst(db: Db, request: AllocationRequest, a: Warehouse, b: Warehouse, d: Draw)
    requires DistinctWarehouses(db.warehouses) && request.preferred != Some(b.id)
    requires a in db.warehouses && a.isActive && b in db.warehouses && b.isActive
    requires Max(a.priority, 1) < Max(b.priority, 1)
    requires d in DrawsOf(db, request) && d.warehouse == b.id
    ensures
      var available := AggregatedAvailable(db.balances, a.id, request.sku);
      && (request.allowSplit && 0 < available ==> Draw(a.id, available) in DrawsOf(db, request))
      && (!request.allowSplit ==> available < request.quantity)
  {
    hide Rank, Draws, AggregatedAvailable, DistinctWarehouses, Faithful;
    var scores := Rank(db, request);
    var i := RankHolds(db, request, a);
    var j := RankHolds(db, request, b);
    SameWarehouse(db.warehouses, a, b);
    if j < i {
      RankedByPriority(db, request, j, i, b, a);
    }
    EarlierGiveAll(scores, request.quantity, request.allowSplit, i, j, d);
  }

  lemma RankHolds(db: Db, request: AllocationRequest, w: Warehouse) returns (i: nat)
    requires DistinctWarehouses(db.warehouses) && w in db.warehouses && w.isActive
    ensures DistinctBy(Rank(db, request), ScoreKey()) && i < |Rank(db, request)|
    ensures Rank(db, request)[i].warehouse == w.id
    ensures Rank(db, request)[i].available == AggregatedAvailable(db.balances, w.id, request.sku)
  {
    hide Rank, AggregatedAvailable;
    RankFaithful(db, request);
    assert ActiveId(db.warehouses, w.id);
    var s :| s in Rank(db, request) && s.warehouse == w.id;
    i :| 0 <= i < |Rank(db, request)| && Rank(db, request)[i] == s;
  }

  lemma ScoresTail(scores: seq<WarehouseScore>)
    requires DistinctBy(scores, ScoreKey()) && scores != []
    ensures DistinctBy(scores[1..], ScoreKey())
    ensures forall s :: s in scores[1..] ==> s.warehouse != scores[0].warehouse
  {
    var tail := scores[1..];
    forall i, j | 0 <= i < j < |tail| ensures ScoreKey()(tail[i]) != ScoreKey()(tail[j]) {
      assert ScoreKey()(scores[i + 1]) != ScoreKey()(scores[j + 1]);
    }
    forall s | s in tail ensures s.warehouse != scores[0].warehouse {
      var i :| 0 <= i < |tail| && tail[i] == s;
      assert ScoreKey()(scores[0]) != ScoreKey()(scores[i + 1]);
    }
  }

  /** Every draw comes from a ranked warehouse, in rank order, and fits its availability. */
  lemma {:induction false} DrawsFit(scores: seq<WarehouseScore>, remaining: int, allowSplit: bool)
    requires DistinctBy(scores, ScoreKey())
    ensures DistinctBy(Draws(scores, remaining, allowSplit), DrawKey())
    ensures forall d :: d in Draws(scores, remaining, allowSplit) ==>
              0 < d.quantity && exists s :: s in scores && s.warehouse == d.warehouse && d.quantity <= s.available
    decreases |scores|
  {
    if scores != [] && 0 < remaining {
      var tail := scores[1..];
      var q := Min(remaining, scores[0].available);
      ScoresTail(scores);
      DrawsFit(tail, remaining, allowSplit);
      DrawsFit(tail, remaining - q, allowSplit);
      var rest := Draws(tail, remaining - q, allowSplit);
      forall d | d in rest ensures d.warehouse != scores[0].warehouse {
        var s :| s in tail && s.warehouse == d.warehouse;
      }
      forall d | d in Draws(scores, remaining, allowSplit)
        ensures 0 < d.quantity && exists s :: s in scores && s.warehouse == d.warehouse && d.quantity <= s.available
      {
        if d == Draw(scores[0].warehouse, q) && 0 < q {
          assert scores[0] in scores;
        } else {
          var s :| s in tail && s.warehouse == d.warehouse && d.quantity <= s.available;
          assert s in scores;
        }
      }
    }
  }

  /** With splitting, the draws add up to the smaller of the demand and what the ranking holds. */
  lemma {:induction false} SplitTotal(scores: seq<WarehouseScore>, remaining: int)
    requires NonNegative(scores)
    ensures TotalDrawn(Draws(scores, remaining, true)) == Min(Max(remaining, 0), SumOver(scores, AvailableOf()))
    decreases |scores|
  {
    SumNonNegative(scores, AvailableOf());
    if scores != [] && 0 < remaining {
      var q := Min(remaining, scores[0].available);
      SumCons(scores, AvailableOf());
      SumNonNegative(scores[1..], AvailableOf());
      SplitTotal(scores[1..], remaining);
      SplitTotal(scores[1..], remaining - q);
      if 0 < scores[0].available {
        var draws := Draws(scores, remaining, true);
        SumCons(draws, DrawQuantity());
        assert draws[1..] == Draws(scores[1..], remaining - q, true);
      }
    }
  }

  /** Demand at or above what the ranking holds drains every ranked warehouse. */
  lemma {:induction false} DrawsDrain(scores: seq<WarehouseScore>, remaining: int)
    requires NonNegative(scores) && SumOver(scores, AvailableOf()) <= remaining
    ensures forall s :: s in scores && 0 < s.available ==>
              Draw(s.warehouse, s.available) in Draws(scores, remaining, true)
    decreases |scores|
  {
    if scores != [] {
      SumCons(scores, AvailableOf());
      SumNonNegative(scores[1..], AvailableOf());
      if 0 < remaining {
        DrawsDrain(scores[1..], remaining - scores[0].available);
      }
      forall s | s in scores && 0 < s.available
        ensures Draw(s.warehouse, s.available) in Draws(scores, remaining, true)
      {
        if remaining <= 0 {
          SumNonNegative(scores, AvailableOf());
          var i :| 0 <= i < |scores| && scores[i] == s;
          SumCoversElement(scores, i, AvailableOf());
        } else if s != scores[0] {
          assert s in scores[1..];
        }
      }
    }
  }

  /** Without splitting, the first warehouse that holds the whole quantity supplies it, or nobody does. */
  lemma {:induction false} WholeDraw(scores: seq<WarehouseScore>, remaining: int)
    ensures Draws(scores, remaining, false) == [] ||
            exists w :: Draws(scores, remaining, false) == [Draw(w, remaining)]
    ensures Draws(scores, remaining, false) == [] <==>
            remaining <= 0 || forall s :: s in scores ==> s.available < remaining
    decreases |scores|
  {
    if scores != [] && 0 < remaining {
      WholeDraw(scores[1..], remaining);
      if remaining <= scores[0].available {
        assert scores[0] in scores;
        assert Draws(scores[1..], 0, false) == [];
        assert Draws(scores, remaining, false) == [Draw(scores[0].warehouse, remaining)];
      }
    }
  }

  // ----- what the draws do to the tables

  /** Row by row, nothing but `reserved` and `version` of the SKU's home rows may differ. */
  ghost predicate OnlyReservedMoved(before: seq<Balance>, after: seq<Balance>, k: SkuId) {
    && |before| == |after|
    && forall i :: 0 <= i < |before| ==>
         && after[i] == before[i].(reserved := after[i].reserved, version := after[i].version)
         && (before[i].sku != k || before[i].location.Some? ==> after[i] == before[i])
  }

  /** The keys decide where a home row sits. */
  ghost predicate SameKeys(before: seq<Balance>, after: seq<Balance>) {
    && |before| == |after|
    && forall i :: 0 <= i < |before| ==>
         && before[i].warehouse == after[i].warehouse && before[i].sku == after[i].sku
         && before[i].location == after[i].location
  }

  lemma {:induction false} FindHomeStable(before: seq<Balance>, after: seq<Balance>, w: WarehouseId, k: SkuId,
                                          from: nat)
    requires SameKeys(before, after) && from <= |before|
    ensures FindHome(before, w, k, from) == FindHome(after, w, k, from)
    decreases |before| - from
  {
    if from < |before| {
      FindHomeStable(before, after, w, k, from + 1);
    }
  }

  lemma HomesStable(before: seq<Balance>, after: seq<Balance>)
    requires SameKeys(before, after)
    ensures forall w, k :: GetBalance(before, w, k) == GetBalance(after, w, k)
  {
    forall w, k ensures GetBalance(before, w, k) == GetBalance(after, w, k) {
      FindHomeStable(before, after, w, k, 0);
    }
  }

  function DrawnAt(request: AllocationRequest, draws: seq<Draw>, w: WarehouseId, k: SkuId): int {
    if k == request.sku then SumOver(draws, DrawnFrom(w)) else 0
  }

  /** A successful batch of draws moves exactly the drawn units from available to reserved, at each warehouse. */
  lemma {:induction false} CommitEffect(db: Db, request: AllocationRequest, now: Time, draws: seq<Draw>)
    ensures
      var (after, raised) := Commit(db, request, now, draws);
      && after.warehouses == db.warehouses && after.transfers == db.transfers
      && OnlyReservedMoved(db.balances, after.balances, request.sku)
      && (raised.None? ==>
            && (forall w, k :: ReservedSum(after.balances, w, k)
                               == ReservedSum(db.balances, w, k) + DrawnAt(request, draws, w, k))
            && (forall w, k :: RawSum(after.balances, w, k)
                               == RawSum(db.balances, w, k) - DrawnAt(request, draws, w, k))
            && (forall w, k :: ActiveSum(after.reservations, w, k)
                               == ActiveSum(db.reservations, w, k) + DrawnAt(request, draws, w, k)))
    decreases |draws|
  {
    if draws != [] {
      var d := draws[0];
      var (next, raised) := Take(db, request, now, d);
      CommitEffect(next, request, now, draws[1..]);
      if raised.None? {
        TakeEffect(db, request, now, d);
        forall w, k
          ensures DrawnAt(request, draws, w, k) == DrawnAt(request, [d], w, k) + DrawnAt(request, draws[1..], w, k)
        {
          SumCons(draws, DrawnFrom(w));
          SumCons([d], DrawnFrom(w));
        }
      }
    }
  }

  /** A draw written down is one new reservation and its units on the home row's counter. */
  lemma TakeRows(db: Db, request: AllocationRequest, now: Time, d: Draw)
    requires Take(db, request, now, d).1.None?
    ensures GetBalance(db.balances, d.warehouse, request.sku).Some?
    ensures
      var after := Take(db, request, now, d).0;
      var h := GetBalance(db.balances, d.warehouse, request.sku).value;
      var b := db.balances[h];
      && b.At(d.warehouse, request.sku)
      && after.balances == db.balances[h := b.(reserved := b.reserved + d.quantity, version := b.version + 1)]
      && after.reservations == db.reservations + [NewReservation(request, now, d)]
  {
  }

  lemma TakeEffect(db: Db, request: AllocationRequest, now: Time, d: Draw)
    requires Take(db, request, now, d).1.None?
    ensures
      var after := Take(db, request, now, d).0;
      && (forall w, k :: ReservedSum(after.balances, w, k)
                         == ReservedSum(db.balances, w, k) + DrawnAt(request, [d], w, k))
      && (forall w, k :: RawSum(after.balances, w, k)
                         == RawSum(db.balances, w, k) - DrawnAt(request, [d], w, k))
      && (forall w, k :: ActiveSum(after.reservations, w, k)
                         == ActiveSum(db.reservations, w, k) + DrawnAt(request, [d], w, k))
  {
    TakeRows(db, request, now, d);
    hide Take, GetBalance, SumOver;
    var after := Take(db, request, now, d).0;
    var h := GetBalance(db.balances, d.warehouse, request.sku).value;
    forall w, k
      ensures ReservedSum(after.balances, w, k) == ReservedSum(db.balances, w, k) + DrawnAt(request, [d], w, k)
    {
      SumUpdate(db.balances, h, after.balances[h], ReservedAt(w, k));
      DrawnOnce(request, d, w, k);
    }
    forall w, k ensures RawSum(after.balances, w, k) == RawSum(db.balances, w, k) - DrawnAt(request, [d], w, k) {
      SumUpdate(db.balances, h, after.balances[h], RawAt(w, k));
      DrawnOnce(request, d, w, k);
    }
    forall w, k
      ensures ActiveSum(after.reservations, w, k) == ActiveSum(db.reservations, w, k) + DrawnAt(request, [d], w, k)
    {
      SumSnoc(db.reservations, NewReservation(request, now, d), QuantityIn(w, k, Active));
      DrawnOnce(request, d, w, k);
    }
  }

  lemma DrawnOnce(request: AllocationRequest, d: Draw, w: WarehouseId, k: SkuId)
    ensures DrawnAt(request, [d], w, k) == if w == d.warehouse && k == request.sku then d.quantity else 0
  {
    SumCons([d], DrawnFrom(w));
  }

  function AddedReservations(request: AllocationRequest, now: Time, draws: seq<Draw>): seq<Reservation> {
    seq(|draws|, i requires 0 <= i < |draws| => NewReservation(request, now, draws[i]))
  }

  /** One active reservation per draw, in order, at the end of the table. */
  lemma {:induction false} CommitReserves(db: Db, request: AllocationRequest, now: Time, draws: seq<Draw>)
    requires Commit(db, request, now, draws).1.None?
    ensures Commit(db, request, now, draws).0.reservations == db.reservations + AddedReservations(request, now, draws)
    decreases |draws|
  {
    if draws != [] {
      var next := Take(db, request, now, draws[0]).0;
      CommitReserves(next, request, now, draws[1..]);
      assert AddedReservations(request, now, draws)
          == [NewReservation(request, now, draws[0])] + AddedReservations(request, now, draws[1..]);
    }
  }

  /** Raised or not, the loop appends the rows of the draws it came to. */
  lemma {:induction false} CommitAdds(db: Db, request: AllocationRequest, now: Time, draws: seq<Draw>)
      returns (taken: nat)
    ensures taken <= |draws| && (Commit(db, request, now, draws).1.None? ==> taken == |draws|)
    ensures Commit(db, request, now, draws).0.reservations ==
            db.reservations + AddedReservations(request, now, draws[..taken])
    decreases |draws|
  {
    taken := 0;
    if draws != [] {
      var (next, raised) := Take(db, request, now, draws[0]);
      taken := 1;
      assert AddedReservations(request, now, draws[..1]) == [NewReservation(request, now, draws[0])];
      if raised.None? {
        var more := CommitAdds(next, request, now, draws[1..]);
        taken := 1 + more;
        assert draws[..taken] == [draws[0]] + draws[1..][..more];
        assert AddedReservations(request, now, draws[..taken])
            == [NewReservation(request, now, draws[0])] + AddedReservations(request, now, draws[1..][..more]);
      }
    }
  }

  /** Each new row is an active reservation of one draw for this order line, good for half an hour; old rows stay. */
  lemma AllocationRecords(db: Db, request: AllocationRequest, now: Time) returns (taken: nat)
    ensures
      var (after, result) := Allocate(db, request, now);
      var draws := DrawsOf(db, request);
      && taken <= |draws| && (result.Success? ==> taken == |draws| && result.value.allocations == draws)
      && |after.reservations| == |db.reservations| + taken
      && (forall i :: 0 <= i < |db.reservations| ==> after.reservations[i] == db.reservations[i])
      && (forall i :: 0 <= i < taken ==>
            after.reservations[|db.reservations| + i] ==
            Reservation(request.order, request.line, draws[i].warehouse, request.sku, draws[i].quantity, Active,
                        now + 1800))
  {
    hide Rank, Draws, Commit;
    taken := CommitAdds(db, request, now, DrawsOf(db, request));
  }

  // ----- when an allocation can raise from inside its loop

  ghost predicate HomeCovers(bs: seq<Balance>, w: WarehouseId, k: SkuId, q: int) {
    GetBalance(bs, w, k).Some? && q <= bs[GetBalance(bs, w, k).value].Available()
  }

  /** Every active warehouse that shows stock of the SKU holds all of it in its home row. */
  ghost predicate Coverable(db: Db, k: SkuId) {
    forall w :: ActiveId(db.warehouses, w) && 0 < AggregatedAvailable(db.balances, w, k) ==>
      HomeCovers(db.balances, w, k, AggregatedAvailable(db.balances, w, k))
  }

  /** What a request draws, from the tables it finds. */
  function DrawsOf(db: Db, request: AllocationRequest): seq<Draw> {
    Draws(Rank(db, request), request.quantity, request.allowSplit)
  }

  /** Some draw is more than the home row of its warehouse holds, or there is no such row. */
  ghost predicate Stops(bs: seq<Balance>, k: SkuId, draws: seq<Draw>) {
    exists i :: 0 <= i < |draws| && !HomeCovers(bs, draws[i].warehouse, k, draws[i].quantity)
  }

  /** Writing one draw leaves the home rows of the other warehouses as they were. */
  lemma OthersCoverAlike(db: Db, request: AllocationRequest, now: Time, draws: seq<Draw>)
    requires draws != [] && DistinctBy(draws, DrawKey()) && Take(db, request, now, draws[0]).1.None?
    ensures DistinctBy(draws[1..], DrawKey())
    ensures HomeCovers(db.balances, draws[0].warehouse, request.sku, draws[0].quantity)
    ensures Stops(Take(db, request, now, draws[0]).0.balances, request.sku, draws[1..]) <==>
            Stops(db.balances, request.sku, draws)
  {
    var bs := Take(db, request, now, draws[0]).0.balances;
    HomesStable(db.balances, bs);
    forall i | 0 < i < |draws|
      ensures draws[1..][i - 1] == draws[i] && draws[i].warehouse != draws[0].warehouse
      ensures HomeCovers(bs, draws[i].warehouse, request.sku, draws[i].quantity) <==>
              HomeCovers(db.balances, draws[i].warehouse, request.sku, draws[i].quantity)
    {
      assert DrawKey()(draws[0]) != DrawKey()(draws[i]);
    }
    forall i, j | 0 <= i < j < |draws[1..]| ensures DrawKey()(draws[1..][i]) != DrawKey()(draws[1..][j]) {
      assert DrawKey()(draws[i + 1]) != DrawKey()(draws[j + 1]);
    }
    if Stops(db.balances, request.sku, draws) {
      var i :| 0 <= i < |draws| && !HomeCovers(db.balances, draws[i].warehouse, request.sku, draws[i].quantity);
      assert draws[1..][i - 1] == draws[i];
    }
  }

  /** Writing the draws raises exactly when one of them is not covered, as the tables stand beforehand. */
  lemma {:induction false} CommitRaisesIff(db: Db, request: AllocationRequest, now: Time, draws: seq<Draw>)
    requires DistinctBy(draws, DrawKey())
    ensures Commit(db, request, now, draws).1.Some? <==> Stops(db.balances, request.sku, draws)
    decreases |draws|
  {
    if draws != [] {
      var (next, raised) := Take(db, request, now, draws[0]);
      if raised.None? {
        OthersCoverAlike(db, request, now, draws);
        CommitRaisesIff(next, request, now, draws[1..]);
      } else {
        assert !HomeCovers(db.balances, draws[0].warehouse, request.sku, draws[0].quantity);
      }
    }
  }

  /** The draws of a request name distinct warehouses, and raise exactly when one of them is not covered. */
  lemma AllocateStopsIff(db: Db, request: AllocationRequest, now: Time)
    requires DistinctWarehouses(db.warehouses)
    ensures DistinctBy(DrawsOf(db, request), DrawKey())
    ensures Commit(db, request, now, DrawsOf(db, request)).1.Some? <==>
            Stops(db.balances, request.sku, DrawsOf(db, request))
  {
    RankFaithful(db, request);
    DrawsFit(Rank(db, request), request.quantity, request.allowSplit);
    CommitRaisesIff(db, request, now, DrawsOf(db, request));
  }

  lemma CoverableNeverStops(db: Db, request: AllocationRequest)
    requires DistinctWarehouses(db.warehouses) && Coverable(db, request.sku)
    ensures !Stops(db.balances, request.sku, DrawsOf(db, request))
  {
    var scores, draws := Rank(db, request), DrawsOf(db, request);
    RankFaithful(db, request);
    DrawsFit(scores, request.quantity, request.allowSplit);
    forall i | 0 <= i < |draws| ensures HomeCovers(db.balances, draws[i].warehouse, request.sku, draws[i].quantity) {
      assert draws[i] in draws;
      var s :| s in scores && s.warehouse == draws[i].warehouse && draws[i].quantity <= s.available;
      assert ActiveId(db.warehouses, s.warehouse);
    }
  }

  lemma CoverableCommits(db: Db, request: AllocationRequest, now: Time)
    requires DistinctWarehouses(db.warehouses) && Coverable(db, request.sku)
    ensures Commit(db, request, now, Draws(Rank(db, request), request.quantity, request.allowSplit)).1.None?
  {
    CoverableNeverStops(db, request);
    AllocateStopsIff(db, request, now);
  }

  /** An allocation raises half-way for some request exactly when some shown stock lies outside its home row. */
  lemma NeverMidLoopIffCoverable(db: Db, k: SkuId, now: Time)
    requires DistinctWarehouses(db.warehouses)
    ensures Coverable(db, k) <==>
            forall request: AllocationRequest :: request.sku == k ==>
              Allocate(db, request, now).1.Success? || !Allocate(db, request, now).1.error.MidLoop()
  {
    if Coverable(db, k) {
      forall request: AllocationRequest | request.sku == k
        ensures Allocate(db, request, now).1.Success? || !Allocate(db, request, now).1.error.MidLoop()
      {
        CoverableCommits(db, request, now);
      }
    } else {
      var w :| ActiveId(db.warehouses, w) && 0 < AggregatedAvailable(db.balances, w, k) &&
               !HomeCovers(db.balances, w, k, AggregatedAvailable(db.balances, w, k));
      var request := AllocationRequest(0, 0, k, AggregatedAvailable(db.balances, w, k), Some(w), true);
      PreferredHeads(db, request);
      RankFaithful(db, request);
      var scores := Rank(db, request);
      assert scores[0] in scores;
      assert Draws(scores, request.quantity, true)[0] == Draw(w, request.quantity);
      assert Allocate(db, request, now).1.Failure? && Allocate(db, request, now).1.error.MidLoop();
    }
  }

  /** A raise from inside the loop leaves a reservation that no balance carries. */
  lemma {:induction false} MidLoopOrphans(db: Db, request: AllocationRequest, now: Time, draws: seq<Draw>)
    requires forall d :: d in draws ==> 0 < d.quantity
    requires Commit(db, request, now, draws).1.Some?
    ensures
      var (after, raised) := Commit(db, request, now, draws);
      && raised.value.MidLoop()
      && ActiveSum(after.reservations, raised.value.warehouse, request.sku)
           - ReservedSum(after.balances, raised.value.warehouse, request.sku)
         > ActiveSum(db.reservations, raised.value.warehouse, request.sku)
           - ReservedSum(db.balances, raised.value.warehouse, request.sku)
    decreases |draws|
  {
    var d := draws[0];
    assert d in draws;
    var (next, raised) := Take(db, request, now, d);
    if raised.Some? {
      SumSnoc(db.reservations, NewReservation(request, now, d), QuantityIn(d.warehouse, request.sku, Active));
    } else {
      MidLoopOrphans(next, request, now, draws[1..]);
      TakeEffect(db, request, now, d);
    }
  }

  /** A raise from inside the loop names the first draw that is not covered: its warehouse has no home row, or one that
      holds less than is drawn. */
  lemma {:induction false} RaiseNamesTheDraw(db: Db, request: AllocationRequest, now: Time, draws: seq<Draw>)
      returns (i: nat)
    requires DistinctBy(draws, DrawKey()) && Commit(db, request, now, draws).1.Some?
    ensures i < |draws|
    ensures
      var e := Commit(db, request, now, draws).1.value;
      match GetBalance(db.balances, draws[i].warehouse, request.sku)
      case None => e == NoBalance(draws[i].warehouse)
      case Some(h) =>
        && e == RowShort(draws[i].warehouse, draws[i].quantity, Max(0, db.balances[h].Raw()))
        && Max(0, db.balances[h].Raw()) < draws[i].quantity
    ensures forall j :: 0 <= j < i ==> HomeCovers(db.balances, draws[j].warehouse, request.sku, draws[j].quantity)
    decreases |draws|
  {
    i := 0;
    var (next, raised) := Take(db, request, now, draws[0]);
    if raised.None? {
      OthersCoverAlike(db, request, now, draws);
      i := RaiseNamesTheDraw(next, request, now, draws[1..]);
      i := i + 1;
      OthersAlike(db, request, now, draws);
    }
  }

  lemma OthersAlike(db: Db, request: AllocationRequest, now: Time, draws: seq<Draw>)
    requires draws != [] && DistinctBy(draws, DrawKey()) && Take(db, request, now, draws[0]).1.None?
    ensures
      var bs := Take(db, request, now, draws[0]).0.balances;
      forall j :: 0 < j < |draws| ==>
        var w := draws[j].warehouse;
        && GetBalance(bs, w, request.sku) == GetBalance(db.balances, w, request.sku)
        && (GetBalance(bs, w, request.sku).Some? ==>
              bs[GetBalance(bs, w, request.sku).value] == db.balances[GetBalance(bs, w, request.sku).value])
        && draws[1..][j - 1] == draws[j]
  {
    var bs := Take(db, request, now, draws[0]).0.balances;
    HomesStable(db.balances, bs);
    forall j | 0 < j < |draws| ensures draws[j].warehouse != draws[0].warehouse {
      assert DrawKey()(draws[0]) != DrawKey()(draws[j]);
    }
  }

  // ----- the main results about one allocation

  /** Nothing can be drawn: nothing is asked for, or there is nothing to split, or no warehouse holds the whole. */
  ghost predicate Unfillable(db: Db, request: AllocationRequest) {
    || request.quantity <= 0
    || (request.allowSplit && TotalAvailable(db, request.sku) == 0)
    || (!request.allowSplit && forall w :: ActiveId(db.warehouses, w) ==>
          AggregatedAvailable(db.balances, w, request.sku) < request.quantity)
  }

  /** Nothing is drawn exactly when the request cannot be met at all. */
  lemma NothingDrawnIff(db: Db, request: AllocationRequest)
    requires DistinctWarehouses(db.warehouses)
    ensures DrawsOf(db, request) == [] <==> Unfillable(db, request)
  {
    var scores := Rank(db, request);
    RankFaithful(db, request);
    ZeroTotal(scores, request.quantity, request.allowSplit);
    SplitTotal(scores, request.quantity);
    WholeDraw(scores, request.quantity);
    SumNonNegative(scores, AvailableOf());
    if !request.allowSplit {
      assert (forall s :: s in scores ==> s.available < request.quantity) <==>
             (forall w :: ActiveId(db.warehouses, w) ==>
                AggregatedAvailable(db.balances, w, request.sku) < request.quantity) by {
        if w :| ActiveId(db.warehouses, w) && request.quantity <= AggregatedAvailable(db.balances, w, request.sku) {
          var s :| s in scores && s.warehouse == w;
        }
        if s :| s in scores && request.quantity <= s.available {
          assert ActiveId(db.warehouses, s.warehouse);
        }
      }
    }
  }

  /** An allocation raises exactly when the request cannot be met at all, and then leaves the tables alone, or when
      some draw is not covered by its home row, and then it raises from inside the loop and leaves a reservation. */
  lemma AllocateRaisesExactly(db: Db, request: AllocationRequest, now: Time)
    requires DistinctWarehouses(db.warehouses)
    ensures
      var (after, result) := Allocate(db, request, now);
      var stops := Stops(db.balances, request.sku, DrawsOf(db, request));
      && (result.Failure? <==> Unfillable(db, request) || stops)
      && (Unfillable(db, request) ==>
            && after == db && !stops
            && result == Failure(Insufficient(request.quantity, TotalAvailable(db, request.sku))))
      && (stops ==> result.error.MidLoop() && |db.reservations| < |after.reservations|)
  {
    hide Rank, TotalAvailable, SumOver, AggregatedAvailable, Unfillable;
    RankFaithful(db, request);
    NothingDrawnIff(db, request);
    AllocateStopsIff(db, request, now);
    if Stops(db.balances, request.sku, DrawsOf(db, request)) {
      RaiseLeavesReservation(db, request, now, DrawsOf(db, request));
    }
  }

  lemma {:induction false} RaiseLeavesReservation(db: Db, request: AllocationRequest, now: Time, draws: seq<Draw>)
    requires Commit(db, request, now, draws).1.Some?
    ensures Commit(db, request, now, draws).1.value.MidLoop()
    ensures |db.reservations| < |Commit(db, request, now, draws).0.reservations|
    decreases |draws|
  {
    var (next, raised) := Take(db, request, now, draws[0]);
    if raised.None? {
      RaiseLeavesReservation(next, request, now, draws[1..]);
    }
  }

  /** The first draw is written and a later one raises, as the home rows stand beforehand. */
  ghost predicate StopsHalfWay(db: Db, request: AllocationRequest) {
    var draws := DrawsOf(db, request);
    && draws != [] && HomeCovers(db.balances, draws[0].warehouse, request.sku, draws[0].quantity)
    && Stops(db.balances, request.sku, draws)
  }

  /** A raise at the first draw has written a reservation and no balance. */
  lemma StopsAtOnce(db: Db, request: AllocationRequest, now: Time)
    requires DistinctWarehouses(db.warehouses)
    requires Stops(db.balances, request.sku, DrawsOf(db, request)) && !StopsHalfWay(db, request)
    ensures Allocate(db, request, now).1.Failure?
    ensures Allocate(db, request, now).0.balances == db.balances
    ensures Allocate(db, request, now).0.warehouses == db.warehouses
  {
    hide Rank, Draws;
    AllocateStopsIff(db, request, now);
    assert Take(db, request, now, DrawsOf(db, request)[0]).1.Some?;
  }

  /** A successful allocation takes as much as it may, one positive draw per active warehouse at most. */
  lemma AllocateMaximal(db: Db, request: AllocationRequest, now: Time)
    requires DistinctWarehouses(db.warehouses)
    requires Allocate(db, request, now).1.Success?
    ensures
      var r := Allocate(db, request, now).1.value;
      && r.totalAllocated + r.backorder == request.quantity
      && r.totalAllocated == TotalDrawn(r.allocations) > 0
      && r.line == request.line && |r.reservationIds| == |r.allocations|
      && (request.allowSplit ==>
            r.totalAllocated == Min(request.quantity, TotalAvailable(db, request.sku)))
      && (!request.allowSplit ==> exists w :: r.allocations == [Draw(w, request.quantity)])
      && DistinctBy(r.allocations, DrawKey())
      && (forall d :: d in r.allocations ==>
            && 0 < d.quantity <= AggregatedAvailable(db.balances, d.warehouse, request.sku)
            && ActiveId(db.warehouses, d.warehouse))
  {
    var scores := Rank(db, request);
    RankFaithful(db, request);
    DrawsFit(scores, request.quantity, request.allowSplit);
    ZeroTotal(scores, request.quantity, request.allowSplit);
    var draws := Draws(scores, request.quantity, request.allowSplit);
    SumNonNegative(draws, DrawQuantity());
    forall d | d in draws
      ensures 0 < d.quantity <= AggregatedAvailable(db.balances, d.warehouse, request.sku)
      ensures ActiveId(db.warehouses, d.warehouse)
    {
      var s :| s in scores && s.warehouse == d.warehouse && d.quantity <= s.available;
    }
    if request.allowSplit {
      SplitTotal(scores, request.quantity);
    } else {
      WholeDraw(scores, request.quantity);
      var w :| draws == [Draw(w, request.quantity)];
      SumCons(draws, DrawQuantity());
    }
  }

  /** A preferred warehouse that can contribute is drawn on first, for as much as it can give. */
  lemma PreferredDrawnFirst(db: Db, request: AllocationRequest, now: Time)
    requires DistinctWarehouses(db.warehouses)
    requires request.preferred.Some? && ActiveId(db.warehouses, request.preferred.value) && 0 < request.quantity
    ensures
      var p := request.preferred.value;
      var available := AggregatedAvailable(db.balances, p, request.sku);
      0 < available && (request.allowSplit || request.quantity <= available) ==>
        && DrawsOf(db, request) != [] && DrawsOf(db, request)[0] == Draw(p, Min(request.quantity, available))
        && match Allocate(db, request, now).1
           case Success(r) => r.allocations == DrawsOf(db, request)
           case Failure(e) => e.MidLoop() && Stops(db.balances, request.sku, DrawsOf(db, request))
  {
    PreferredHeads(db, request);
    RankFaithful(db, request);
    var scores := Rank(db, request);
    assert scores[0] in scores;
    AllocateRaisesExactly(db, request, now);
    NothingDrawnIff(db, request);
  }

  /** A successful allocation in terms of its own result. */
  lemma AllocateEffect(db: Db, request: AllocationRequest, now: Time)
    requires Allocate(db, request, now).1.Success?
    ensures
      var (after, result) := Allocate(db, request, now);
      var draws := result.value.allocations;
      && after.warehouses == db.warehouses && after.transfers == db.transfers
      && OnlyReservedMoved(db.balances, after.balances, request.sku)
      && (forall d :: d in draws ==> 0 < d.quantity)
      && (forall w, k :: ReservedSum(after.balances, w, k)
                         == ReservedSum(db.balances, w, k) + DrawnAt(request, draws, w, k))
      && (forall w, k :: RawSum(after.balances, w, k) == RawSum(db.balances, w, k) - DrawnAt(request, draws, w, k))
      && (forall w, k :: ActiveSum(after.reservations, w, k)
                         == ActiveSum(db.reservations, w, k) + DrawnAt(request, draws, w, k))
  {
    hide SumOver, OnlyReservedMoved;
    var draws := Draws(Rank(db, request), request.quantity, request.allowSplit);
    PositiveDraws(Rank(db, request), request.quantity, request.allowSplit);
    CommitEffect(db, request, now, draws);
    assert Allocate(db, request, now).0 == Commit(db, request, now, draws).0;
    assert Allocate(db, request, now).1.value.allocations == draws;
  }
}
