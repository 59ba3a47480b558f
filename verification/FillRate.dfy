/** Fill-rate optimisation: serving a demand from the warehouses with the most stock first. */
module FillRate {
  import opened Sums
  import opened Sorting
  import opened Tables
  import opened Visibility

  type Shares = map<WarehouseId, int>

  datatype FillRateResult = FillRateResult(allocation: Shares, fillRate: real, isFeasible: bool, evaluated: nat)

  function MostFirst(): (VisibleStock, VisibleStock) -> bool {
    (a: VisibleStock, b: VisibleStock) => a.available >= b.available
  }

  function AvailableIn(): VisibleStock -> int { (line: VisibleStock) => line.available }

  function ShareIn(shares: Shares): VisibleStock -> int {
    (line: VisibleStock) => if line.warehouse in shares then shares[line.warehouse] else 0
  }

  function UsedIn(shares: Shares): VisibleStock -> int {
    (line: VisibleStock) => if 0 < ShareIn(shares)(line) then 1 else 0
  }

  function LineKey(): VisibleStock -> WarehouseId { (line: VisibleStock) => line.warehouse }

  /** Takes from each line in turn what the remaining demand asks for. */
  function Greedy(s: seq<VisibleStock>, remaining: int): Shares
    decreases |s|
  {
    if s == [] || remaining <= 0 then map[]
    else
      var share := Min(remaining, s[0].available);
      map[s[0].warehouse := share] + Greedy(s[1..], remaining - share)
  }

  function MinReal(a: real, b: real): real { if a < b then a else b }

  /** The share of the demand that the stock can meet, never more than one. */
  function Rate(total: int, wanted: int): real {
    MinReal(1.0, (total as real) / (Max(wanted, 1) as real))
  }

  method OptimizeFillRate(balances: seq<Balance>, sku: Option<SkuId>, demand: Option<int>)
    returns (result: Option<FillRateResult>)
    ensures result.None? <==> sku.None?
    ensures sku.Some? ==>
              var v := NetworkVisibility(balances, sku.value);
              var total := SumOver(v, AvailableIn());
              var wanted := if demand.Some? then demand.value else total;
              && result.value.allocation == Greedy(Sort(v, MostFirst()), wanted)
              && result.value.fillRate == Rate(total, wanted)
              && result.value.isFeasible == (0.0 < result.value.fillRate)
              && result.value.evaluated == |v|
    ensures sku.Some? ==> ServedFromStock(balances, sku.value, demand, result.value)
  {
    if sku.None? {
      return None;
    }
    hide SumOver, NetworkVisibility, Sort, Greedy, Rate, ServedFromStock;
    var v := NetworkVisibility(balances, sku.value);
    var total := SumOver(v, AvailableIn());
    var wanted := if demand.Some? then demand.value else total;
    var fillRate := Rate(total, wanted);
    var allocation := ServeInOrder(Sort(v, MostFirst()), wanted);
    result := Some(FillRateResult(allocation, fillRate, 0.0 < fillRate, |v|));
    AnswersFromRows(balances, sku.value, demand, result.value);
  }

  /** The loop over the ranked lines, ended by the last line or by the demand. */
  method ServeInOrder(ranked: seq<VisibleStock>, wanted: int) returns (allocation: Shares)
    ensures allocation == Greedy(ranked, wanted)
  {
    hide Greedy;
    allocation := map[];
    var remaining := wanted;
    var i := 0;
    assert ranked[0..] == ranked;
    while i < |ranked| && 0 < remaining
      invariant 0 <= i <= |ranked|
      invariant allocation + Greedy(ranked[i..], remaining) == Greedy(ranked, wanted)
    {
      var share := Min(remaining, ranked[i].available);
      GreedyStep(allocation, ranked, i, remaining);
      allocation := allocation[ranked[i].warehouse := share];
      remaining := remaining - share;
      i := i + 1;
    }
    GreedyDone(allocation, ranked[i..], remaining);
  }

  lemma GreedyStep(taken: Shares, s: seq<VisibleStock>, i: nat, remaining: int)
    requires i < |s| && 0 < remaining
    ensures
      var share := Min(remaining, s[i].available);
      taken + Greedy(s[i..], remaining) == taken[s[i].warehouse := share] + Greedy(s[i + 1..], remaining - share)
  {
    assert s[i..][0] == s[i] && s[i..][1..] == s[i + 1..];
  }

  lemma GreedyDone(taken: Shares, s: seq<VisibleStock>, remaining: int)
    requires s == [] || remaining <= 0
    ensures taken + Greedy(s, remaining) == taken
  {
  }

  ghost predicate Lines(s: seq<VisibleStock>) {
    && DistinctBy(s, LineKey())
    && forall line :: line in s ==> 0 <= line.available
  }

  ghost predicate Named(s: seq<VisibleStock>, w: WarehouseId) {
    exists i :: 0 <= i < |s| && s[i].warehouse == w
  }

  lemma LinesTail(s: seq<VisibleStock>)
    requires Lines(s) && s != []
    ensures Lines(s[1..]) && !Named(s[1..], s[0].warehouse)
    ensures forall line :: line in s[1..] ==> line.warehouse != s[0].warehouse
  {
    forall i, j | 0 <= i < j < |s[1..]| ensures LineKey()(s[1..][i]) != LineKey()(s[1..][j]) {
      assert LineKey()(s[i + 1]) != LineKey()(s[j + 1]);
    }
    forall line | line in s[1..] ensures line.warehouse != s[0].warehouse {
      var i :| 0 <= i < |s[1..]| && s[1..][i] == line;
      assert LineKey()(s[0]) != LineKey()(s[i + 1]);
    }
  }

  lemma {:induction false} GreedyKeys(s: seq<VisibleStock>, remaining: int)
    ensures forall w :: w in Greedy(s, remaining) ==> Named(s, w)
    decreases |s|
  {
    if s != [] && 0 < remaining {
      GreedyKeys(s[1..], remaining - Min(remaining, s[0].available));
      forall w | w in Greedy(s, remaining) ensures Named(s, w) {
        if w != s[0].warehouse {
          assert Named(s[1..], w);
          var i :| 0 <= i < |s[1..]| && s[1..][i].warehouse == w;
          assert s[i + 1].warehouse == w;
        }
      }
    }
  }

  /** The greedy choice is the first line's share and the greedy choice from the rest. */
  lemma GreedyHead(s: seq<VisibleStock>, remaining: int)
    requires Lines(s) && s != [] && 0 < remaining
    ensures
      var share := Min(remaining, s[0].available);
      var all, rest := Greedy(s, remaining), Greedy(s[1..], remaining - share);
      && ShareIn(all)(s[0]) == share
      && SumOver(s, ShareIn(all)) == share + SumOver(s[1..], ShareIn(rest))
      && SumOver(s, UsedIn(all)) == (if 0 < share then 1 else 0) + SumOver(s[1..], UsedIn(rest))
      && SumOver(s, AvailableIn()) == s[0].available + SumOver(s[1..], AvailableIn())
      && (forall line :: line in s[1..] ==> ShareIn(all)(line) == ShareIn(rest)(line))
  {
    hide SumOver, Lines, Named;
    var share := Min(remaining, s[0].available);
    var all, rest := Greedy(s, remaining), Greedy(s[1..], remaining - share);
    LinesTail(s);
    GreedyKeys(s[1..], remaining - share);
    assert forall i :: 0 <= i < |s[1..]| ==> s[1..][i] in s[1..];
    SumCongruence(s[1..], s[1..], ShareIn(all), ShareIn(rest));
    SumCongruence(s[1..], s[1..], UsedIn(all), UsedIn(rest));
    SumCons(s, ShareIn(all));
    SumCons(s, UsedIn(all));
    SumCons(s, AvailableIn());
  }

  lemma EmptyShares(s: seq<VisibleStock>)
    ensures SumOver(s, ShareIn(map[])) == 0 && SumOver(s, UsedIn(map[])) == 0
    ensures s == [] ==> SumOver(s, AvailableIn()) == 0
  {
    SumZero(s, ShareIn(map[]));
    SumZero(s, UsedIn(map[]));
  }

  lemma {:induction false} GreedyTotal(s: seq<VisibleStock>, remaining: int)
    requires Lines(s)
    ensures SumOver(s, ShareIn(Greedy(s, remaining))) == Max(0, Min(remaining, SumOver(s, AvailableIn())))
    decreases |s|
  {
    hide SumOver, Lines;
    LinesHold(s);
    if s == [] || remaining <= 0 {
      EmptyShares(s);
    } else {
      hide Greedy;
      LinesTail(s);
      GreedyHead(s, remaining);
      GreedyTotal(s[1..], remaining - Min(remaining, s[0].available));
      LinesHold(s[1..]);
    }
  }

  lemma {:induction false} GreedyWithin(s: seq<VisibleStock>, remaining: int)
    requires Lines(s)
    ensures Feasible(s, Greedy(s, remaining))
    decreases |s|
  {
    hide SumOver, Lines;
    LinesHold(s);
    if s != [] && 0 < remaining {
      hide Greedy;
      var share := Min(remaining, s[0].available);
      var all, rest := Greedy(s, remaining), Greedy(s[1..], remaining - share);
      LinesTail(s);
      GreedyHead(s, remaining);
      GreedyWithin(s[1..], remaining - share);
      hide ShareIn;
      forall line | line in s ensures 0 <= ShareIn(all)(line) <= line.available {
        if line != s[0] {
          assert line in s[1..] && 0 <= ShareIn(rest)(line) <= line.available;
        }
      }
    }
  }

  /** The greedy choice covers as much of the demand as there is stock, and no line beyond its availability. */
  lemma GreedyCovers(s: seq<VisibleStock>, remaining: int)
    requires Lines(s)
    ensures SumOver(s, ShareIn(Greedy(s, remaining))) == Max(0, Min(remaining, SumOver(s, AvailableIn())))
    ensures forall line :: line in s ==> 0 <= ShareIn(Greedy(s, remaining))(line) <= line.available
  {
    GreedyTotal(s, remaining);
    GreedyWithin(s, remaining);
  }

  lemma LinesHold(s: seq<VisibleStock>)
    requires Lines(s)
    ensures 0 <= SumOver(s, AvailableIn())
    ensures forall line :: line in s ==> 0 <= line.available
  {
    SumNonNegative(s, AvailableIn());
  }

  /** Any way of serving from the lines, within what each has. */
  ghost predicate Feasible(s: seq<VisibleStock>, shares: Shares) {
    forall line :: line in s ==> 0 <= ShareIn(shares)(line) <= line.available
  }

  ghost predicate Descending(s: seq<VisibleStock>) {
    forall i, j :: 0 <= i < j < |s| ==> s[i].available >= s[j].available
  }

  lemma TailOf(s: seq<VisibleStock>, shares: Shares)
    requires Descending(s) && s != []
    ensures Descending(s[1..])
    ensures Feasible(s, shares) ==> Feasible(s[1..], shares) && 0 <= ShareIn(shares)(s[0]) <= s[0].available
  {
    forall i, j | 0 <= i < j < |s[1..]| ensures s[1..][i].available >= s[1..][j].available {
      assert s[i + 1].available >= s[j + 1].available;
    }
    assert s[0] in s && forall line :: line in s[1..] ==> line in s;
  }

  lemma FirstOnes(s: seq<VisibleStock>, c: nat)
    requires c < |s|
    ensures SumOver(s[..c + 1], AvailableIn()) == s[0].available + SumOver(s[1..][..c], AvailableIn())
  {
    SumCons(s[..c + 1], AvailableIn());
    assert s[..c + 1][1..] == s[1..][..c];
  }

  /** With the largest lines first, `c` used lines serve no more than the first `c` lines hold. */
  lemma {:induction false} UsedBoundsServed(s: seq<VisibleStock>, shares: Shares)
    requires Descending(s) && Feasible(s, shares)
    ensures 0 <= SumOver(s, UsedIn(shares)) <= |s|
    ensures SumOver(s, ShareIn(shares)) <= SumOver(s[..SumOver(s, UsedIn(shares))], AvailableIn())
    decreases |s|
  {
    if s != [] {
      hide SumOver, Descending, Feasible;
      TailOf(s, shares);
      UsedBoundsServed(s[1..], shares);
      SumCons(s, UsedIn(shares));
      SumCons(s, ShareIn(shares));
      var c := SumOver(s[1..], UsedIn(shares));
      if UsedIn(shares)(s[0]) == 1 {
        FirstOnes(s, c);
      } else {
        Shift(s, c);
      }
    }
  }

  /** Dropping the first line of a descending list does not raise the sum of the first `c`. */
  lemma Shift(s: seq<VisibleStock>, c: nat)
    requires Descending(s) && c < |s|
    ensures SumOver(s[1..][..c], AvailableIn()) <= SumOver(s[..c], AvailableIn())
  {
    var a, b := s[1..][..c], s[..c];
    var i := 0;
    while i < c
      invariant 0 <= i <= c
      invariant SumOver(a[..i], AvailableIn()) <= SumOver(b[..i], AvailableIn())
    {
      SumPrefix(a, i, AvailableIn());
      SumPrefix(b, i, AvailableIn());
      assert b[i].available >= a[i].available;
      i := i + 1;
    }
    assert a[..c] == a && b[..c] == b;
  }

  /** Fewer lines than the greedy choice uses cannot hold as much as it serves. */
  lemma {:induction false} FewerLinesServeLess(s: seq<VisibleStock>, remaining: int, c: nat)
    requires Lines(s) && Descending(s) && c <= |s|
    requires c < SumOver(s, UsedIn(Greedy(s, remaining)))
    ensures SumOver(s[..c], AvailableIn()) < SumOver(s, ShareIn(Greedy(s, remaining)))
    decreases |s|
  {
    hide SumOver, Lines, Descending;
    EmptyShares(s);
    EmptyShares(s[..0]);
    assert s != [] && 0 < remaining;
    hide Greedy, AvailableIn, ShareIn, UsedIn, Feasible;
    var share := Min(remaining, s[0].available);
    GreedyHead(s, remaining);
    LinesHold(s);
    if s[0].available == 0 {
      NothingUsedOfNothing(s, remaining);
    } else {
      LinesTail(s);
      TailOf(s, map[]);
      GreedyTotal(s[1..], remaining - share);
      LinesHold(s[1..]);
      if 0 < c {
        NothingAfterDemand(s[1..], remaining - share);
        FewerLinesServeLess(s[1..], remaining - share, c - 1);
        FirstOnes(s, c - 1);
      }
    }
  }

  /** Where the largest line is empty, the greedy choice uses none. */
  lemma NothingUsedOfNothing(s: seq<VisibleStock>, remaining: int)
    requires Lines(s) && Descending(s) && s != [] && 0 < remaining && s[0].available == 0
    ensures SumOver(s, UsedIn(Greedy(s, remaining))) == 0
  {
    hide SumOver, Lines, Descending, Greedy;
    LinesTail(s);
    GreedyHead(s, remaining);
    GreedyTotal(s[1..], remaining);
    GreedyWithin(s[1..], remaining);
    NothingBehindZero(s);
    ZeroUsed(s[1..], Greedy(s[1..], remaining));
  }

  lemma NothingBehindZero(s: seq<VisibleStock>)
    requires Lines(s) && Descending(s) && s != [] && s[0].available == 0
    ensures SumOver(s[1..], AvailableIn()) == 0
  {
    forall i | 0 <= i < |s[1..]| ensures AvailableIn()(s[1..][i]) == 0 {
      assert s[i + 1] in s;
    }
    SumZero(s[1..], AvailableIn());
  }

  lemma NothingAfterDemand(s: seq<VisibleStock>, remaining: int)
    ensures remaining <= 0 ==> SumOver(s, UsedIn(Greedy(s, remaining))) == 0
  {
    EmptyShares(s);
  }

  lemma ZeroUsed(s: seq<VisibleStock>, shares: Shares)
    requires Feasible(s, shares) && SumOver(s, ShareIn(shares)) == 0
    ensures SumOver(s, UsedIn(shares)) == 0
  {
    forall i | 0 <= i < |s| ensures UsedIn(shares)(s[i]) == 0 {
      SumCoversElement(s, i, ShareIn(shares));
    }
    SumZero(s, UsedIn(shares));
  }

  // ----- the main results

  lemma RankedLines(v: seq<VisibleStock>)
    requires Lines(v)
    ensures Lines(Sort(v, MostFirst())) && Descending(Sort(v, MostFirst()))
  {
    var s := Sort(v, MostFirst());
    SortKeepsDistinct(v, MostFirst(), LineKey());
    SortMembers(v, MostFirst());
    SortSorts(v, MostFirst());
    forall i, j | 0 <= i < j < |s| ensures s[i].available >= s[j].available {
      assert MostFirst()(s[i], s[j]);
    }
  }

  function Showing(x: int): VisibleStock -> bool { (line: VisibleStock) => line.available == x }

  /** Warehouses with as much stock are drawn on in the order they were listed. */
  lemma EqualStockAsListed(v: seq<VisibleStock>, x: int)
    ensures Where(Sort(v, MostFirst()), Showing(x)) == Where(v, Showing(x))
  {
    SortStable(v, MostFirst(), Showing(x));
  }

  /** The optimiser serves the whole demand or all the stock, within each warehouse's availability. */
  lemma ServesAllItCan(v: seq<VisibleStock>, demand: int)
    requires Lines(v)
    ensures
      var shares := Greedy(Sort(v, MostFirst()), demand);
      && SumOver(v, ShareIn(shares)) == Max(0, Min(demand, SumOver(v, AvailableIn())))
      && Feasible(v, shares)
  {
    var s := Sort(v, MostFirst());
    RankedLines(v);
    GreedyCovers(s, demand);
    SortMembers(v, MostFirst());
    SortSum(v, MostFirst(), ShareIn(Greedy(s, demand)));
    SortSum(v, MostFirst(), AvailableIn());
  }

  /** No other way of serving as much uses fewer warehouses. */
  lemma UsesFewestWarehouses(v: seq<VisibleStock>, demand: int, other: Shares)
    requires Lines(v) && Feasible(v, other)
    requires SumOver(v, ShareIn(Greedy(Sort(v, MostFirst()), demand))) <= SumOver(v, ShareIn(other))
    ensures SumOver(v, UsedIn(Greedy(Sort(v, MostFirst()), demand))) <= SumOver(v, UsedIn(other))
  {
    var s := Sort(v, MostFirst());
    var shares := Greedy(s, demand);
    RankedLines(v);
    SortMembers(v, MostFirst());
    SortSum(v, MostFirst(), ShareIn(shares));
    SortSum(v, MostFirst(), ShareIn(other));
    SortSum(v, MostFirst(), UsedIn(shares));
    SortSum(v, MostFirst(), UsedIn(other));
    UsedBoundsServed(s, other);
    if SumOver(s, UsedIn(other)) < SumOver(s, UsedIn(shares)) {
      FewerLinesServeLess(s, demand, SumOver(s, UsedIn(other)));
    }
  }

  /** For a demand of at least one unit, what is served is the reported fill rate of the demand. */
  lemma FillRateIsHonest(v: seq<VisibleStock>, demand: int)
    requires Lines(v) && 1 <= demand
    ensures SumOver(v, ShareIn(Greedy(Sort(v, MostFirst()), demand))) as real
         == Rate(SumOver(v, AvailableIn()), demand) * (demand as real)
  {
    hide SumOver, Greedy, Sort;
    ServesAllItCan(v, demand);
    SumNonNegative(v, AvailableIn());
    RateOfDemand(SumOver(v, AvailableIn()) as real, demand as real);
  }

  lemma RateOfDemand(total: real, demand: real)
    requires 0.0 < demand && 0.0 <= total
    ensures MinReal(1.0, total / demand) * demand == MinReal(demand, total)
  {
    var rate := total / demand;
    assert rate * demand == total;
    Scale(rate, demand);
  }

  lemma Scale(rate: real, demand: real)
    requires 0.0 < demand
    ensures rate * demand < demand <==> rate < 1.0
  {
    assert rate * demand - demand == (rate - 1.0) * demand;
  }

  /** Said of the balance rows: each share comes from a warehouse that has the SKU, is no more than is left there after
      reservations and the rest, and together the shares are the demand or all there is. Without a demand all is served.
      The rate is one when the stock meets the demand, and otherwise the part of it that the stock meets. */
  ghost predicate ServedFromStock(balances: seq<Balance>, sku: SkuId, demand: Option<int>, result: FillRateResult) {
    var v := NetworkVisibility(balances, sku);
    var total := SumOver(v, AvailableIn());
    var wanted := if demand.Some? then demand.value else total;
    && (forall w :: w in result.allocation ==>
          Stocks(balances, w, sku) && 0 <= result.allocation[w] <= Max(0, RawSum(balances, w, sku)))
    && SumOver(v, ShareIn(result.allocation)) == Max(0, Min(wanted, total))
    && (result.fillRate == 1.0 <==> Max(wanted, 1) <= total)
    && (total < Max(wanted, 1) ==> result.fillRate * (Max(wanted, 1) as real) == total as real)
    && (result.isFeasible <==> 0 < total)
  }

  lemma RateBounds(total: int, wanted: int)
    ensures Rate(total, wanted) == 1.0 <==> Max(wanted, 1) <= total
    ensures total < Max(wanted, 1) ==> Rate(total, wanted) * (Max(wanted, 1) as real) == total as real
    ensures 0.0 < Rate(total, wanted) <==> 0 < total
  {
    var d := Max(wanted, 1) as real;
    var q := (total as real) / d;
    assert q * d == total as real;
    Scale(q, d);
    assert q == 1.0 ==> q * d == d;
    assert 0.0 < q <==> 0.0 < q * d;
  }

  lemma AnswersFromRows(balances: seq<Balance>, sku: SkuId, demand: Option<int>, result: FillRateResult)
    requires
      var v := NetworkVisibility(balances, sku);
      var total := SumOver(v, AvailableIn());
      var wanted := if demand.Some? then demand.value else total;
      result ==
      FillRateResult(Greedy(Sort(v, MostFirst()), wanted), Rate(total, wanted), 0.0 < Rate(total, wanted), |v|)
    ensures ServedFromStock(balances, sku, demand, result)
  {
    hide SumOver, NetworkVisibility, Sort, Greedy, Rate, Stocks;
    var total := SumOver(NetworkVisibility(balances, sku), AvailableIn());
    var wanted := if demand.Some? then demand.value else total;
    ServesFromRows(balances, sku, wanted);
    RateBounds(total, wanted);
  }

  lemma ServesFromRows(balances: seq<Balance>, sku: SkuId, wanted: int)
    ensures
      var v := NetworkVisibility(balances, sku);
      var shares := Greedy(Sort(v, MostFirst()), wanted);
      && (forall w :: w in shares ==>
            Stocks(balances, w, sku) && 0 <= shares[w] <= Max(0, RawSum(balances, w, sku)))
      && SumOver(v, ShareIn(shares)) == Max(0, Min(wanted, SumOver(v, AvailableIn())))
  {
    hide SumOver, NetworkVisibility, Sort, Greedy, Stocks, Lines;
    var v := NetworkVisibility(balances, sku);
    var s := Sort(v, MostFirst());
    var shares := Greedy(s, wanted);
    VisibilityLists(balances, sku);
    VisibleLines(balances, sku);
    ServesAllItCan(v, wanted);
    GreedyKeys(s, wanted);
    SortMembers(v, MostFirst());
    forall w | w in shares ensures Stocks(balances, w, sku) && 0 <= shares[w] <= Max(0, RawSum(balances, w, sku)) {
      assert Named(s, w);
      var i :| 0 <= i < |s| && s[i].warehouse == w;
      assert s[i] in s && s[i] in v;
      var n :| 0 <= n < |v| && v[n] == s[i];
      assert Shows(v, w);
      assert ShareIn(shares)(v[n]) == shares[w];
    }
  }

  /** The lines of a network visibility are lines the results above apply to. */
  lemma VisibleLines(balances: seq<Balance>, sku: SkuId)
    ensures Lines(NetworkVisibility(balances, sku))
  {
    VisibilityLists(balances, sku);
    var v := NetworkVisibility(balances, sku);
    forall line | line in v ensures 0 <= line.available {
      var i :| 0 <= i < |v| && v[i] == line;
    }
  }
}
