/** The network visibility query: one line per warehouse that has a row of the SKU. */
module Visibility {
  import opened Sums
  import opened Tables

  datatype VisibleStock = VisibleStock(warehouse: WarehouseId, onHand: int, reserved: int, available: int)

  /** The groups of the query, in order of first appearance. */
  function Groups(bs: seq<Balance>, k: SkuId): (ws: seq<WarehouseId>)
    ensures forall i, j :: 0 <= i < j < |ws| ==> ws[i] != ws[j]
    ensures forall w :: w in ws <==> exists i :: 0 <= i < |bs| && bs[i].At(w, k)
  {
    if bs == [] then []
    else
      var n := |bs| - 1;
      var front := Groups(bs[..n], k);
      assert forall w :: (exists i :: 0 <= i < |bs| && bs[i].At(w, k)) <==>
        (exists i :: 0 <= i < n && bs[..n][i].At(w, k)) || bs[n].At(w, k);
      if bs[n].sku == k && bs[n].warehouse !in front then front + [bs[n].warehouse] else front
  }

  function VisibleAt(bs: seq<Balance>, k: SkuId, w: WarehouseId): VisibleStock {
    VisibleStock(w, OnHandSum(bs, w, k), ReservedSum(bs, w, k), AggregatedAvailable(bs, w, k))
  }

  function NetworkVisibility(bs: seq<Balance>, k: SkuId): seq<VisibleStock> {
    var ws := Groups(bs, k);
    seq(|ws|, i requires 0 <= i < |ws| => VisibleAt(bs, k, ws[i]))
  }

  ghost predicate Stocks(bs: seq<Balance>, w: WarehouseId, k: SkuId) {
    exists i :: 0 <= i < |bs| && bs[i].At(w, k)
  }

  ghost predicate Shows(v: seq<VisibleStock>, w: WarehouseId) {
    exists i :: 0 <= i < |v| && v[i].warehouse == w
  }

  ghost predicate DistinctLines(v: seq<VisibleStock>) {
    forall i, j :: 0 <= i < j < |v| ==> v[i].warehouse != v[j].warehouse
  }

  /** Each warehouse with a row of the SKU appears once, with the sums over its own rows: what stands there, what is
      reserved, and what is left of it after reservations, allocations, damage and quarantine, if anything. */
  lemma VisibilityLists(bs: seq<Balance>, k: SkuId)
    ensures
      var v := NetworkVisibility(bs, k);
      && DistinctLines(v)
      && (forall i :: 0 <= i < |v| ==>
            var w := v[i].warehouse;
            v[i] == VisibleStock(w, OnHandSum(bs, w, k), ReservedSum(bs, w, k), Max(0, RawSum(bs, w, k))))
      && (forall w :: Stocks(bs, w, k) <==> Shows(v, w))
  {
    var v := NetworkVisibility(bs, k);
    var ws := Groups(bs, k);
    forall w ensures Stocks(bs, w, k) <==> Shows(v, w) {
      if w in ws {
        var i :| 0 <= i < |ws| && ws[i] == w;
        assert v[i].warehouse == w;
      }
    }
  }

  /** Two tables that agree on every row of the SKU show the same visibility. */
  ghost predicate SameFor(before: seq<Balance>, after: seq<Balance>, k: SkuId) {
    && |before| == |after|
    && forall i :: 0 <= i < |before| ==> after[i] == before[i] || (before[i].sku != k && after[i].sku != k)
  }

  lemma {:induction false} GroupsSame(before: seq<Balance>, after: seq<Balance>, k: SkuId)
    requires SameFor(before, after, k)
    ensures Groups(before, k) == Groups(after, k)
    decreases |before|
  {
    if before != [] {
      GroupsSame(before[..|before| - 1], after[..|after| - 1], k);
    }
  }

  lemma VisibilitySame(before: seq<Balance>, after: seq<Balance>, k: SkuId)
    requires SameFor(before, after, k)
    ensures NetworkVisibility(before, k) == NetworkVisibility(after, k)
  {
    GroupsSame(before, after, k);
    forall w ensures VisibleAt(before, k, w) == VisibleAt(after, k, w) {
      SumCongruence(before, after, OnHandAt(w, k), OnHandAt(w, k));
      SumCongruence(before, after, ReservedAt(w, k), ReservedAt(w, k));
      SumCongruence(before, after, RawAt(w, k), RawAt(w, k));
    }
  }

  /** A new row of another SKU does not show either. */
  lemma VisibilityIgnoresNewRow(bs: seq<Balance>, row: Balance, k: SkuId)
    requires row.sku != k
    ensures NetworkVisibility(bs + [row], k) == NetworkVisibility(bs, k)
  {
    assert (bs + [row])[..|bs|] == bs;
    forall w ensures VisibleAt(bs + [row], k, w) == VisibleAt(bs, k, w) {
      SumSnoc(bs, row, OnHandAt(w, k));
      SumSnoc(bs, row, ReservedAt(w, k));
      SumSnoc(bs, row, RawAt(w, k));
    }
  }
}
