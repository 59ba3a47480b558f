/** The stable sort behind `list.sort` and `sorted`, as an insertion sort on a comparison. */
module Sorting {
  import opened Sums

  ghost predicate TotalPreorder<T(!new)>(leq: (T, T) -> bool) {
    && (forall a, b :: leq(a, b) || leq(b, a))
    && (forall a, b, c :: leq(a, b) && leq(b, c) ==> leq(a, c))
  }

  ghost predicate SortedBy<T>(s: seq<T>, leq: (T, T) -> bool) {
    forall i, j :: 0 <= i < j < |s| ==> leq(s[i], s[j])
  }

  function Insert<T>(x: T, s: seq<T>, leq: (T, T) -> bool): seq<T> {
    if s == [] then [x]
    else if leq(x, s[0]) then [x] + s
    else [s[0]] + Insert(x, s[1..], leq)
  }

  function Sort<T>(s: seq<T>, leq: (T, T) -> bool): seq<T> {
    if s == [] then [] else Insert(s[0], Sort(s[1..], leq), leq)
  }

  lemma {:induction false} InsertPermutes<T>(x: T, s: seq<T>, leq: (T, T) -> bool)
    ensures multiset(Insert(x, s, leq)) == multiset(s) + multiset{x}
    decreases |s|
  {
    if s != [] {
      assert s == [s[0]] + s[1..];
      if !leq(x, s[0]) {
        InsertPermutes(x, s[1..], leq);
      }
    }
  }

  lemma {:induction false} SortPermutes<T>(s: seq<T>, leq: (T, T) -> bool)
    ensures multiset(Sort(s, leq)) == multiset(s)
    ensures |Sort(s, leq)| == |s|
    decreases |s|
  {
    if s != [] {
      assert s == [s[0]] + s[1..];
      SortPermutes(s[1..], leq);
      InsertPermutes(s[0], Sort(s[1..], leq), leq);
    }
    assert |multiset(Sort(s, leq))| == |Sort(s, leq)|;
  }

  lemma {:induction false} InsertSorts<T(!new)>(x: T, s: seq<T>, leq: (T, T) -> bool)
    requires TotalPreorder(leq) && SortedBy(s, leq)
    ensures SortedBy(Insert(x, s, leq), leq)
    decreases |s|
  {
    if s != [] && !leq(x, s[0]) {
      assert leq(s[0], x);
      InsertSorts(x, s[1..], leq);
      var t := Insert(x, s[1..], leq);
      forall j | 0 <= j < |t| ensures leq(s[0], t[j]) {
        InsertPermutes(x, s[1..], leq);
        assert t[j] in multiset(t);
        if t[j] != x {
          assert t[j] in s[1..];
        }
      }
    }
  }

  lemma {:induction false} SortSorts<T(!new)>(s: seq<T>, leq: (T, T) -> bool)
    requires TotalPreorder(leq)
    ensures SortedBy(Sort(s, leq), leq)
    decreases |s|
  {
    if s != [] {
      SortSorts(s[1..], leq);
      InsertSorts(s[0], Sort(s[1..], leq), leq);
    }
  }

  lemma {:induction false} InsertSum<T>(x: T, s: seq<T>, leq: (T, T) -> bool, f: T -> int)
    ensures SumOver(Insert(x, s, leq), f) == f(x) + SumOver(s, f)
    decreases |s|
  {
    var t := Insert(x, s, leq);
    SumCons(t, f);
    if s == [] {
      assert t[1..] == [];
    } else if leq(x, s[0]) {
      assert t[1..] == s;
    } else {
      assert t[1..] == Insert(x, s[1..], leq);
      InsertSum(x, s[1..], leq, f);
      SumCons(s, f);
    }
  }

  /** Sorting does not change a sum. */
  lemma {:induction false} SortSum<T>(s: seq<T>, leq: (T, T) -> bool, f: T -> int)
    ensures SumOver(Sort(s, leq), f) == SumOver(s, f)
    decreases |s|
  {
    if s != [] {
      InsertSum(s[0], Sort(s[1..], leq), leq, f);
      SortSum(s[1..], leq, f);
      SumCons(s, f);
    }
  }

  lemma {:induction false} InsertRealSum<T>(x: T, s: seq<T>, leq: (T, T) -> bool, f: T -> real)
    ensures RealSumOver(Insert(x, s, leq), f) == f(x) + RealSumOver(s, f)
    decreases |s|
  {
    var t := Insert(x, s, leq);
    RealSumCons(t, f);
    if s == [] {
      assert t[1..] == [];
    } else if leq(x, s[0]) {
      assert t[1..] == s;
    } else {
      assert t[1..] == Insert(x, s[1..], leq);
      InsertRealSum(x, s[1..], leq, f);
      RealSumCons(s, f);
    }
  }

  lemma {:induction false} SortRealSum<T>(s: seq<T>, leq: (T, T) -> bool, f: T -> real)
    ensures RealSumOver(Sort(s, leq), f) == RealSumOver(s, f)
    decreases |s|
  {
    if s != [] {
      InsertRealSum(s[0], Sort(s[1..], leq), leq, f);
      SortRealSum(s[1..], leq, f);
      RealSumCons(s, f);
    }
  }

  lemma SortMembers<T>(s: seq<T>, leq: (T, T) -> bool)
    ensures forall x :: x in Sort(s, leq) <==> x in s
  {
    SortPermutes(s, leq);
    forall x ensures x in Sort(s, leq) <==> x in s {
      assert x in multiset(Sort(s, leq)) <==> x in multiset(s);
    }
  }

  /** Distinctness of a key survives sorting. */
  ghost predicate DistinctBy<T, K>(s: seq<T>, key: T -> K) {
    forall i, j :: 0 <= i < j < |s| ==> key(s[i]) != key(s[j])
  }

  lemma {:induction false} InsertKeepsDistinct<T, K>(x: T, s: seq<T>, leq: (T, T) -> bool, key: T -> K)
    requires DistinctBy(s, key)
    requires forall y :: y in s ==> key(y) != key(x)
    ensures DistinctBy(Insert(x, s, leq), key)
    decreases |s|
  {
    if s != [] && !leq(x, s[0]) {
      InsertKeepsDistinct(x, s[1..], leq, key);
      var t := Insert(x, s[1..], leq);
      InsertPermutes(x, s[1..], leq);
      forall j | 0 <= j < |t| ensures key(s[0]) != key(t[j]) {
        assert t[j] in multiset(t);
        if t[j] != x {
          assert t[j] in s[1..];
        }
      }
    }
  }

  lemma {:induction false} SortKeepsDistinct<T, K>(s: seq<T>, leq: (T, T) -> bool, key: T -> K)
    requires DistinctBy(s, key)
    ensures DistinctBy(Sort(s, leq), key)
    decreases |s|
  {
    if s != [] {
      SortKeepsDistinct(s[1..], leq, key);
      var t := Sort(s[1..], leq);
      SortPermutes(s[1..], leq);
      forall y | y in t ensures key(y) != key(s[0]) {
        assert y in multiset(t);
        assert y in s[1..];
      }
      InsertKeepsDistinct(s[0], t, leq, key);
    }
  }

  // ----- stability

  function Where<T>(s: seq<T>, keep: T -> bool): seq<T> {
    if s == [] then [] else (if keep(s[0]) then [s[0]] else []) + Where(s[1..], keep)
  }

  lemma {:induction false} InsertStable<T>(x: T, s: seq<T>, leq: (T, T) -> bool, alike: T -> bool)
    requires forall a, b :: alike(a) && alike(b) ==> leq(a, b)
    ensures Where(Insert(x, s, leq), alike) == (if alike(x) then [x] else []) + Where(s, alike)
    decreases |s|
  {
    if s != [] && !leq(x, s[0]) {
      InsertStable(x, s[1..], leq, alike);
    }
  }

  /** Elements that compare as equal keep their order. */
  lemma {:induction false} SortStable<T>(s: seq<T>, leq: (T, T) -> bool, alike: T -> bool)
    requires forall a, b :: alike(a) && alike(b) ==> leq(a, b)
    ensures Where(Sort(s, leq), alike) == Where(s, alike)
    decreases |s|
  {
    if s != [] {
      SortStable(s[1..], leq, alike);
      InsertStable(s[0], Sort(s[1..], leq), leq, alike);
    }
  }

  // ----- positions picked out of a list

  /** `at` lists, in ascending order, exactly the positions below `n` that are kept. */
  ghost predicate Picks(at: seq<nat>, n: nat, keep: nat -> bool) {
    && (forall a, b :: 0 <= a < b < |at| ==> at[a] < at[b])
    && (forall j :: 0 <= j < |at| ==> at[j] < n && keep(at[j]))
    && forall i: nat :: i < n && keep(i) ==> i in at
  }

  lemma PickNext(at: seq<nat>, n: nat, keep: nat -> bool)
    requires Picks(at, n, keep)
    ensures Picks(if keep(n) then at + [n] else at, n + 1, keep)
  {
    if keep(n) {
      assert (at + [n])[|at|] == n;
    }
  }

  lemma PickAlike(at: seq<nat>, n: nat, keep: nat -> bool, other: nat -> bool)
    requires Picks(at, n, keep) && forall i: nat :: i < n ==> (keep(i) <==> other(i))
    ensures Picks(at, n, other)
  {
  }

  /** `found` holds one entry for each kept position below `n`, in order. */
  ghost predicate Gathers<U>(found: seq<U>, at: seq<nat>, n: nat, keep: nat -> bool, entry: nat -> U) {
    && Picks(at, n, keep) && |found| == |at|
    && forall j :: 0 <= j < |at| ==> found[j] == entry(at[j])
  }

  lemma GatherNothing<U>(keep: nat -> bool, entry: nat -> U)
    ensures Gathers([], [], 0, keep, entry)
  {
  }

  lemma GatherNext<U>(found: seq<U>, at: seq<nat>, n: nat, keep: nat -> bool, entry: nat -> U)
      returns (longer: seq<nat>)
    requires Gathers(found, at, n, keep, entry)
    ensures Gathers(if keep(n) then found + [entry(n)] else found, longer, n + 1, keep, entry)
  {
    longer := if keep(n) then at + [n] else at;
    PickNext(at, n, keep);
  }

  lemma GatherAlike<U>(found: seq<U>, at: seq<nat>, n: nat, keep: nat -> bool, entry: nat -> U,
                       other: nat -> bool, entry': nat -> U)
    requires Gathers(found, at, n, keep, entry)
    requires forall i: nat :: i < n ==> (keep(i) <==> other(i)) && entry(i) == entry'(i)
    ensures Gathers(found, at, n, other, entry')
  {
    PickAlike(at, n, keep, other);
  }
}
