/** Sums over sequences of table rows, with the few laws the ledger proofs use. */
module Sums {

  function Min(a: int, b: int): int { if a < b then a else b }

  function Max(a: int, b: int): int { if a < b then b else a }

  /** The sum of `f` over `s`, the last element peeled off first. */
  function SumOver<T>(s: seq<T>, f: T -> int): int {
    if s == [] then 0 else SumOver(s[..|s| - 1], f) + f(s[|s| - 1])
  }

  /** The same for amounts of money and weights. */
  function RealSumOver<T>(s: seq<T>, f: T -> real): real {
    if s == [] then 0.0 else RealSumOver(s[..|s| - 1], f) + f(s[|s| - 1])
  }

  lemma SumSnoc<T>(s: seq<T>, x: T, f: T -> int)
    ensures SumOver(s + [x], f) == SumOver(s, f) + f(x)
  {
    assert (s + [x])[..|s|] == s;
  }

  lemma SumPrefix<T>(s: seq<T>, i: nat, f: T -> int)
    requires i < |s|
    ensures SumOver(s[..i + 1], f) == SumOver(s[..i], f) + f(s[i])
  {
    assert s[..i + 1][..i] == s[..i];
  }

  lemma {:induction false} SumConcat<T>(a: seq<T>, b: seq<T>, f: T -> int)
    ensures SumOver(a + b, f) == SumOver(a, f) + SumOver(b, f)
    decreases |b|
  {
    if b == [] {
      assert a + b == a;
    } else {
      var k := |b| - 1;
      assert (a + b)[..|a| + k] == a + b[..k];
      SumConcat(a, b[..k], f);
    }
  }

  lemma SumCons<T>(s: seq<T>, f: T -> int)
    requires s != []
    ensures SumOver(s, f) == f(s[0]) + SumOver(s[1..], f)
  {
    assert s == [s[0]] + s[1..];
    SumConcat([s[0]], s[1..], f);
    assert [s[0]][..0] == [];
  }

  /** Replacing one element changes the sum by the difference of the two values. */
  lemma {:induction false} SumUpdate<T>(s: seq<T>, i: nat, x: T, f: T -> int)
    requires i < |s|
    ensures SumOver(s[i := x], f) == SumOver(s, f) - f(s[i]) + f(x)
    decreases |s|
  {
    var k := |s| - 1;
    if i == k {
      assert s[i := x][..k] == s[..k];
    } else {
      assert s[i := x][..k] == s[..k][i := x];
      SumUpdate(s[..k], i, x, f);
    }
  }

  /** Two sequences on which `f` and `g` agree place by place have the same sum. */
  lemma {:induction false} SumCongruence<T, U>(s: seq<T>, t: seq<U>, f: T -> int, g: U -> int)
    requires |s| == |t|
    requires forall i :: 0 <= i < |s| ==> f(s[i]) == g(t[i])
    ensures SumOver(s, f) == SumOver(t, g)
    decreases |s|
  {
    if s != [] {
      var k := |s| - 1;
      forall i | 0 <= i < k ensures f(s[..k][i]) == g(t[..k][i]) {
        assert f(s[i]) == g(t[i]);
      }
      SumCongruence(s[..k], t[..k], f, g);
    }
  }

  lemma {:induction false} SumNonNegative<T>(s: seq<T>, f: T -> int)
    requires forall x :: x in s ==> 0 <= f(x)
    ensures 0 <= SumOver(s, f)
    decreases |s|
  {
    if s != [] {
      var k := |s| - 1;
      assert s[k] in s;
      SumNonNegative(s[..k], f);
    }
  }

  /** A sum of non-negative values covers each of them. */
  lemma {:induction false} SumCoversElement<T>(s: seq<T>, i: nat, f: T -> int)
    requires i < |s|
    requires forall x :: x in s ==> 0 <= f(x)
    ensures f(s[i]) <= SumOver(s, f)
    decreases |s|
  {
    var k := |s| - 1;
    assert s[k] in s;
    if i == k {
      SumNonNegative(s[..k], f);
    } else {
      SumCoversElement(s[..k], i, f);
    }
  }

  /** When only position `i` contributes, the sum is its value. */
  lemma SumSingle<T>(s: seq<T>, i: nat, f: T -> int)
    requires i < |s|
    requires forall j :: 0 <= j < |s| && j != i ==> f(s[j]) == 0
    ensures SumOver(s, f) == f(s[i])
  {
    SumZero(s[..i], f);
    SumZero(s[i + 1..], f);
    assert s == s[..i] + ([s[i]] + s[i + 1..]);
    SumConcat(s[..i], [s[i]] + s[i + 1..], f);
    SumCons([s[i]] + s[i + 1..], f);
  }

  lemma {:induction false} SumZero<T>(s: seq<T>, f: T -> int)
    requires forall i :: 0 <= i < |s| ==> f(s[i]) == 0
    ensures SumOver(s, f) == 0
    decreases |s|
  {
    if s != [] {
      var k := |s| - 1;
      forall i | 0 <= i < k ensures f(s[..k][i]) == 0 {
        assert f(s[i]) == 0;
      }
      SumZero(s[..k], f);
    }
  }

  lemma {:induction false} SumMonotone<T>(s: seq<T>, f: T -> int, g: T -> int)
    requires forall i :: 0 <= i < |s| ==> f(s[i]) <= g(s[i])
    ensures SumOver(s, f) <= SumOver(s, g)
    decreases |s|
  {
    if s != [] {
      var k := |s| - 1;
      forall i | 0 <= i < k ensures f(s[..k][i]) <= g(s[..k][i]) {
        assert f(s[i]) <= g(s[i]);
      }
      SumMonotone(s[..k], f, g);
    }
  }

  lemma {:induction false} SumAdd<T>(s: seq<T>, f: T -> int, g: T -> int, h: T -> int)
    requires forall i :: 0 <= i < |s| ==> f(s[i]) == g(s[i]) + h(s[i])
    ensures SumOver(s, f) == SumOver(s, g) + SumOver(s, h)
    decreases |s|
  {
    if s != [] {
      var k := |s| - 1;
      forall i | 0 <= i < k ensures f(s[..k][i]) == g(s[..k][i]) + h(s[..k][i]) {
        assert s[..k][i] == s[i];
      }
      SumAdd(s[..k], f, g, h);
    }
  }

  /** Terms that never exceed others and reach the same sum are the same. */
  lemma {:induction false} SumTight<T>(s: seq<T>, f: T -> int, g: T -> int)
    requires forall i :: 0 <= i < |s| ==> f(s[i]) <= g(s[i])
    requires SumOver(s, f) == SumOver(s, g)
    ensures forall i :: 0 <= i < |s| ==> f(s[i]) == g(s[i])
    decreases |s|
  {
    if s != [] {
      var k := |s| - 1;
      forall i | 0 <= i < k ensures f(s[..k][i]) <= g(s[..k][i]) {
        assert s[..k][i] == s[i];
      }
      SumMonotone(s[..k], f, g);
      SumTight(s[..k], f, g);
      forall i | 0 <= i < |s| ensures f(s[i]) == g(s[i]) {
        if i < k {
          assert s[..k][i] == s[i];
        }
      }
    }
  }

  lemma RealSumPrefix<T>(s: seq<T>, i: nat, f: T -> real)
    requires i < |s|
    ensures RealSumOver(s[..i + 1], f) == RealSumOver(s[..i], f) + f(s[i])
  {
    assert s[..i + 1][..i] == s[..i];
  }

  lemma {:induction false} RealSumCongruence<T>(s: seq<T>, f: T -> real, g: T -> real)
    requires forall i :: 0 <= i < |s| ==> f(s[i]) == g(s[i])
    ensures RealSumOver(s, f) == RealSumOver(s, g)
    decreases |s|
  {
    if s != [] {
      var k := |s| - 1;
      forall i | 0 <= i < k ensures f(s[..k][i]) == g(s[..k][i]) {
        assert s[..k][i] == s[i];
      }
      RealSumCongruence(s[..k], f, g);
    }
  }

  lemma RealSumSnoc<T>(s: seq<T>, x: T, f: T -> real)
    ensures RealSumOver(s + [x], f) == RealSumOver(s, f) + f(x)
  {
    assert (s + [x])[..|s|] == s;
  }

  lemma {:induction false} RealSumConcat<T>(a: seq<T>, b: seq<T>, f: T -> real)
    ensures RealSumOver(a + b, f) == RealSumOver(a, f) + RealSumOver(b, f)
    decreases |b|
  {
    if b == [] {
      assert a + b == a;
    } else {
      var k := |b| - 1;
      assert (a + b)[..|a| + k] == a + b[..k];
      RealSumConcat(a, b[..k], f);
    }
  }

  lemma RealSumCons<T>(s: seq<T>, f: T -> real)
    requires s != []
    ensures RealSumOver(s, f) == f(s[0]) + RealSumOver(s[1..], f)
  {
    assert s == [s[0]] + s[1..];
    RealSumConcat([s[0]], s[1..], f);
    assert [s[0]][..0] == [];
  }

  lemma {:induction false} RealSumUpdate<T>(s: seq<T>, i: nat, x: T, f: T -> real)
    requires i < |s|
    ensures RealSumOver(s[i := x], f) == RealSumOver(s, f) - f(s[i]) + f(x)
    decreases |s|
  {
    var k := |s| - 1;
    if i == k {
      assert s[i := x][..k] == s[..k];
    } else {
      assert s[i := x][..k] == s[..k][i := x];
      RealSumUpdate(s[..k], i, x, f);
    }
  }
}
