/** Sharing the global per-tensor cap by demand. */
module Budgets {
  function Sum(ds: seq<nat>): (s: nat) {
    if ds == [] then 0 else Sum(ds[..|ds| - 1]) + ds[|ds| - 1]
  }

  /** One tensor's share: proportional, truncated, clamped to [1, cap]. */
  function Share(d: nat, cap: nat, n: nat, total: nat): int
    requires total > 0
  {
    var share := (d * (cap * n)) / total;
    var floored := if share < 1 then 1 else share;
    if floored > cap then cap else floored
  }

  function Shares(ds: seq<nat>, cap: nat): (r: seq<int>)
    requires Sum(ds) > 0
    ensures |r| == |ds|
  {
    seq(|ds|, i requires 0 <= i < |ds| => Share(ds[i], cap, |ds|, Sum(ds)))
  }

  /** Demands add up, over any division of the tensors in two. */
  lemma {:induction false} SumJoin(a: seq<nat>, b: seq<nat>)
    ensures Sum(a + b) == Sum(a) + Sum(b)
    ensures |a| == 1 ==> Sum(a) == a[0]
  {
    if |a| == 1 {
      assert a[..0] == [];
    }
    if b == [] {
      assert a + b == a;
    } else {
      SumJoin(a, b[..|b| - 1]);
      assert (a + b)[..|a + b| - 1] == a + b[..|b| - 1];
    }
  }

  lemma DivBounds(a: nat, b: nat, q: int)
    requires b > 0
    ensures a / b >= q <==> a >= q * b
  {
    assert a == (a / b) * b + a % b;
    if a / b >= q {
      assert (a / b) * b >= q * b;
    } else {
      assert (a / b + 1) * b <= q * b;
    }
  }

  lemma Regroup(d: nat, cap: nat, n: nat, total: nat)
    requires cap >= 1
    ensures d * (cap * n) >= cap * total <==> d * n >= total
  {
    assert d * (cap * n) == cap * (d * n);
    if d * n >= total {
      assert cap * (d * n) >= cap * total;
    } else {
      assert cap * (d * n + 1) <= cap * total;
    }
  }

  lemma ShareInRange(d: nat, cap: nat, n: nat, total: nat)
    requires total > 0 && cap >= 1
    ensures 1 <= Share(d, cap, n, total) <= cap
  {
  }

  /** A share in proportion to the demand: the whole slots d out of total demands come
      to when cap slots for each of n are shared out, but at least one and at most cap. */
  predicate Proportional(q: int, d: nat, cap: nat, n: nat, total: nat) {
    && 1 <= q <= cap
    && (q > 1 ==> q * total <= d * (cap * n))
    && (q < cap ==> d * (cap * n) < (q + 1) * total)
  }

  lemma ShareProportional(d: nat, cap: nat, n: nat, total: nat)
    requires total > 0 && cap >= 1
    ensures Proportional(Share(d, cap, n, total), d, cap, n, total)
    ensures cap >= 2 ==> (Share(d, cap, n, total) == 1 <==> d * (cap * n) < 2 * total)
  {
    var a := d * (cap * n);
    DivBounds(a, total, a / total);
    DivBounds(a, total, a / total + 1);
    DivBounds(a, total, 2);
    DivBounds(a, total, cap);
  }

  lemma SmallerProduct(a: int, b: int, total: nat)
    requires a <= b
    ensures a * total <= b * total
  {
  }

  /** There is one such share. */
  lemma ProportionalUnique(q: int, r: int, d: nat, cap: nat, n: nat, total: nat)
    requires Proportional(q, d, cap, n, total) && Proportional(r, d, cap, n, total) && total > 0
    ensures q == r
  {
    if q < r {
      SmallerProduct(q + 1, r, total);
    } else if r < q {
      SmallerProduct(r + 1, q, total);
    }
  }

  /** More demand never means a smaller share. */
  lemma ShareMonotone(d: nat, e: nat, cap: nat, n: nat, total: nat)
    requires total > 0 && d <= e
    ensures Share(d, cap, n, total) <= Share(e, cap, n, total)
  {
    var q := (d * (cap * n)) / total;
    assert d * (cap * n) <= e * (cap * n);
    DivBounds(d * (cap * n), total, q);
    DivBounds(e * (cap * n), total, q);
  }

  /** The whole cap goes exactly to the tensors with at least average demand. */
  lemma FullShare(d: nat, cap: nat, n: nat, total: nat)
    requires total > 0 && cap >= 2
    ensures Share(d, cap, n, total) == cap <==> d * n >= total
  {
    DivBounds(d * (cap * n), total, cap);
    Regroup(d, cap, n, total);
  }

  function SumInts(s: seq<int>): int {
    if s == [] then 0 else SumInts(s[..|s| - 1]) + s[|s| - 1]
  }

  lemma {:induction false} SumAtMost(s: seq<int>, cap: int)
    requires forall i :: 0 <= i < |s| ==> s[i] <= cap
    ensures SumInts(s) <= cap * |s|
    ensures SumInts(s) == cap * |s| <==> forall i :: 0 <= i < |s| ==> s[i] == cap
  {
    if s == [] {
    } else {
      var n := |s| - 1;
      SumAtMost(s[..n], cap);
      assert cap * |s| == cap * n + cap;
      assert forall i :: 0 <= i < n ==> s[..n][i] == s[i];
    }
  }

  lemma AddFactors(a: nat, b: nat, n: nat)
    ensures (a + b) * n == a * n + b * n
  {
  }

  /** If no demand is below the average, none is above it. */
  lemma {:induction false} NoneBelowAverage(ds: seq<nat>, n: nat, total: nat)
    requires forall i :: 0 <= i < |ds| ==> ds[i] * n >= total
    ensures Sum(ds) * n >= |ds| * total
    ensures Sum(ds) * n == |ds| * total ==> forall i :: 0 <= i < |ds| ==> ds[i] * n == total
  {
    if ds == [] {
    } else {
      var k := |ds| - 1;
      assert forall i :: 0 <= i < k ==> ds[..k][i] == ds[i];
      NoneBelowAverage(ds[..k], n, total);
      AddFactors(Sum(ds[..k]), ds[k], n);
      AddFactors(k, 1, total);
    }
  }

  lemma {:induction false} SumEqual(ds: seq<nat>, d: nat)
    requires forall i :: 0 <= i < |ds| ==> ds[i] == d
    ensures Sum(ds) == d * |ds|
  {
    if ds == [] {
    } else {
      var k := |ds| - 1;
      SumEqual(ds[..k], d);
      assert d * |ds| == d * k + d;
    }
  }

  lemma FactorGap(a: nat, b: nat, n: nat)
    requires a < b && n > 0
    ensures a * n < b * n
  {
    assert (a + 1) * n <= b * n;
  }

  lemma EqualFactors(a: nat, b: nat, n: nat)
    requires n > 0 && a * n == b * n
    ensures a == b
  {
    if a < b {
      FactorGap(a, b, n);
    } else if b < a {
      FactorGap(b, a, n);
    }
  }

  /** The aggregate stays within the cap for every tensor. A cap of one is always
      reached; a larger one only when every tensor demands the same. */
  lemma AggregateWithinCap(ds: seq<nat>, cap: nat)
    requires Sum(ds) > 0 && cap >= 1
    ensures SumInts(Shares(ds, cap)) <= cap * |ds|
    ensures SumInts(Shares(ds, cap)) == cap * |ds| <==> cap == 1 || forall i, j :: 0 <= i < j < |ds| ==> ds[i] == ds[j]
  {
    var n, total, s := |ds|, Sum(ds), Shares(ds, cap);
    forall i | 0 <= i < n ensures s[i] <= cap && (s[i] == cap <==> cap == 1 || ds[i] * n >= total) {
      ShareInRange(ds[i], cap, n, total);
      if cap > 1 {
        FullShare(ds[i], cap, n, total);
      }
    }
    SumAtMost(s, cap);
    if cap == 1 {
    } else if SumInts(s) == cap * n {
      forall i | 0 <= i < n ensures ds[i] * n >= total {
        assert s[i] == cap;
      }
      NoneBelowAverage(ds, n, total);
      assert total * n == n * total;
      forall i, j | 0 <= i < j < n ensures ds[i] == ds[j] {
        EqualFactors(ds[i], ds[j], n);
      }
    } else if forall i, j :: 0 <= i < j < n ==> ds[i] == ds[j] {
      assert n > 0;
      SumEqual(ds, ds[0]);
    }
  }
}
