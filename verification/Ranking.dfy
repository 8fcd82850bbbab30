/** Descending rankings and the exchange argument behind them: no choice of at
    most k items weighs more than the top k. */
module Ranking {
  /** Total weight of the members of S among items 0..n-1. */
  function Mass(w: seq<real>, S: set<nat>, n: nat): (m: real)
    requires n <= |w|
  {
    if n == 0 then 0.0 else Mass(w, S, n - 1) + (if n - 1 in S then w[n - 1] else 0.0)
  }

  /** The items 0..n-1. */
  function Below(n: nat): (r: set<nat>)
    ensures forall i: nat :: i in r <==> i < n
    ensures |r| == n
  {
    if n == 0 then {} else Below(n - 1) + {n - 1}
  }

  function Total(w: seq<real>): real { Mass(w, Below(|w|), |w|) }

  ghost predicate Descending(order: seq<nat>, w: seq<real>)
    requires forall i :: 0 <= i < |order| ==> order[i] < |w|
  {
    forall i, j :: 0 <= i < j < |order| ==> w[order[i]] >= w[order[j]]
  }

  ghost predicate IsPermutation(order: seq<nat>, n: nat) {
    && |order| == n
    && (forall i :: 0 <= i < n ==> order[i] < n)
    && (forall i, j :: 0 <= i < j < n ==> order[i] != order[j])
  }

  /** What std::sort with a "greater" comparator leaves: some descending order
      of all the indices. Ties may fall either way. */
  ghost predicate IsRanking(order: seq<nat>, w: seq<real>) {
    IsPermutation(order, |w|) && Descending(order, w)
  }

  function Elements(s: seq<nat>): (r: set<nat>)
    ensures forall x :: x in r <==> x in s
  {
    set x | x in s
  }

  /** Weight of the first k items of an order, as the loops accumulate it. */
  function PrefixMass(w: seq<real>, order: seq<nat>, k: nat): real
    requires k <= |order|
    requires forall i :: 0 <= i < k ==> order[i] < |w|
  {
    if k == 0 then 0.0 else PrefixMass(w, order, k - 1) + w[order[k - 1]]
  }

  predicate NonNegative(w: seq<real>) { forall i :: 0 <= i < |w| ==> w[i] >= 0.0 }

  // ---- sets of indices -------------------------------------------------------

  lemma {:induction false} MassAdd(w: seq<real>, S: set<nat>, x: nat, n: nat)
    requires n <= |w| && x !in S
    ensures Mass(w, S + {x}, n) == Mass(w, S, n) + (if x < n then w[x] else 0.0)
  {
    if n == 0 {
    } else {
      MassAdd(w, S, x, n - 1);
    }
  }

  lemma {:induction false} MassEmpty(w: seq<real>, n: nat)
    requires n <= |w|
    ensures Mass(w, {}, n) == 0.0
  {
    if n == 0 {
    } else {
      MassEmpty(w, n - 1);
    }
  }

  lemma {:induction false} MassMonotone(w: seq<real>, S: set<nat>, T: set<nat>, n: nat)
    requires n <= |w| && NonNegative(w) && S <= T
    ensures 0.0 <= Mass(w, S, n) <= Mass(w, T, n)
  {
    if n == 0 {
    } else {
      MassMonotone(w, S, T, n - 1);
    }
  }

  lemma PrefixSet(order: seq<nat>, n: nat, k: nat)
    requires IsPermutation(order, n) && 0 < k <= n
    ensures Elements(order[..k]) == Elements(order[..k - 1]) + {order[k - 1]}
    ensures order[k - 1] !in Elements(order[..k - 1])
  {
    assert order[..k] == order[..k - 1] + [order[k - 1]];
  }

  lemma {:induction false} PrefixSize(order: seq<nat>, n: nat, k: nat)
    requires IsPermutation(order, n) && k <= n
    ensures |Elements(order[..k])| == k
  {
    if k > 0 {
      PrefixSize(order, n, k - 1);
      PrefixSet(order, n, k);
    } else {
      assert Elements(order[..k]) == {};
    }
  }

  /** The first k items of a permutation are k distinct items, and the loop's
      running sum is their weight. */
  lemma {:induction false} PrefixIsSet(w: seq<real>, order: seq<nat>, k: nat)
    requires IsPermutation(order, |w|) && k <= |w|
    ensures PrefixMass(w, order, k) == Mass(w, Elements(order[..k]), |w|)
  {
    if k == 0 {
      assert Elements(order[..k]) == {};
      MassEmpty(w, |w|);
    } else {
      PrefixIsSet(w, order, k - 1);
      PrefixSet(order, |w|, k);
      MassAdd(w, Elements(order[..k - 1]), order[k - 1], |w|);
    }
  }

  lemma SubsetSize<T>(a: set<T>, b: set<T>)
    requires a <= b
    ensures |a| <= |b|
  {
    assert b == a + (b - a);
  }

  lemma SubsetSame<T>(a: set<T>, b: set<T>)
    requires a <= b && |a| == |b|
    ensures a == b
  {
    if x :| x in b && x !in a {
      SubsetSize(a + {x}, b);
    }
  }

  lemma PermutationCovers(order: seq<nat>, n: nat)
    requires IsPermutation(order, n)
    ensures Elements(order) == Below(n)
  {
    PrefixSize(order, n, n);
    assert order[..n] == order;
    SubsetSame(Elements(order), Below(n));
  }

  /** A full ranking weighs everything. */
  lemma FullPrefix(w: seq<real>, order: seq<nat>)
    requires IsPermutation(order, |w|)
    ensures PrefixMass(w, order, |w|) == Total(w)
  {
    PrefixIsSet(w, order, |w|);
    PermutationCovers(order, |w|);
    assert order[..|w|] == order;
  }

  // ---- the exchange argument -------------------------------------------------

  /** Members of S among 0..n-1, counted. */
  function Count(S: set<nat>, n: nat): (c: nat)
  {
    if n == 0 then 0 else Count(S, n - 1) + (if n - 1 in S then 1 else 0)
  }

  lemma BelowStep(S: set<nat>, n: nat)
    ensures |S * Below(n + 1)| == |S * Below(n)| + (if n in S then 1 else 0)
  {
    if n in S {
      assert S * Below(n + 1) == S * Below(n) + {n};
    } else {
      assert S * Below(n + 1) == S * Below(n);
    }
  }

  lemma {:induction false} CountIsSize(S: set<nat>, n: nat)
    ensures Count(S, n) == |S * Below(n)|
  {
    hide Below;
    if n == 0 {
      assert S * Below(0) == {};
    } else {
      CountIsSize(S, n - 1);
      BelowStep(S, n - 1);
    }
  }

  /** What the members of S weigh above a threshold. */
  function Excess(w: seq<real>, S: set<nat>, tau: real, n: nat): real
    requires n <= |w|
  {
    if n == 0 then 0.0 else Excess(w, S, tau, n - 1) + (if n - 1 in S then w[n - 1] - tau else 0.0)
  }

  /** With P's weights above the threshold and the others' below, no set
      exceeds it by more. */
  lemma {:induction false} ExcessExchange(w: seq<real>, S: set<nat>, P: set<nat>, tau: real, n: nat)
    requires n <= |w|
    requires forall i :: 0 <= i < n ==> if i in P then w[i] >= tau else w[i] <= tau
    ensures Excess(w, S, tau, n) <= Excess(w, P, tau, n)
  {
    if n == 0 {
    } else {
      ExcessExchange(w, S, P, tau, n - 1);
    }
  }

  function Times(x: real, y: real): real { x * y }

  lemma {:induction false} ExcessIs(w: seq<real>, S: set<nat>, tau: real, n: nat)
    requires n <= |w|
    ensures Excess(w, S, tau, n) == Mass(w, S, n) - Times(Count(S, n) as real, tau)
  {
    if n == 0 {
    } else {
      ExcessIs(w, S, tau, n - 1);
      var c := Count(S, n - 1);
      assert (c + 1) as real * tau == c as real * tau + tau;
    }
  }

  /** Every item of the top k weighs at least as much as any other. */
  lemma TopSplits(w: seq<real>, order: seq<nat>, k: nat, i: nat)
    requires IsRanking(order, w) && 0 < k <= |w| && i < |w|
    ensures var tau := w[order[k - 1]];
      if i in Elements(order[..k]) then w[i] >= tau else w[i] <= tau
  {
    hide Below;
    PermutationCovers(order, |w|);
    assert i in order;
    var r: nat :| r < |order| && order[r] == i;
    if r < k {
      assert order[..k][r] == i;
    }
  }

  lemma ScaleReal(x: real, y: real, tau: real)
    requires x <= y && tau >= 0.0
    ensures Times(x, tau) <= Times(y, tau)
  {
    assert (y - x) * tau >= 0.0;
    assert (y - x) * tau == y * tau - x * tau;
  }

  lemma ExcessComparison(w: seq<real>, S: set<nat>, P: set<nat>, tau: real)
    requires S <= Below(|w|) && P <= Below(|w|) && |S| <= |P| && tau >= 0.0
    requires Excess(w, S, tau, |w|) <= Excess(w, P, tau, |w|)
    ensures Mass(w, S, |w|) <= Mass(w, P, |w|)
  {
    hide Below, Mass, Count, Excess, Times;
    var n := |w|;
    ExcessIs(w, S, tau, n);
    ExcessIs(w, P, tau, n);
    CountIsSize(S, n);
    CountIsSize(P, n);
    assert S * Below(n) == S && P * Below(n) == P;
    ScaleReal(|S| as real, |P| as real, tau);
  }

  /** No set of at most k items outweighs the top k of a ranking. */
  lemma TopIsHeaviest(w: seq<real>, order: seq<nat>, S: set<nat>, k: nat)
    requires IsRanking(order, w) && NonNegative(w)
    requires S <= Below(|w|) && |S| <= k <= |w|
    ensures Mass(w, S, |w|) <= PrefixMass(w, order, k)
  {
    hide Below, Mass, PrefixMass, Count, Excess;
    var n := |w|;
    PrefixIsSet(w, order, k);
    PrefixSize(order, n, k);
    var P := Elements(order[..k]);
    if k > 0 {
      var tau := w[order[k - 1]];
      forall i | 0 <= i < n ensures if i in P then w[i] >= tau else w[i] <= tau {
        TopSplits(w, order, k, i);
      }
      ExcessExchange(w, S, P, tau, n);
      ExcessComparison(w, S, P, tau);
    } else {
      MassMonotone(w, S, {}, n);
      assert P == {};
    }
  }

  lemma {:induction false} PrefixMassMonotone(w: seq<real>, order: seq<nat>, a: nat, b: nat)
    requires IsPermutation(order, |w|) && NonNegative(w) && a <= b <= |w|
    ensures 0.0 <= PrefixMass(w, order, a) <= PrefixMass(w, order, b)
    decreases b
  {
    if a < b {
      PrefixMassMonotone(w, order, a, b - 1);
    } else if b > 0 {
      PrefixMassMonotone(w, order, a - 1, b - 1);
    }
  }

  // ---- rankings exist, and their prefix weights do not depend on ties ----------

  /** Where item i goes in a descending order: after everything at least as heavy. */
  function Slot(w: seq<real>, order: seq<nat>, i: nat): (p: nat)
    requires i < |w| && forall a :: 0 <= a < |order| ==> order[a] < |w|
    ensures p <= |order|
    ensures forall a :: 0 <= a < p ==> w[order[a]] >= w[i]
    ensures p < |order| ==> w[order[p]] < w[i]
  {
    if order == [] || w[order[0]] < w[i] then 0 else 1 + Slot(w, order[1..], i)
  }

  /** The first n items, inserted one by one. */
  function RankFirst(w: seq<real>, n: nat): (order: seq<nat>)
    requires n <= |w|
    ensures |order| == n && forall a :: 0 <= a < n ==> order[a] < n
  {
    if n == 0 then []
    else
      var before := RankFirst(w, n - 1);
      var p := Slot(w, before, n - 1);
      before[..p] + [n - 1] + before[p..]
  }

  lemma Slotted(w: seq<real>, before: seq<nat>, p: nat, n: nat)
    requires n < |w| && IsPermutation(before, n) && p <= n
    requires Descending(before, w)
    requires forall a :: 0 <= a < p ==> w[before[a]] >= w[n]
    requires p < n ==> w[before[p]] < w[n]
    ensures var order := before[..p] + [n] + before[p..];
      IsPermutation(order, n + 1) && Descending(order, w)
  {
    var order := before[..p] + [n] + before[p..];
    assert forall a :: 0 <= a < n + 1 ==> order[a] == if a < p then before[a] else if a == p then n else before[a - 1];
  }

  lemma {:induction false} RankFirstSorts(w: seq<real>, n: nat)
    requires n <= |w|
    ensures IsPermutation(RankFirst(w, n), n)
    ensures Descending(RankFirst(w, n), w)
  {
    if n == 0 {
    } else {
      RankFirstSorts(w, n - 1);
      var before := RankFirst(w, n - 1);
      Slotted(w, before, Slot(w, before, n - 1), n - 1);
    }
  }

  function Rank(w: seq<real>): (order: seq<nat>)
    ensures IsRanking(order, w)
  {
    RankFirstSorts(w, |w|);
    RankFirst(w, |w|)
  }

  /** What the heaviest k items weigh. */
  function TopMass(w: seq<real>, k: nat): real
    requires k <= |w|
  {
    PrefixMass(w, Rank(w), k)
  }

  /** The top k of a ranking weigh at least the first k of any permutation. */
  lemma TopBeats(w: seq<real>, order: seq<nat>, other: seq<nat>, k: nat)
    requires IsRanking(order, w) && NonNegative(w) && IsPermutation(other, |w|) && k <= |w|
    ensures PrefixMass(w, other, k) <= PrefixMass(w, order, k)
  {
    PrefixIsSet(w, other, k);
    PrefixSize(other, |w|, k);
    TopIsHeaviest(w, order, Elements(other[..k]), k);
  }

  /** Every ranking agrees on it, whichever way it breaks ties. */
  lemma TopMassOf(w: seq<real>, order: seq<nat>, k: nat)
    requires IsRanking(order, w) && NonNegative(w) && k <= |w|
    ensures PrefixMass(w, order, k) == TopMass(w, k)
  {
    hide Rank, Mass, PrefixMass, Below;
    var other := Rank(w);
    TopBeats(w, order, other, k);
    TopBeats(w, other, order, k);
  }

  /** std::sort by descending weight. Callers may rely on IsRanking only. */
  method SortDescending(w: seq<real>) returns (order: seq<nat>)
    ensures IsRanking(order, w)
  {
    order := Rank(w);
  }
}
