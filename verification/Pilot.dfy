/** PILOT: scoring the next layer's experts from learned transitions and keeping
    the smallest set that covers the requested share of the transition mass. */
module Pilot {
  import opened Ranking

  predicate IsExpert(id: int, n: nat) { 0 <= id < n }

  lemma CellInRange(n: nat, from: nat, to: nat)
    requires from < n && to < n
    ensures 0 <= from * n + to < n * n
  {
    assert (from + 1) * n <= n * n;
  }

  function Cell(trans: seq<nat>, n: nat, from: nat, to: nat): nat
    requires |trans| == n * n && from < n && to < n
  {
    CellInRange(n, from, to);
    trans[from * n + to]
  }

  /** Transitions into `to` from the selected experts, repeated ids counted again. */
  function ScoreAt(trans: seq<nat>, n: nat, ids: seq<int>, to: nat): (s: nat)
    requires |trans| == n * n && to < n
  {
    if ids == [] then 0
    else
      var from := ids[|ids| - 1];
      ScoreAt(trans, n, ids[..|ids| - 1], to) + (if IsExpert(from, n) then Cell(trans, n, from, to) else 0)
  }

  /** Every selection counts, and counts for itself: a score is the sum of the rows of
      the valid selected experts. */
  lemma {:induction false} ScoreJoin(trans: seq<nat>, n: nat, a: seq<int>, b: seq<int>, to: nat)
    requires |trans| == n * n && to < n
    ensures ScoreAt(trans, n, a + b, to) == ScoreAt(trans, n, a, to) + ScoreAt(trans, n, b, to)
    decreases |b|
  {
    if b == [] {
      assert a + b == a;
    } else {
      ScoreJoin(trans, n, a, b[..|b| - 1], to);
      assert (a + b)[..|a + b| - 1] == a + b[..|b| - 1];
    }
  }

  lemma ScoreOne(trans: seq<nat>, n: nat, id: int, to: nat)
    requires |trans| == n * n && to < n
    ensures 0 <= id < n ==> 0 <= id * n + to < |trans| && ScoreAt(trans, n, [id], to) == trans[id * n + to]
    ensures !(0 <= id < n) ==> ScoreAt(trans, n, [id], to) == 0
  {
    assert [id][..0] == [];
    assert ScoreAt(trans, n, [], to) == 0;
    if 0 <= id < n {
      CellInRange(n, id, to);
    }
  }

  lemma RowGap(n: nat, a: nat, b: nat, to: nat)
    requires a < b && to < n
    ensures a * n + to < b * n
  {
    assert (a + 1) * n <= b * n;
  }

  /** The row-major layout never maps two transitions to one cell. */
  lemma CellsDistinct(n: nat, from: nat, to: nat, from': nat, to': nat)
    requires to < n && to' < n && from * n + to == from' * n + to'
    ensures from == from' && to == to'
  {
    if from < from' {
      RowGap(n, from, from', to);
    } else if from' < from {
      RowGap(n, from', from, to');
    }
  }

  function AsReals(s: seq<nat>): (w: seq<real>)
    ensures |w| == |s| && NonNegative(w)
  {
    seq(|s|, i requires 0 <= i < |s| => s[i] as real)
  }

  method AddRow(trans: seq<nat>, n: nat, from: nat, score0: seq<nat>, any0: bool) returns (score: seq<nat>, any: bool)
    requires |trans| == n * n && from < n && |score0| == n
    requires any0 <==> exists to :: 0 <= to < n && score0[to] > 0
    ensures |score| == n && forall to :: 0 <= to < n ==> score[to] == score0[to] + Cell(trans, n, from, to)
    ensures any <==> exists to :: 0 <= to < n && score[to] > 0
  {
    score, any := score0, any0;
    for to := 0 to n
      invariant |score| == n
      invariant forall k :: 0 <= k < n ==> score[k] == score0[k] + (if k < to then Cell(trans, n, from, k) else 0)
      invariant any <==> any0 || exists k :: 0 <= k < to && Cell(trans, n, from, k) > 0
    {
      CellInRange(n, from, to);
      if trans[from * n + to] != 0 {
        score := score[to := score[to] + trans[from * n + to]];
        any := true;
      }
    }
  }

  /** Accumulate predicted-next scores row by row. */
  method Scores(trans: seq<nat>, n: nat, ids: seq<int>) returns (score: seq<nat>, any: bool)
    requires |trans| == n * n
    ensures |score| == n && forall to :: 0 <= to < n ==> score[to] == ScoreAt(trans, n, ids, to)
    ensures any <==> exists to :: 0 <= to < n && score[to] > 0
  {
    score := seq(n, _ => 0);
    any := false;
    for i := 0 to |ids|
      invariant |score| == n && forall to :: 0 <= to < n ==> score[to] == ScoreAt(trans, n, ids[..i], to)
      invariant any <==> exists to :: 0 <= to < n && score[to] > 0
    {
      assert ids[..i + 1][..i] == ids[..i];
      if IsExpert(ids[i], n) {
        score, any := AddRow(trans, n, ids[i], score, any);
      }
    }
    assert ids[..|ids|] == ids;
  }

  /** m experts are kept from a descending order: never more than `cap`, at least
      one, and otherwise just enough for their mass to reach the cutoff. */
  ghost predicate Keeps(w: seq<real>, order: seq<nat>, cap: int, cutoff: real, m: nat) {
    && IsRanking(order, w)
    && m <= |w| && (m > 0 ==> m <= cap)
    && (forall r :: 1 <= r < m ==> PrefixMass(w, order, r) < cutoff)
    && (m < |w| && m < cap ==> m >= 1 && PrefixMass(w, order, m) >= cutoff)
  }

  /** No smaller set of experts reaches the cutoff. */
  lemma KeptIsMinimumCover(w: seq<real>, order: seq<nat>, cap: int, cutoff: real, m: nat, S: set<nat>)
    requires Keeps(w, order, cap, cutoff, m) && NonNegative(w)
    requires S <= Below(|w|) && |S| < m && (m >= 2 || cutoff > 0.0)
    ensures Mass(w, S, |w|) < cutoff
  {
    TopIsHeaviest(w, order, S, m - 1);
    if m == 1 {
      assert S == {};
      MassEmpty(w, |w|);
    }
  }

  /** Short of the cap, the kept set itself reaches the cutoff; at the cap, it
      carries as much mass as any set of that size. It never exceeds the cap, and
      something is always kept. */
  lemma KeptCoversMost(w: seq<real>, order: seq<nat>, cap: int, cutoff: real, m: nat, S: set<nat>)
    requires Keeps(w, order, cap, cutoff, m) && NonNegative(w)
    requires S <= Below(|w|) && |S| <= m
    ensures m < |w| && m < cap ==> Mass(w, Elements(order[..m]), |w|) >= cutoff
    ensures Mass(w, S, |w|) <= Mass(w, Elements(order[..m]), |w|)
    ensures m <= (if cap > 0 then cap else 0) && (cap > 0 && |w| > 0 ==> m >= 1)
  {
    PrefixIsSet(w, order, m);
    TopIsHeaviest(w, order, S, m);
  }

  function Positive(w: seq<real>): (P: set<nat>)
    ensures P <= Below(|w|)
    ensures forall i: nat :: i in P <==> i < |w| && w[i] > 0.0
  {
    set i: nat | i in Below(|w|) && w[i] > 0.0
  }

  /** From a zero on, a ranking adds nothing. */
  lemma {:induction false} ZeroTail(w: seq<real>, order: seq<nat>, r: nat, k: nat)
    requires IsRanking(order, w) && NonNegative(w) && r < |w| && w[order[r]] == 0.0 && r <= k <= |w|
    ensures PrefixMass(w, order, k) == PrefixMass(w, order, r)
    decreases k
  {
    if r >= k {
    } else {
      ZeroTail(w, order, r, k - 1);
    }
  }

  lemma FewPositive(w: seq<real>, order: seq<nat>, z: nat)
    requires IsRanking(order, w) && NonNegative(w) && z < |w| && w[order[z]] == 0.0
    ensures |Positive(w)| <= z
  {
    hide Below, Mass, PrefixMass, Total;
    PrefixSize(order, |w|, z);
    PermutationCovers(order, |w|);
    forall i | i in Positive(w) ensures i in Elements(order[..z]) {
      assert i in Elements(order);
      var r: nat :| r < |order| && order[r] == i;
      assert r < z;
      assert order[..z][r] == i;
    }
    SubsetSize(Positive(w), Elements(order[..z]));
  }

  lemma AllPositive(w: seq<real>, order: seq<nat>, m: nat)
    requires IsRanking(order, w) && m <= |w| && forall r :: 0 <= r < m ==> w[order[r]] > 0.0
    ensures |Positive(w)| >= m
  {
    hide Below, Mass, PrefixMass, Total;
    PrefixSize(order, |w|, m);
    forall i | i in Elements(order[..m]) ensures i in Positive(w) {
      var r: nat :| r < m && order[..m][r] == i;
    }
    SubsetSize(Elements(order[..m]), Positive(w));
  }

  /** Predictions have a positive learned transition, unless the cutoff exceeds
      the whole mass and there are too few such experts to fill the cap. */
  lemma KeptArePositive(w: seq<real>, order: seq<nat>, cap: int, cutoff: real, m: nat)
    requires Keeps(w, order, cap, cutoff, m) && NonNegative(w) && Positive(w) != {} && cap >= 1
    ensures (forall r :: 0 <= r < m ==> w[order[r]] > 0.0)
       <==> cutoff <= Total(w) || |Positive(w)| >= (if cap < |w| then cap else |w|)
  {
    hide Below, Mass;
    FullPrefix(w, order);
    if z :| 0 <= z < m && w[order[z]] <= 0.0 {
      ZeroTail(w, order, z, |w|);
      FewPositive(w, order, z);
      PrefixMassMonotone(w, order, m, |w|);
    } else {
      AllPositive(w, order, m);
      PrefixMassMonotone(w, order, m, |w|);
    }
  }

  /** The mass target: a truncated share of the whole. */
  function Cutoff(share: real, total: real): real { (share * total).Floor as real }

  /** The whole part of that share. */
  lemma CutoffIs(share: real, total: real)
    requires share >= 0.0 && total >= 0.0
    ensures Cutoff(share, total) <= share * total < Cutoff(share, total) + 1.0
    ensures Cutoff(share, total) == Cutoff(share, total).Floor as real && Cutoff(share, total) >= 0.0
  {
    assert share * total >= 0.0;
  }

  /** The scores a prediction ranks by. */
  function Weights(trans: seq<nat>, n: nat, ids: seq<int>): (w: seq<real>)
    requires |trans| == n * n
    ensures |w| == n && NonNegative(w)
  {
    seq(n, to requires 0 <= to < n => ScoreAt(trans, n, ids, to) as real)
  }

  /** P is what the pruning keeps of some ranking. */
  ghost predicate Pruned(w: seq<real>, cap: int, cutoff: real, P: set<nat>) {
    exists order, m: nat :: Keeps(w, order, cap, cutoff, m) && P == Elements(order[..m])
  }

  /** The prediction for one tensor: nothing without history, otherwise the
      pruned prefix of its scores. */
  ghost predicate Choice(trans: seq<nat>, n: nat, ids: seq<int>, cap: int, share: real, P: set<nat>)
    requires |trans| == n * n
  {
    var w := Weights(trans, n, ids);
    if Positive(w) == {} then P == {} else Pruned(w, cap, Cutoff(share, Total(w)), P)
  }

  lemma PositiveAny(w: seq<real>)
    ensures Positive(w) != {} <==> exists i :: 0 <= i < |w| && w[i] > 0.0
  {
    if i :| 0 <= i < |w| && w[i] > 0.0 {
      assert i in Positive(w);
    }
  }

  /** The pruning loop: stop at the cap, or once the mass target is reached. */
  method KeepTop(w: seq<real>, order: seq<nat>, cap: int, cutoff: real) returns (predicted: set<nat>)
    requires IsRanking(order, w)
    ensures Pruned(w, cap, cutoff, predicted)
  {
    hide Below, Mass;
    var acc := 0.0;
    var kept := 0;
    predicted := {};
    for r := 0 to |w|
      invariant kept == r && acc == PrefixMass(w, order, r)
      invariant r > 0 ==> r <= cap
      invariant forall q :: 1 <= q < r ==> PrefixMass(w, order, q) < cutoff
      invariant predicted == Elements(order[..r])
    {
      if kept >= cap {
        break;
      }
      if acc >= cutoff && kept > 0 {
        break;
      }
      PrefixSet(order, |w|, r + 1);
      predicted := predicted + {order[r]};
      acc := acc + w[order[r]];
      kept := kept + 1;
    }
    assert Keeps(w, order, cap, cutoff, kept);
  }

  method SumAll(w: seq<real>) returns (total: real)
    ensures total == Total(w)
  {
    total := 0.0;
    for i := 0 to |w|
      invariant total == Mass(w, Below(|w|), i)
    {
      total := total + w[i];
    }
  }

  method Predict(trans: seq<nat>, n: nat, ids: seq<int>, cap: int, share: real) returns (predicted: set<nat>)
    requires |trans| == n * n && share >= 0.0
    ensures Choice(trans, n, ids, cap, share, predicted)
  {
    hide Pruned, Keeps, Cutoff, IsRanking, Below, Mass, ScoreAt;
    var score, any := Scores(trans, n, ids);
    var w := AsReals(score);
    assert w == Weights(trans, n, ids);
    PositiveAny(w);
    assert forall i :: 0 <= i < n ==> w[i] == score[i] as real;
    if to :| 0 <= to < n && score[to] > 0 {
      assert w[to] > 0.0;
    }
    predicted := {};
    if !any {
      return;
    }
    var order := SortDescending(w);
    var total := SumAll(w);
    predicted := KeepTop(w, order, cap, Cutoff(share, total));
  }

  lemma ShareOf(share: real, total: real)
    requires 0.0 <= share <= 1.0 && total >= 0.0
    ensures Cutoff(share, total) <= total
  {
    assert share * total <= total;
  }

  /** With a share of at most the whole, every prediction has been seen to
      follow some selected expert. */
  lemma PredictionsAreLearned(w: seq<real>, order: seq<nat>, cap: int, share: real, m: nat, r: nat)
    requires Keeps(w, order, cap, Cutoff(share, Total(w)), m) && NonNegative(w) && Positive(w) != {}
    requires 0.0 <= share <= 1.0 && r < m
    ensures w[order[r]] > 0.0
  {
    MassMonotone(w, {}, Below(|w|), |w|);
    ShareOf(share, Total(w));
    KeptArePositive(w, order, cap, Cutoff(share, Total(w)), m);
  }
}
