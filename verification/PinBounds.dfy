/** What the history of a run says about its pins: which experts are pinned, and how
    many, whichever way the passes ranked ties. */
module PinBounds {
  import opened Experts
  import opened Eviction
  import opened CacheState
  import opened Ranking
  import opened Routing
  import opened PinHistory

  // ---- ties at the cutoff ------------------------------------------------------------

  /** The experts heavier than an expert, and the others at least as heavy. */
  function Heavier(w: seq<real>, id: nat): set<nat>
    requires id < |w|
  {
    set j: nat | j < |w| && w[j] > w[id]
  }

  function AsHeavy(w: seq<real>, id: nat): set<nat>
    requires id < |w|
  {
    set j: nat | j < |w| && j != id && w[j] >= w[id]
  }

  /** Used, and in the top whichever way ties are ranked. */
  predicate SureTop(w: seq<real>, top: int, id: nat) {
    id < |w| && w[id] > 0.0 && |AsHeavy(w, id)| < top
  }

  /** Used, and in the top for some ranking of ties. */
  predicate MaybeTop(w: seq<real>, top: int, id: nat) {
    id < |w| && w[id] > 0.0 && |Heavier(w, id)| < top
  }

  lemma RankOf(order: seq<nat>, n: nat, id: nat) returns (r: nat)
    requires IsPermutation(order, n) && id < n
    ensures r < n && order[r] == id
  {
    hide Below;
    PermutationCovers(order, n);
    assert id in Elements(order);
    r :| r < |order| && order[r] == id;
  }

  /** A set of ranks that is a prefix of a ranking is as large as it is long. */
  lemma PrefixOf(order: seq<nat>, n: nat, k: nat, S: set<nat>)
    requires IsPermutation(order, n) && k <= n
    requires forall r :: 0 <= r < n ==> (order[r] in S <==> r < k)
    requires forall id :: id in S ==> id < n
    ensures |S| == k
  {
    PrefixSize(order, n, k);
    forall id | id in S ensures id in Elements(order[..k]) {
      var r := RankOf(order, n, id);
      assert order[..k][r] == id;
    }
    forall id | id in Elements(order[..k]) ensures id in S {
      var r :| 0 <= r < k && order[..k][r] == id;
      assert order[r] in S;
    }
    assert S == Elements(order[..k]);
  }

  /** Where an expert and those as heavy as it are ranked: from the number of
      heavier ones to the number of others at least as heavy. */
  lemma TieGroup(w: seq<real>, order: seq<nat>, id: nat)
    requires IsRanking(order, w) && id < |w|
    ensures |Heavier(w, id)| <= |AsHeavy(w, id)| < |w|
    ensures forall r :: 0 <= r < |w| ==> (w[order[r]] == w[id] <==> |Heavier(w, id)| <= r <= |AsHeavy(w, id)|)
  {
    var n := |w|;
    var r := RankOf(order, n, id);
    var a, b := 0, n - 1;
    while w[order[a]] > w[id]
      invariant a <= r && forall x :: 0 <= x < a ==> w[order[x]] > w[id]
      decreases n - a
    {
      a := a + 1;
    }
    while w[order[b]] < w[id]
      invariant r <= b < n && forall x :: b < x < n ==> w[order[x]] < w[id]
      decreases b
    {
      b := b - 1;
    }
    PrefixOf(order, n, a, Heavier(w, id));
    PrefixOf(order, n, b + 1, AsHeavy(w, id) + {id});
    assert |AsHeavy(w, id) + {id}| == |AsHeavy(w, id)| + 1;
  }

  lemma TopBetween(e: Pinning, size: nat, id: nat)
    requires RanksTensor(e, size)
    ensures SureTop(e.weight, e.top, id) ==> id in UsedTop(e, size)
    ensures id in UsedTop(e, size) ==> MaybeTop(e.weight, e.top, id)
  {
    hide Heavier, AsHeavy;
    if id < size {
      var r := RankOf(e.order, size, id);
      TieGroup(e.weight, e.order, id);
      assert id in UsedTop(e, size) <==> r < e.top && e.weight[id] > 0.0;
    }
  }

  /** A ranking stays one when two experts of equal weight change places. */
  lemma Swapped(w: seq<real>, order: seq<nat>, r: nat, x: nat)
    requires IsRanking(order, w) && r < |w| && x < |w| && w[order[r]] == w[order[x]]
    ensures IsRanking(order[r := order[x]][x := order[r]], w)
  {
    var order' := order[r := order[x]][x := order[r]];
    assert forall k :: 0 <= k < |w| ==> w[order'[k]] == w[order[k]];
  }

  /** A ranking with an expert first, or last, among its equals. */
  lemma RankedAt(w: seq<real>, id: nat, first: bool) returns (order: seq<nat>)
    requires id < |w|
    ensures IsRanking(order, w)
    ensures forall top :: id in UsedTop(Pinning(w, order, top), |w|) <==>
      if first then MaybeTop(w, top, id) else SureTop(w, top, id)
  {
    hide Heavier, AsHeavy;
    var any := Rank(w);
    TieGroup(w, any, id);
    var r := RankOf(any, |w|, id);
    var x := if first then |Heavier(w, id)| else |AsHeavy(w, id)|;
    Swapped(w, any, r, x);
    order := any[r := any[x]][x := any[r]];
    assert order[x] == id;
  }

  /** The two notions are exact: one is the top of every ranking, the other of some. */
  lemma TopDecides(w: seq<real>, top: int, id: nat)
    ensures SureTop(w, top, id) <==> forall order :: IsRanking(order, w) ==> id in UsedTop(Pinning(w, order, top), |w|)
    ensures MaybeTop(w, top, id) <==> exists order :: IsRanking(order, w) && id in UsedTop(Pinning(w, order, top), |w|)
  {
    hide Heavier, AsHeavy, IsRanking;
    forall order | IsRanking(order, w)
      ensures SureTop(w, top, id) ==> id in UsedTop(Pinning(w, order, top), |w|)
      ensures id in UsedTop(Pinning(w, order, top), |w|) ==> MaybeTop(w, top, id)
    {
      TopBetween(Pinning(w, order, top), |w|, id);
    }
    var any := Rank(w);
    if id < |w| {
      var first := RankedAt(w, id, true);
      var last := RankedAt(w, id, false);
    }
  }

  // ---- what the history says about the pins --------------------------------------------

  /** In the used top of some pinning. */
  lemma {:induction false} EverIsSome(es: seq<Pinning>, size: nat, id: nat)
    requires forall e :: e in es ==> RanksTensor(e, size)
    ensures id in EverUsedTop(es, size) <==> exists k :: 0 <= k < |es| && id in UsedTop(es[k], size)
  {
    if es == [] {
    } else {
      var n := |es| - 1;
      EverIsSome(es[..n], size, id);
      assert forall k :: 0 <= k < n ==> es[..n][k] == es[k];
    }
  }

  /** Over any run: an expert is pinned exactly when some pinning had it in its used
      top, and so a tensor has at most N pins exactly when no more than N of its
      experts ever were. One pinning never adds more than its limit; several can. */
  lemma PinsWithinExactly(t: ExpertTensor, es: seq<Pinning>, N: nat)
    requires PinsAre(t, es)
    ensures forall id: nat :: id in Pinned(t) <==> exists k :: 0 <= k < |es| && id in UsedTop(es[k], t.size)
    ensures |Pinned(t)| <= N <==> |EverUsedTop(es, t.size)| <= N
    ensures |es| == 1 ==> |Pinned(t)| <= if es[0].top < 0 then 0 else es[0].top
  {
    forall id: nat ensures id in Pinned(t) <==> exists k :: 0 <= k < |es| && id in UsedTop(es[k], t.size) {
      EverIsSome(es, t.size, id);
    }
    if |es| == 1 {
      assert es[..0] == [];
      assert EverUsedTop(es, t.size) == {} + UsedTop(es[0], t.size);
    }
  }

  /** Which passes those are: the ones at record 200 and later multiples of 400 after
      a mapped tensor was registered, and the prior's for every tensor it found. */
  lemma {:induction false} MomentsAre(mapped: bool, i: nat, n: nat, os: seq<Origin>, prior: Prior, m: Moment)
    requires i < |os|
    ensures m in Moments(mapped, i, n, os, prior) <==>
      || (mapped && os[i].since < m.len <= n && (m.len == 200 || (m.len > 200 && m.len % 400 == 0))
          && m == Moment(m.len, Live(os, m.len), prior.PriorAt? && prior.len < m.len, false))
      || (prior.PriorAt? && prior.len <= n && i < prior.size && Seeding(os) && m == Moment(prior.len, prior.size, true, true))
  {
    hide Seeding, Live;
    if n == 0 {
    } else {
      MomentsAre(mapped, i, n - 1, os, prior, m);
    }
  }

  ghost predicate SureAt(ts: Tensors, i: nat, h: seq<Record>, os: seq<Origin>, m: Moment, maxActive: int, id: nat)
    requires |os| == |ts| && i < |ts|
  {
    SureTop(WeightAt(ts[i], h, os[i], m), LimitAt(ts, i, h, os, m, maxActive), id)
  }

  ghost predicate MaybeAt(ts: Tensors, i: nat, h: seq<Record>, os: seq<Origin>, m: Moment, maxActive: int, id: nat)
    requires |os| == |ts| && i < |ts|
  {
    MaybeTop(WeightAt(ts[i], h, os[i], m), LimitAt(ts, i, h, os, m, maxActive), id)
  }

  ghost predicate SomeSure(ts: Tensors, i: nat, h: seq<Record>, os: seq<Origin>, prior: Prior, maxActive: int, id: nat)
    requires |os| == |ts| && i < |ts|
  {
    exists m :: m in Moments(ts[i].mapped, i, |h|, os, prior) && SureAt(ts, i, h, os, m, maxActive, id)
  }

  ghost predicate SomeMaybe(ts: Tensors, i: nat, h: seq<Record>, os: seq<Origin>, prior: Prior, maxActive: int, id: nat)
    requires |os| == |ts| && i < |ts|
  {
    exists m :: m in Moments(ts[i].mapped, i, |h|, os, prior) && MaybeAt(ts, i, h, os, m, maxActive, id)
  }

  /** The experts some pass had in its used top, whichever way it ranked ties. */
  ghost function EverSure(ts: Tensors, i: nat, h: seq<Record>, os: seq<Origin>, prior: Prior, maxActive: int): (s: set<nat>)
    requires |os| == |ts| && i < |ts|
  {
    set id: nat | id < ts[i].size && SomeSure(ts, i, h, os, prior, maxActive, id)
  }

  /** The experts some pass may have had there. */
  ghost function EverMaybe(ts: Tensors, i: nat, h: seq<Record>, os: seq<Origin>, prior: Prior, maxActive: int): (s: set<nat>)
    requires |os| == |ts| && i < |ts|
  {
    set id: nat | id < ts[i].size && SomeMaybe(ts, i, h, os, prior, maxActive, id)
  }

  /** No pass had used experts of equal weight on both sides of its cutoff. */
  ghost predicate Untied(ts: Tensors, i: nat, h: seq<Record>, os: seq<Origin>, prior: Prior, maxActive: int)
    requires |os| == |ts| && i < |ts|
  {
    forall m, id ::
      m in Moments(ts[i].mapped, i, |h|, os, prior) && MaybeAt(ts, i, h, os, m, maxActive, id) ==>
        SureAt(ts, i, h, os, m, maxActive, id)
  }

  lemma UntiedAgree(ts: Tensors, i: nat, h: seq<Record>, os: seq<Origin>, prior: Prior, maxActive: int)
    requires |os| == |ts| && i < |ts|
    ensures EverSure(ts, i, h, os, prior, maxActive) <= EverMaybe(ts, i, h, os, prior, maxActive)
    ensures Untied(ts, i, h, os, prior, maxActive) ==>
      EverSure(ts, i, h, os, prior, maxActive) == EverMaybe(ts, i, h, os, prior, maxActive)
  {
    hide Moments, WeightAt, LimitAt, Heavier, AsHeavy;
    forall m, id: nat | SureAt(ts, i, h, os, m, maxActive, id) ensures MaybeAt(ts, i, h, os, m, maxActive, id) {
      var w := WeightAt(ts[i], h, os[i], m);
      TieGroup(w, Rank(w), id);
    }
  }

  /** A tensor's pins, from the records and registrations alone. An expert is pinned if
      some pass had it in the used top of its weights, and only if some pass could. */
  lemma PinsFollowHistory(ts: Tensors, i: nat, h: seq<Record>, os: seq<Origin>, ess: seq<seq<Pinning>>, prior: Prior,
                          maxActive: int)
    requires AllPins(ts, ess) && AllTraced(ts, h, os, ess, prior, maxActive) && i < |ts|
    ensures EverSure(ts, i, h, os, prior, maxActive) <= Pinned(ts[i]) <= EverMaybe(ts, i, h, os, prior, maxActive)
  {
    hide SureTop, MaybeTop, WeightAt, LimitAt, Moments, EverUsedTop, Seeding;
    var t, es := ts[i], ess[i];
    var ms := Moments(t.mapped, i, |h|, os, prior);
    assert PinsAre(t, es) && TensorTraced(ts, i, h, os, es, prior, maxActive);
    forall id: nat | id < t.size
      ensures id in EverSure(ts, i, h, os, prior, maxActive) ==> id in Pinned(t)
      ensures id in Pinned(t) ==> id in EverMaybe(ts, i, h, os, prior, maxActive)
    {
      EverIsSome(es, t.size, id);
      if id in EverSure(ts, i, h, os, prior, maxActive) {
        var m :| m in ms && SureAt(ts, i, h, os, m, maxActive, id);
        var k :| 0 <= k < |ms| && ms[k] == m;
        assert PinnedAt(ts, i, h, os, es[k], ms[k], maxActive);
        TopBetween(es[k], t.size, id);
      }
      if id in Pinned(t) {
        var k :| 0 <= k < |es| && id in UsedTop(es[k], t.size);
        assert PinnedAt(ts, i, h, os, es[k], ms[k], maxActive) && ms[k] in ms;
        TopBetween(es[k], t.size, id);
        assert MaybeAt(ts, i, h, os, ms[k], maxActive, id);
      }
    }
  }

  /** Over any run: at most N experts of a tensor are pinned if no more than N ever
      could be in a used top, and only if no more than N ever were for certain. When
      no pass had a tie at its cutoff the two are the same. */
  lemma PinsWithin(ts: Tensors, i: nat, h: seq<Record>, os: seq<Origin>, ess: seq<seq<Pinning>>, prior: Prior,
                   maxActive: int, N: nat)
    requires AllPins(ts, ess) && AllTraced(ts, h, os, ess, prior, maxActive) && i < |ts|
    ensures |EverMaybe(ts, i, h, os, prior, maxActive)| <= N ==> |Pinned(ts[i])| <= N
    ensures |Pinned(ts[i])| <= N ==> |EverSure(ts, i, h, os, prior, maxActive)| <= N
    ensures Untied(ts, i, h, os, prior, maxActive) ==>
      (|Pinned(ts[i])| <= N <==> |EverMaybe(ts, i, h, os, prior, maxActive)| <= N)
  {
    UntiedAgree(ts, i, h, os, prior, maxActive);
    hide EverSure, EverMaybe, Untied;
    PinsFollowHistory(ts, i, h, os, ess, prior, maxActive);
    SubsetSize(Pinned(ts[i]), EverMaybe(ts, i, h, os, prior, maxActive));
    SubsetSize(EverSure(ts, i, h, os, prior, maxActive), Pinned(ts[i]));
  }
}
