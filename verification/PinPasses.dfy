/** Pin passes: what pinning, eviction and the byte ceiling do to the tensors, one
    after the other. */
module PinPasses {
  import opened Experts
  import opened Eviction
  import opened CacheState
  import opened Ranking
  import opened Budgets
  import opened Ceiling
  import Pilot

  // ---- one tensor --------------------------------------------------------------

  /** The pins of one pass: exactly the used slices among the first `top` ranks
      join, and each that joins is loaded. */
  ghost predicate PinnedTop(t: ExpertTensor, t': ExpertTensor, weight: seq<real>, order: seq<nat>, top: int)
    requires t.Valid() && t'.Valid() && |weight| == t.size && t'.size == t.size && IsPermutation(order, t.size)
  {
    forall r :: 0 <= r < t.size ==>
      var id := order[r];
      && (t'.pinned[id] <==> t.pinned[id] || (r < top && weight[id] > 0.0))
      && (t'.loaded[id] <==> t.loaded[id] || (r < top && weight[id] > 0.0 && !t.pinned[id]))
  }

  ghost predicate TopPinned(t: ExpertTensor, order: seq<nat>, top: int)
    requires t.Valid() && IsPermutation(order, t.size)
  {
    forall r :: 0 <= r < t.size && r < top && t.windowHits[order[r]] > 0.0 ==> t.pinned[order[r]]
  }

  /** Every used expert within the top `Limit` ranks of some ranking by hotness. */
  ghost predicate TopHotPinned(t: ExpertTensor, maxActive: int)
    requires t.Valid()
  {
    exists order :: IsRanking(order, t.windowHits) && TopPinned(t, order, Limit(t, maxActive))
  }

  /** The bound eviction really keeps: pins are exempt, so a tensor holds its
      budget or its pins, whichever is more. */
  ghost predicate WithinBudget(t: ExpertTensor, maxActive: int)
    requires t.Valid()
  {
    t.mapped && Limit(t, maxActive) > 0 ==>
      |Resident(t)| <= if Limit(t, maxActive) < |Pinned(t)| then |Pinned(t)| else Limit(t, maxActive)
  }

  ghost predicate PassSteps(t: ExpertTensor, t': ExpertTensor, maxActive: int,
                            order: seq<nat>, mid: ExpertTensor, V: set<nat>)
    requires t.Valid() && t'.Valid()
  {
    && mid.Valid() && mid == t.(loaded := mid.loaded, pinned := mid.pinned)
    && IsRanking(order, t.windowHits) && PinnedTop(t, mid, t.windowHits, order, Limit(t, maxActive))
    && EvictedTo(mid, t', V, Limit(mid, maxActive))
  }

  /** Pin the used experts among the top `Limit` ranks, then evict to budget. */
  ghost predicate PinnedThenEvicted(t: ExpertTensor, t': ExpertTensor, maxActive: int)
    requires t.Valid() && t'.Valid()
  {
    exists order, mid, V :: PassSteps(t, t', maxActive, order, mid, V)
  }

  /** What a pin pass does to a tensor: the hottest are pinned, pins are only
      added and only to used experts, recency and statistics stay. */
  ghost predicate PassResult(t: ExpertTensor, t': ExpertTensor, maxActive: int) {
    && t.Valid() && t'.Valid()
    && t' == t.(loaded := t'.loaded, pinned := t'.pinned)
    && PinnedThenEvicted(t, t', maxActive)
    && TopHotPinned(t', maxActive) && WithinBudget(t', maxActive)
    && forall id :: 0 <= id < t.size ==>
         && (t.pinned[id] ==> t'.pinned[id])
         && (t'.pinned[id] && !t.pinned[id] ==> t.windowHits[id] > 0.0)
         && (t'.loaded[id] ==> t.loaded[id] || !t.pinned[id])
  }

  lemma PassDone(t: ExpertTensor, t1: ExpertTensor, t2: ExpertTensor, order: seq<nat>, V: set<nat>, maxActive: int)
    requires t.Valid() && t1.Valid() && t2.Valid()
    requires t1 == t.(loaded := t1.loaded, pinned := t1.pinned)
    requires EvictedTo(t1, t2, V, Limit(t1, maxActive))
    requires IsRanking(order, t.windowHits) && PinnedTop(t, t1, t.windowHits, order, Limit(t, maxActive))
    requires WithinBudget(t2, maxActive)
    ensures PassResult(t, t2, maxActive)
  {
    assert PassSteps(t, t2, maxActive, order, t1, V);
    assert TopPinned(t2, order, Limit(t2, maxActive));
    PermutationCovers(order, t.size);
    forall id | 0 <= id < t.size
      ensures t.pinned[id] ==> t2.pinned[id]
      ensures t2.pinned[id] && !t.pinned[id] ==> t.windowHits[id] > 0.0
      ensures t2.loaded[id] ==> t.loaded[id] || !t.pinned[id]
    {
      assert id in Elements(order);
      var r :| 0 <= r < |order| && order[r] == id;
    }
  }

  lemma PinsLoadMore(t: ExpertTensor, mid: ExpertTensor, order: seq<nat>, top: int, v: nat)
    requires t.Valid() && mid.Valid() && mid.size == t.size && v < t.size && t.loaded[v]
    requires IsPermutation(order, t.size) && PinnedTop(t, mid, t.windowHits, order, top)
    ensures mid.loaded[v]
  {
    PermutationCovers(order, t.size);
    assert v in Elements(order);
    var r: nat :| r < |order| && order[r] == v;
  }

  /** Pinning in between takes nothing away. */
  lemma TookAfterPins(t: ExpertTensor, mid: ExpertTensor, t': ExpertTensor, order: seq<nat>, top: int, ti: nat,
                      history: seq<Slice>)
    requires t.Valid() && mid.Valid() && mid == t.(loaded := mid.loaded, pinned := mid.pinned)
    requires IsPermutation(order, t.size) && PinnedTop(t, mid, t.windowHits, order, top)
    requires TookOldest(mid, t', ti, history)
    ensures TookOldest(t, t', ti, history)
  {
    hide LastTouch;
    forall v: nat | v < t.size && t.loaded[v] ensures mid.loaded[v] {
      PinsLoadMore(t, mid, order, top, v);
    }
  }

  lemma EvictKeepsPins(ts: Tensors, ti: nat, V: set<nat>, total: nat, ceiling: nat)
    requires ti < |ts| && PinsKept(ts, total, total, ceiling) && ts[ti].mapped && V <= Candidates(ts[ti])
    ensures PinsKept(ts[ti := Dropped(ts[ti], V)], total, total, ceiling)
  {
    PinUpdate(ts, ti, Dropped(ts[ti], V));
  }

  // ---- all tensors -------------------------------------------------------------

  ghost predicate EachResult(t: ExpertTensor, t': ExpertTensor, maxActive: int) {
    if t.mapped then PassResult(t, t', maxActive) else t' == t
  }

  ghost predicate AllEach(ts: Tensors, ts': Tensors, maxActive: int) {
    |ts'| == |ts| && forall i :: 0 <= i < |ts| ==> EachResult(ts[i], ts'[i], maxActive)
  }

  /** Tensor by tensor, eviction took the coldest and, of those, the oldest. */
  ghost predicate AllTookOldest(ts: Tensors, ts': Tensors, history: seq<Slice>) {
    |ts'| == |ts| && forall i: nat :: i < |ts| && ts[i].mapped ==> TookOldest(ts[i], ts'[i], i, history)
  }

  /** Over a whole pass, ceiling included: of a tensor's slices of equal heat, those
      that are gone were selected no later than those that stay without being pinned. */
  ghost predicate PassTookOldest(ts: Tensors, ts': Tensors, history: seq<Slice>) {
    && AllValid(ts) && AllValid(ts') && |ts'| == |ts|
    && forall i: nat, v: nat, c: nat ::
         i < |ts| && ts[i].mapped && v < ts[i].size && ts[i].loaded[v] && !(v < ts'[i].size && ts'[i].loaded[v])
         && c < ts[i].size && c < ts'[i].size && ts'[i].loaded[c] && !ts'[i].pinned[c]
         && (ts[i].windowHits[v] > HOT_PROTECT <==> ts[i].windowHits[c] > HOT_PROTECT) ==>
           LastTouch(history, Slice(i, v)) <= LastTouch(history, Slice(i, c))
  }

  lemma CeilingTookOldest(ts: Tensors, mid: Tensors, ts': Tensors, history: seq<Slice>)
    requires AllValid(ts) && AllTookOldest(ts, mid, history)
    requires DroppedOldest(mid, ts', history)
    requires forall i :: 0 <= i < |mid| ==> mid[i].mapped == ts[i].mapped && ts'[i] == mid[i].(loaded := ts'[i].loaded)
    requires forall i, id :: 0 <= i < |mid| && 0 <= id < mid[i].size && ts'[i].loaded[id] ==> mid[i].loaded[id]
    ensures PassTookOldest(ts, ts', history)
  {
    forall i: nat, v: nat, c: nat |
      i < |ts| && ts[i].mapped && v < ts[i].size && ts[i].loaded[v] && !(v < ts'[i].size && ts'[i].loaded[v])
      && c < ts[i].size && c < ts'[i].size && ts'[i].loaded[c] && !ts'[i].pinned[c]
      && (ts[i].windowHits[v] > HOT_PROTECT <==> ts[i].windowHits[c] > HOT_PROTECT)
      ensures LastTouch(history, Slice(i, v)) <= LastTouch(history, Slice(i, c))
    {
      assert TookOldest(ts[i], mid[i], i, history);
      if !mid[i].loaded[v] {
        assert mid[i].loaded[c];
      }
    }
  }

  /** Every tensor after its own part of a pass, before the byte ceiling. */
  ghost predicate AllPassed(ts: Tensors, passed: Tensors, maxActive: int) {
    AllValid(passed) && AllEach(Rebudgeted(ts, maxActive), passed, maxActive)
  }

  /** A whole pin pass: budgets become the demand shares, every mapped tensor pins
      its hottest and evicts to budget, and the byte ceiling is enforced. In the
      end pins have only grown and the hottest experts are pinned. */
  ghost predicate PinPass(ts: Tensors, ts': Tensors, maxActive: int, ceiling: nat) {
    && |ts'| == |ts| && AllValid(ts) && AllValid(ts')
    && (exists passed :: AllPassed(ts, passed, maxActive) && Capped(passed, ts', ceiling))
    && forall i :: 0 <= i < |ts| ==>
         && ts'[i] == Rebudgeted(ts, maxActive)[i].(loaded := ts'[i].loaded, pinned := ts'[i].pinned)
         && (forall id :: 0 <= id < ts[i].size && ts[i].pinned[id] ==> ts'[i].pinned[id])
         && (forall id :: 0 <= id < ts[i].size && ts'[i].loaded[id] ==> ts[i].loaded[id] || !ts[i].pinned[id])
         && (ts[i].mapped ==> TopHotPinned(ts'[i], maxActive) && WithinBudget(ts'[i], maxActive))
         && (!ts[i].mapped ==> ts'[i].pinned == ts[i].pinned)
  }

  lemma FewerLoaded(t: ExpertTensor, t': ExpertTensor, maxActive: int)
    requires t.Valid() && t'.Valid() && t' == t.(loaded := t'.loaded) && WithinBudget(t, maxActive)
    requires forall id :: 0 <= id < t.size && t'.loaded[id] ==> t.loaded[id]
    ensures WithinBudget(t', maxActive)
  {
    SubsetSize(Resident(t'), Resident(t));
    assert Pinned(t') == Pinned(t);
  }

  lemma CeilingKeepsPass(ts: Tensors, mid: Tensors, ts': Tensors, sorted: seq<Slice>, k: nat, maxActive: int, ceiling: nat)
    requires AllValid(ts) && AllPassed(ts, mid, maxActive) && CappedBy(mid, ts', sorted, k, ceiling)
    ensures PinPass(ts, ts', maxActive, ceiling)
  {
    hide PinnedThenEvicted, CappedBy, Enumerates, ColdFirst;
    CappedShrinks(mid, ts', sorted, k, ceiling);
    assert Capped(mid, ts', ceiling);
    forall i | 0 <= i < |ts| && ts[i].mapped ensures WithinBudget(ts'[i], maxActive) {
      FewerLoaded(mid[i], ts'[i], maxActive);
    }
    forall i | 0 <= i < |ts| && ts[i].mapped ensures TopHotPinned(ts'[i], maxActive) {
      var order :| IsRanking(order, mid[i].windowHits) && TopPinned(mid[i], order, Limit(mid[i], maxActive));
      assert TopPinned(ts'[i], order, Limit(ts'[i], maxActive));
    }
  }

  lemma PassKeepsStats(ts: Tensors, passed: Tensors, maxActive: int)
    requires AllPassed(ts, passed, maxActive)
    ensures AllSameStats(ts, passed)
  {
    hide PinnedThenEvicted, TopHotPinned, WithinBudget;
  }

  lemma PassedMapped(ts: Tensors, passed: Tensors, maxActive: int)
    requires AllPassed(ts, passed, maxActive)
    ensures AllValid(passed) && |passed| == |ts| && forall i :: 0 <= i < |ts| ==> passed[i].mapped == ts[i].mapped
  {
    hide PinnedThenEvicted, TopHotPinned, WithinBudget;
  }

  /** Budgets are no part of it. */
  lemma TookSinceRebudget(ts: Tensors, maxActive: int, ts': Tensors, history: seq<Slice>)
    requires AllValid(ts) && AllTookOldest(Rebudgeted(ts, maxActive), ts', history)
    ensures AllTookOldest(ts, ts', history)
  {
    hide LastTouch, Shares, Demands;
    var r := Rebudgeted(ts, maxActive);
    forall i: nat | i < |ts| && ts[i].mapped ensures TookOldest(ts[i], ts'[i], i, history) {
      assert r[i] == ts[i].(budget := r[i].budget);
      assert TookOldest(r[i], ts'[i], i, history);
    }
  }

  /** A pass leaves unmapped tensors' slices alone. */
  lemma PassKeepsUnmapped(ts: Tensors, passed: Tensors, maxActive: int)
    requires AllPassed(ts, passed, maxActive)
    ensures UnmappedBytes(passed) == UnmappedBytes(ts)
  {
    hide PinnedThenEvicted, TopHotPinned, WithinBudget;
    UnmappedSame(ts, passed);
  }

  /** The ceiling may unload pinned slices, but only when there is a ceiling. */
  lemma CeilingKeepsPins(ts: Tensors, sorted: seq<Slice>, k: nat, total: nat, ceiling: nat)
    requires PinsKept(ts, total, total, ceiling) && AllValid(ts) && Enumerates(ts, sorted) && k <= |sorted|
    requires ceiling == 0 ==> k == 0
    ensures PinsKept(Without(ts, sorted[..k]), total, total, ceiling)
  {
    var r := Without(ts, sorted[..k]);
    PinsSame(ts, r);
    forall i: nat, id: nat | i < |ts| && id < ts[i].size && !ts[i].mapped ensures r[i].loaded[id] {
      assert Slice(i, id) in sorted[..k] ==> Slice(i, id) in sorted;
    }
  }

  // ---- the seeded pass ---------------------------------------------------------

  /** The seeded pin pass: the calibration-hot experts within the top `Limit`
      ranks of some ranking by total are pinned and loaded, nothing is evicted. */
  ghost predicate SeedPinned(t: ExpertTensor, t': ExpertTensor, maxActive: int) {
    && t.Valid() && t'.Valid()
    && t' == t.(loaded := t'.loaded, pinned := t'.pinned)
    && (forall id :: 0 <= id < t.size && t.loaded[id] ==> t'.loaded[id])
    && exists order :: IsRanking(order, Pilot.AsReals(t.totalHits))
         && PinnedTop(t, t', Pilot.AsReals(t.totalHits), order, Limit(t, maxActive))
  }

  ghost predicate AllSeedPinned(ts: Tensors, ts': Tensors, maxActive: int) {
    |ts'| == |ts| && forall i :: 0 <= i < |ts| ==> SeedPinned(ts[i], ts'[i], maxActive)
  }

  lemma SeedDone(t: ExpertTensor, t': ExpertTensor, order: seq<nat>, maxActive: int)
    requires t.Valid() && t'.Valid() && t' == t.(loaded := t'.loaded, pinned := t'.pinned)
    requires IsRanking(order, Pilot.AsReals(t.totalHits))
    requires PinnedTop(t, t', Pilot.AsReals(t.totalHits), order, Limit(t, maxActive))
    ensures SeedPinned(t, t', maxActive)
  {
    PermutationCovers(order, t.size);
    forall id | 0 <= id < t.size && t.loaded[id] ensures t'.loaded[id] {
      assert id in Elements(order);
      var r :| 0 <= r < |order| && order[r] == id;
    }
  }

  lemma SeedKeepsOne(t: ExpertTensor, t': ExpertTensor, maxActive: int)
    requires SeedPinned(t, t', maxActive)
    ensures t'.Valid() && t' == t.(loaded := t'.loaded, pinned := t'.pinned)
    ensures (forall id :: 0 <= id < t.size ==> t.loaded[id]) ==> t'.loaded == t.loaded
  {
  }

  /** What a seeded pass leaves alone: the statistics, and unmapped tensors, which
      are always loaded. */
  lemma SeedKeeps(ts: Tensors, ts': Tensors, maxActive: int, total: nat, ceiling: nat)
    requires AllSeedPinned(Rebudgeted(ts, maxActive), ts', maxActive) && PinsKept(ts, total, total, ceiling)
    ensures AllSameStats(ts, ts') && AllValid(ts') && Floor(ts', ceiling) == Floor(ts, ceiling)
  {
    hide SeedPinned;
    forall i | 0 <= i < |ts| ensures SameStats(ts[i], ts'[i]) && ts'[i].Valid()
      ensures ts'[i].mapped == ts[i].mapped && ts'[i].sliceBytes == ts[i].sliceBytes
      ensures !ts[i].mapped ==> ts'[i].loaded == ts[i].loaded
    {
      assert TensorPins(ts[i], ceiling);
      SeedKeepsOne(Rebudgeted(ts, maxActive)[i], ts'[i], maxActive);
    }
    FloorSame(ts, ts', ceiling);
  }
}
