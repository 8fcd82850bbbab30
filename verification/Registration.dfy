/** Registering expert tensors and seeding them from an imatrix prior. */
module Registration {
  import opened Experts
  import opened Eviction
  import opened CacheState
  import opened Ranking
  import opened Budgets
  import opened Routing
  import opened PinPasses
  import opened PinHistory
  import opened Learning
  import Pilot

  // ---- a new tensor ------------------------------------------------------------

  /** A newly registered tensor: mapped resident, with no history. */
  function Fresh(name: string, layer: int, byteSize: nat, num: nat, mapped: bool, maxActive: int): (t: ExpertTensor)
    requires num > 1
  {
    ExpertTensor(name, layer, num, byteSize / num, mapped, seq(num, _ => true), seq(num, _ => 0), seq(num, _ => 0.0),
                 seq(num, _ => false), seq(num, _ => 0), seq(num * num, _ => 0), maxActive)
  }

  lemma WholeSlices(bytes: nat, n: nat)
    requires n > 0 && bytes > 0 && bytes % n == 0
    ensures bytes / n >= 1 && (bytes / n) * n == bytes
  {
    DivBounds(bytes, n, 1);
  }

  /** What is registered: the tensor as given, in slices of equal size, all loaded and
      none pinned, selected or counted, and with the whole cap as its budget. */
  lemma RegisteredAs(name: string, layer: int, byteSize: nat, num: int, mapped: bool, maxActive: int, id: nat)
    requires num > 1 && byteSize > 0 && byteSize % num == 0 && id < num
    ensures var t := Fresh(name, layer, byteSize, num, mapped, maxActive);
      && t.name == name && t.layer == layer && t.size == num && t.mapped == mapped && t.budget == maxActive
      && t.sliceBytes * num == byteSize
      && t.loaded[id] && !t.pinned[id] && t.totalHits[id] == 0 && t.windowHits[id] == 0.0 && t.lastUsed[id] == 0
  {
    WholeSlices(byteSize, num);
  }

  /** A tensor as registration enters it: whole slices, and no history. */
  predicate NewTensor(t: ExpertTensor, byteSize: nat) {
    && t.size > 1 && byteSize > 0 && byteSize % t.size == 0
    && t == Fresh(t.name, t.layer, byteSize, t.size, t.mapped, t.budget)
  }

  lemma {:induction false} CountAll(b: seq<bool>, v: bool)
    requires forall i :: 0 <= i < |b| ==> b[i] == v
    ensures Ones(b) == if v then |b| else 0
  {
    if b == [] {
    } else {
      CountAll(b[..|b| - 1], v);
    }
  }

  /** A slice of no registered tensor was never selected. */
  lemma {:induction false} NeverTouched(n: nat, history: seq<Slice>, s: Slice)
    requires OnlyTouches(n, history) && s.tensor >= n
    ensures LastTouch(history, s) == 0
  {
    if history == [] {
    } else {
      assert history[|history| - 1] in history;
      NeverTouched(n, history[..|history| - 1], s);
    }
  }

  lemma FreshTensor(t: ExpertTensor, h: seq<Record>, byteSize: nat)
    requires NewTensor(t, byteSize)
    ensures t.Valid() && TensorBytes(t) == byteSize && Ones(t.pinned) == 0
    ensures Learned(t, h, Origin(|h|, t.totalHits))
  {
    CountAll(t.loaded, true);
    CountAll(t.pinned, false);
    WholeSlices(byteSize, t.size);
    forall a, b | 0 <= a < t.size && 0 <= b < t.size
      ensures Pilot.Cell(t.trans, t.size, a, b) == 0 {
      Pilot.CellInRange(t.size, a, b);
    }
  }

  lemma FreshKeeps(ts: Tensors, t: ExpertTensor, history: seq<Slice>, h: seq<Record>, os: seq<Origin>,
                   total: nat, ceiling: nat, byteSize: nat, resident: nat, layers: seq<int>, layers': seq<int>)
    requires LedgerIs(ts, resident) && TicksAre(ts, history) && StatsAre(ts, h, os, layers)
    requires PinsKept(ts, total, total, ceiling) && Listed(ts + [t], layers')
    requires NewTensor(t, byteSize)
    ensures var ts' := ts + [t];
      && LedgerIs(ts', resident + byteSize) && TicksAre(ts', history)
      && StatsAre(ts', h, os + [Origin(|h|, t.totalHits)], layers')
      && PinsKept(ts', total, total, ceiling)
  {
    hide Listed, NoneEmpty;
    var ts' := ts + [t];
    FreshTensor(t, h, byteSize);
    assert ts'[..|ts|] == ts;
    forall id | 0 <= id < t.size ensures LastTouch(history, Slice(|ts|, id)) == 0 {
      NeverTouched(|ts|, history, Slice(|ts|, id));
    }
  }

  /** A new tensor has no pins, and only raises what cannot be evicted. */
  lemma FreshPins(ts: Tensors, t: ExpertTensor, ess: seq<seq<Pinning>>, ceiling: nat, byteSize: nat,
                  resident: nat, since: nat)
    requires AllPins(ts, ess) && NewTensor(t, byteSize)
    requires BoundedBy(ts, ceiling, resident, since)
    ensures AllPins(ts + [t], ess + [[]])
    ensures BoundedBy(ts + [t], ceiling, resident + byteSize, since + byteSize)
  {
    assert (ts + [t])[..|ts|] == ts;
    WholeSlices(byteSize, t.size);
    assert Pinned(t) == {};
    assert PinsAre(t, []);
  }

  /** It has been in no pass. */
  lemma FreshTraced(ts: Tensors, t: ExpertTensor, h: seq<Record>, os: seq<Origin>, ess: seq<seq<Pinning>>, prior: Prior,
                    maxActive: int, byteSize: nat)
    requires AllTraced(ts, h, os, ess, prior, maxActive) && NewTensor(t, byteSize) && t.budget == maxActive
    ensures AllTraced(ts + [t], h, os + [Origin(|h|, t.totalHits)], ess + [[]], prior, maxActive)
  {
    hide AllTraced;
    TracedNew(ts, t, h, os, Origin(|h|, t.totalHits), ess, prior, maxActive);
  }

  ghost predicate Known(ts: Tensors, name: string) {
    exists i :: 0 <= i < |ts| && ts[i].name == name
  }

  /** The tensor a name refers to; registration keeps names distinct. */
  predicate Names(ts: Tensors, name: string, i: nat)
    requires i < |ts|
  {
    ts[i].name == name && forall j :: 0 <= j < i ==> ts[j].name != name
  }

  method FindTensor(ts: Tensors, name: string) returns (ti: int)
    ensures -1 <= ti < |ts|
    ensures ti >= 0 ==> Names(ts, name, ti)
    ensures ti < 0 <==> !Known(ts, name)
  {
    for i := 0 to |ts|
      invariant forall j :: 0 <= j < i ==> ts[j].name != name
    {
      if ts[i].name == name {
        return i;
      }
    }
    ti := -1;
  }

  lemma HasLayerAppend(ts: Tensors, t: ExpertTensor, l: int)
    ensures HasLayer(ts + [t], l) <==> HasLayer(ts, l) || t.layer == l
  {
    var ts' := ts + [t];
    if i :| 0 <= i < |ts| && ts[i].layer == l {
      assert ts'[i].layer == l;
    }
    assert ts'[|ts|] == t;
  }

  /** Keep the layer list sorted and duplicate-free. */
  method WithLayer(ghost ts: Tensors, layers: seq<int>, t: ExpertTensor) returns (r: seq<int>)
    requires Listed(ts, layers)
    ensures Listed(ts + [t], r)
  {
    var p := 0;
    while p < |layers| && layers[p] < t.layer
      invariant 0 <= p <= |layers| && forall j :: 0 <= j < p ==> layers[j] < t.layer
    {
      p := p + 1;
    }
    if p < |layers| && layers[p] == t.layer {
      r := layers;
    } else {
      r := layers[..p] + [t.layer] + layers[p..];
    }
    forall l: int ensures l in r <==> HasLayer(ts + [t], l) {
      HasLayerAppend(ts, t, l);
      assert l in r <==> l in layers || l == t.layer;
    }
  }

  // ---- the prior ---------------------------------------------------------------

  /** Totals with a prior's positive counts added. */
  function AddedCounts(totals: seq<nat>, counts: seq<int>): (r: seq<nat>)
    ensures |r| == |totals|
  {
    seq(|totals|, i requires 0 <= i < |totals| =>
      if i < |counts| && counts[i] > 0 then totals[i] + counts[i] else totals[i])
  }

  /** One entry of a prior: its counts go to the tensor it names, if any. */
  function Credited(ts: Tensors, name: string, counts: seq<int>): (r: Tensors)
    ensures |r| == |ts|
  {
    seq(|ts|, i requires 0 <= i < |ts| =>
      if Names(ts, name, i) then ts[i].(totalHits := AddedCounts(ts[i].totalHits, counts)) else ts[i])
  }

  /** The tensors after a prior's entries have been added to the totals they name. */
  function Primed(ts: Tensors, entries: seq<(string, seq<int>)>): (r: Tensors)
    ensures |r| == |ts|
  {
    if entries == [] then ts
    else
      var e := entries[|entries| - 1];
      Credited(Primed(ts, entries[..|entries| - 1]), e.0, e.1)
  }

  lemma PrimedNone(ts: Tensors)
    ensures Primed(ts, []) == ts
  {
  }

  lemma PrimedNext(ts: Tensors, entries: seq<(string, seq<int>)>)
    requires entries != []
    ensures var e := entries[|entries| - 1];
      Primed(ts, entries) == Credited(Primed(ts, entries[..|entries| - 1]), e.0, e.1)
  {
  }

  lemma CreditedOne(ts: Tensors, name: string, counts: seq<int>, ti: int)
    requires -1 <= ti < |ts| && (ti >= 0 ==> Names(ts, name, ti)) && (ti < 0 <==> !Known(ts, name))
    ensures Credited(ts, name, counts) ==
      if ti < 0 then ts else ts[ti := ts[ti].(totalHits := AddedCounts(ts[ti].totalHits, counts))]
  {
    hide AddedCounts;
    forall i | 0 <= i < |ts| ensures Names(ts, name, i) <==> i == ti {
      if i < ti {
        assert ts[i].name != name;
      }
    }
  }

  lemma {:induction false} PrimedKeeps(ts: Tensors, entries: seq<(string, seq<int>)>)
    requires AllValid(ts)
    ensures forall i :: 0 <= i < |ts| ==> OnlyStats(ts[i], Primed(ts, entries)[i])
    ensures SameTensors(ts, Primed(ts, entries))
  {
    if entries == [] {
    } else {
      PrimedKeeps(ts, entries[..|entries| - 1]);
    }
    StatsKeepTensors(ts, Primed(ts, entries));
  }

  /** What a prior gives an expert: the positive counts of every entry with its tensor's
      name. */
  function Given(ts: Tensors, entries: seq<(string, seq<int>)>, i: nat, id: nat): nat
    requires i < |ts|
  {
    if entries == [] then 0
    else
      var e := entries[|entries| - 1];
      Given(ts, entries[..|entries| - 1], i, id)
      + (if ts[i].name == e.0 && (forall j :: 0 <= j < i ==> ts[j].name != e.0) && id < |e.1| && e.1[id] > 0 then e.1[id] else 0)
  }

  /** A prior adds exactly that to every total. */
  lemma {:induction false} PrimedGives(ts: Tensors, entries: seq<(string, seq<int>)>, i: nat, id: nat)
    requires i < |ts| && id < |ts[i].totalHits|
    ensures |Primed(ts, entries)[i].totalHits| == |ts[i].totalHits|
    ensures Primed(ts, entries)[i].totalHits[id] == ts[i].totalHits[id] + Given(ts, entries, i, id)
    ensures forall j :: 0 <= j < |ts| ==> Primed(ts, entries)[j].name == ts[j].name
  {
    if entries == [] {
    } else {
      PrimedGives(ts, entries[..|entries| - 1], i, id);
    }
  }

  ghost predicate NoneLower(ts: Tensors, ts': Tensors) {
    |ts'| == |ts| && forall i :: 0 <= i < |ts| ==>
      |ts'[i].totalHits| == |ts[i].totalHits|
      && forall id :: 0 <= id < |ts[i].totalHits| ==> ts'[i].totalHits[id] >= ts[i].totalHits[id]
  }

  /** Some total has gone up, and none has gone down. */
  ghost predicate Raised(ts: Tensors, ts': Tensors) {
    && NoneLower(ts, ts')
    && exists i, id :: 0 <= i < |ts| && 0 <= id < |ts[i].totalHits| && ts'[i].totalHits[id] > ts[i].totalHits[id]
  }

  lemma StillRaised(ts: Tensors, mid: Tensors, ti: nat, counts: seq<int>, seeded: nat, n: nat)
    requires ti < |mid|
    requires if seeded == 0 then mid == ts else Raised(ts, mid)
    requires n > 0 <==> AddedCounts(mid[ti].totalHits, counts) != mid[ti].totalHits
    ensures var ts' := mid[ti := mid[ti].(totalHits := AddedCounts(mid[ti].totalHits, counts))];
      if seeded + n == 0 then ts' == ts else Raised(ts, ts')
  {
    var added := AddedCounts(mid[ti].totalHits, counts);
    var ts' := mid[ti := mid[ti].(totalHits := added)];
    assert NoneLower(mid, ts');
    if n > 0 {
      var id :| 0 <= id < |added| && added[id] != mid[ti].totalHits[id];
      assert ts'[ti].totalHits[id] > ts[ti].totalHits[id];
    } else if seeded > 0 {
      var i, id :| 0 <= i < |ts| && 0 <= id < |ts[i].totalHits| && mid[i].totalHits[id] > ts[i].totalHits[id];
      assert ts'[i].totalHits[id] > ts[i].totalHits[id];
    }
  }

  lemma SeedLearned(t: ExpertTensor, counts: seq<int>, h: seq<Record>, o: Origin)
    requires Learned(t, h, o)
    ensures Learned(t.(totalHits := AddedCounts(t.totalHits, counts)), h, o.(seeds := AddedCounts(o.seeds, counts)))
  {
  }

  function Seeded(os: seq<Origin>, ti: nat, counts: seq<int>): (r: seq<Origin>)
    requires ti < |os|
    ensures |r| == |os|
  {
    os[ti := os[ti].(seeds := AddedCounts(os[ti].seeds, counts))]
  }

  /** One tensor's totals and seeds grow together. */
  lemma SeedOne(ts: Tensors, ti: nat, counts: seq<int>, h: seq<Record>, os: seq<Origin>, layers: seq<int>)
    requires StatsAre(ts, h, os, layers) && AllValid(ts) && ti < |ts|
    ensures |os| == |ts|
    ensures var ts' := ts[ti := ts[ti].(totalHits := AddedCounts(ts[ti].totalHits, counts))];
      StatsAre(ts', h, Seeded(os, ti, counts), layers)
  {
    hide Listed, NoneEmpty, Learned, AddedCounts;
    SeedLearned(ts[ti], counts, h, os[ti]);
    SameLayers(ts, ts[ti := ts[ti].(totalHits := AddedCounts(ts[ti].totalHits, counts))], layers);
  }

  /** The tensors were registered when they were. */
  ghost predicate SameSince(os: seq<Origin>, os': seq<Origin>) {
    |os'| == |os| && forall i :: 0 <= i < |os| ==> os'[i].since == os[i].since
  }

  /** A first prior leaves a count somewhere exactly if it raised some total. */
  lemma SeedingWhenRaised(ts: Tensors, mid: Tensors, h: seq<Record>, os: seq<Origin>, os': seq<Origin>, seeded: nat)
    requires AllLearned(ts, h, os) && AllLearned(mid, h, os') && SameSince(os, os') && !Seeding(os)
    requires |mid| == |ts| && forall i :: 0 <= i < |ts| ==> OnlyStats(ts[i], mid[i])
    requires if seeded == 0 then mid == ts else Raised(ts, mid)
    ensures Seeding(os') <==> seeded > 0
  {
    hide Hits, Transitions;
    forall i, id | 0 <= i < |ts| && 0 <= id < ts[i].size
      ensures |os'[i].seeds| == ts[i].size
      ensures os'[i].seeds[id] == mid[i].totalHits[id] - ts[i].totalHits[id]
    {
      assert Learned(ts[i], h, os[i]) && Learned(mid[i], h, os'[i]);
      assert os[i].seeds[id] == 0;
    }
    if i, id :| 0 <= i < |os'| && 0 <= id < |os'[i].seeds| && os'[i].seeds[id] > 0 {
      assert Learned(mid[i], h, os'[i]);
      assert mid[i].totalHits[id] > ts[i].totalHits[id];
    }
    if seeded > 0 {
      var i, id :| 0 <= i < |ts| && 0 <= id < |ts[i].totalHits| && mid[i].totalHits[id] > ts[i].totalHits[id];
      assert Learned(ts[i], h, os[i]);
      assert os'[i].seeds[id] > 0;
    }
  }

  lemma SeededShape(ts: Tensors, ts': Tensors, maxActive: int)
    requires AllSeedPinned(Rebudgeted(ts, maxActive), ts', maxActive)
    ensures AllSameShape(ts, ts', maxActive)
  {
    forall i | 0 <= i < |ts| ensures SameShape(ts[i], ts'[i], maxActive) {
      assert SeedPinned(Rebudgeted(ts, maxActive)[i], ts'[i], maxActive);
    }
  }

  lemma Unprimed(ts: Tensors, h: seq<Record>, os: seq<Origin>, ess: seq<seq<Pinning>>, maxActive: int)
    requires AllTraced(ts, h, os, ess, NoPrior, maxActive)
    ensures !Seeding(os) && |os| == |ts|
  {
  }

  /** Applying the prior is one step of the history, with a pass if it seeded
      anything. */
  lemma PriorTraced(ts: Tensors, mid: Tensors, ts': Tensors, h: seq<Record>, os: seq<Origin>, os': seq<Origin>,
                    ess: seq<seq<Pinning>>, ess': seq<seq<Pinning>>, maxActive: int, seeded: nat)
    requires AllTraced(ts, h, os, ess, NoPrior, maxActive) && AllLearned(ts, h, os) && AllLearned(mid, h, os')
    requires SameSince(os, os') && |mid| == |ts| && forall i :: 0 <= i < |ts| ==> OnlyStats(ts[i], mid[i])
    requires if seeded == 0 then mid == ts else Raised(ts, mid)
    requires seeded == 0 ==> ts' == mid && ess' == ess
    requires seeded > 0 ==> AllSeedPinned(Rebudgeted(mid, maxActive), ts', maxActive)
    requires seeded > 0 ==> OnePinningMore(Rebudgeted(mid, maxActive), ess, ess', maxActive, true)
    ensures AllTraced(ts', h, os', ess', PriorAt(|h|, |ts|), maxActive)
  {
    Unprimed(ts, h, os, ess, maxActive);
    hide AllTraced, AllLearned, OnePinningMore, Rebudgeted, AllSameShape, OnlyStats, Seeding, Raised, AllSeedPinned,
      Learned, PinningOf, Live, Moments;
    SeedingWhenRaised(ts, mid, h, os, os', seeded);
    StatsKeepShape(ts, mid, maxActive);
    ShapeRefl(mid, maxActive);
    if seeded > 0 {
      SeededShape(mid, ts', maxActive);
    }
    assert AllSameShape(mid, ts', maxActive);
    TracedPrior(ts, mid, ts', h, os, os', ess, ess', maxActive);
  }

  lemma SeedKeepsTensors(ts: Tensors, mid: Tensors, ts': Tensors, maxActive: int)
    requires |mid| == |ts| && forall i :: 0 <= i < |ts| ==> OnlyStats(ts[i], mid[i])
    requires AllSeedPinned(Rebudgeted(mid, maxActive), ts', maxActive)
    ensures SameTensors(ts, ts')
  {
    forall i, id | 0 <= i < |ts| && 0 <= id < ts[i].size && ts[i].pinned[id] ensures ts'[i].pinned[id] {
      var t := Rebudgeted(mid, maxActive)[i];
      var order :| IsRanking(order, Pilot.AsReals(t.totalHits))
        && PinnedTop(t, ts'[i], Pilot.AsReals(t.totalHits), order, Limit(t, maxActive));
      PermutationCovers(order, t.size);
      assert id in Elements(order);
      var r :| 0 <= r < |order| && order[r] == id;
    }
  }
}
