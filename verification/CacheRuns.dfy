/** Runs of the cache that show where it falls short of what is promised of it. */
module CacheRuns {
  import opened Experts
  import opened Eviction
  import opened Routing
  import opened Budgets
  import opened CacheState
  import opened Ceiling
  import opened Ranking
  import opened PinPasses
  import opened PinHistory
  import opened Learning
  import opened Serving
  import opened Registration
  import opened ExpertCache
  import Pilot

  // ---- more pins than the budget -------------------------------------------------

  /** Of two experts, a ranking starts with the heavier. */
  lemma HeavierFirst(w: seq<real>, order: seq<nat>, top: nat)
    requires |w| == 2 && top < 2 && IsRanking(order, w) && w[top] > w[1 - top]
    ensures order[0] == top
  {
    assert order[0] < 2 && order[1] < 2 && order[0] != order[1];
  }

  /** One tensor alone gets the whole cap. */
  lemma SoleShare(ts: Tensors, maxActive: int)
    requires |ts| == 1 && AllValid(ts) && maxActive > 0
    ensures Limit(Rebudgeted(ts, maxActive)[0], maxActive) == maxActive
  {
    var ds := Demands(ts);
    assert ds[..0] == [];
    assert Sum(ds) == ds[0];
    ShareInRange(ds[0], maxActive, 1, ds[0]);
    DivBounds(ds[0] * maxActive, ds[0], maxActive);
  }

  /** A pin pass over a lone tensor of two experts pins the hotter one. */
  lemma HotterPinned(ts: Tensors, ts': Tensors, ceiling: nat, top: nat)
    requires PinPass(ts, ts', 1, ceiling) && |ts| == 1 && ts[0].size == 2 && ts[0].mapped && top < 2
    requires ts'[0].windowHits[top] > ts'[0].windowHits[1 - top] && ts'[0].windowHits[top] > 0.0
    ensures Limit(ts'[0], 1) == 1 && ts'[0].pinned[top]
  {
    SoleShare(ts, 1);
    var t := ts'[0];
    assert TopHotPinned(t, 1);
    var order :| IsRanking(order, t.windowHits) && TopPinned(t, order, Limit(t, 1));
    HeavierFirst(t.windowHits, order, top);
  }

  /** One mapped tensor of two experts, in layer 0. */
  ghost predicate Lone(ts: Tensors) {
    |ts| == 1 && ts[0].Valid() && ts[0].size == 2 && ts[0].layer == 0 && ts[0].mapped
  }

  lemma NoneKnown(name: string)
    ensures !Known([], name)
  {
  }

  lemma FromTheStart(ts: Tensors, os: seq<Origin>)
    requires AllLearned(ts, [], os)
    ensures |os| == |ts| && forall i :: 0 <= i < |os| ==> os[i].since == 0
  {
    forall i | 0 <= i < |os| ensures os[i].since == 0 {
      assert Learned(ts[i], [], os[i]);
    }
  }

  /** A cache with that one tensor, just registered. */
  method Start(maxActive: int, layer: int, usePilot: bool, share: real) returns (c: Cache)
    requires share >= 0.0
    ensures fresh(c) && c.Valid() && c.tensors == [Fresh("e", layer, 2, 2, true, maxActive)] && c.byteBudget == 0
    ensures c.maxActive == maxActive && c.usePilot == usePilot && c.pilotShare == share
    ensures c.trace == [] && c.eclock == 0 && |c.origins| == 1 && c.origins[0].since == 0 && !c.imatrixSeeded
  {
    hide Cache.Core, Cache.Bounded, Cache.Traced, Fresh, Known, AllLearned;
    c := new Cache(maxActive, usePilot, share, 0);
    NoneKnown("e");
    var _ := c.Register("e", layer, 2, 2, true);
    c.Learns();
    FromTheStart(c.tensors, c.origins);
  }

  lemma StillLone(ts: Tensors, ts': Tensors)
    requires Lone(ts) && |ts'| == |ts| && forall i :: 0 <= i < |ts| ==> OnlyStats(ts[i], ts'[i])
    ensures Lone(ts') && ts'[0].pinned == ts[0].pinned
  {
  }

  /** Without a pilot a router step only serves the selection after the record. */
  lemma StepOfLone(ts: Tensors, ts': Tensors, layer: int, ids: seq<int>, run: RouterRun, pinsNow: bool,
                   maxActive: int, share: real, ceiling: nat)
    requires Lone(ts) && RouterSteps(ts, ts', layer, ids, run, pinsNow, false, maxActive, share, ceiling)
    requires AllRouterServed(run.routed, ts', layer, ids, ceiling)
    ensures Lone(run.learned) && run.learned[0].pinned == ts[0].pinned && run.predicted == {}
    ensures if pinsNow then PinPass(run.learned, run.routed, maxActive, ceiling) else run.routed == run.learned
    ensures Lone(run.routed) ==>
      Lone(ts') && ts'[0] == run.routed[0].(loaded := ts'[0].loaded, lastUsed := ts'[0].lastUsed)
  {
    hide PinPass, AllServed, ServedSet;
    StillLone(ts, run.learned);
    if Lone(run.routed) {
      assert RouterServed(run.routed[0], ts'[0], layer, ids, ceiling);
    }
  }

  /** What it touches: one slice of the tensor, or nothing. */
  lemma TouchesOfLone(routed: Tensors, layer: int, id: nat)
    requires Lone(routed) && id < 2
    ensures AllSelections(routed, layer, [id]) == if layer == 0 then [Slice(0, id)] else []
  {
    assert routed[..0] == [];
    assert [id][..0] == [];
    NoSelections(layer, [id]);
    assert Selections(0, 2, [id]) == Selections(0, 2, []) + [Slice(0, id)];
  }

  lemma NoHit(h: seq<Record>, id: int)
    ensures Hits(h + [Record(1, [0])], 0, 0, id) == Hits(h, 0, 0, id)
  {
    assert (h + [Record(1, [0])])[..|h|] == h;
  }

  /** One router call without a pilot, up to the pin pass it may bring. */
  method Route(c: Cache, layer: int, id: nat) returns (ghost run: RouterRun)
    requires c.Valid() && c.eclock < UINT64_MAX && Lone(c.tensors) && !c.usePilot && id < 2
    modifies c
    ensures c.Valid() && c.byteBudget == old(c.byteBudget) && c.origins == old(c.origins)
    ensures c.trace == old(c.trace) + [Record(layer, [id])]
    ensures Lone(run.learned) && run.learned[0].pinned == old(c.tensors)[0].pinned
    ensures if PinsNow(|c.trace|) then PinPass(run.learned, run.routed, c.maxActive, c.byteBudget)
      else run.routed == run.learned
    ensures Lone(run.routed) ==>
      Lone(c.tensors) && c.tensors[0] == run.routed[0].(loaded := c.tensors[0].loaded, lastUsed := c.tensors[0].lastUsed)
    ensures Lone(run.routed) ==> c.eclock == old(c.eclock) + (if layer == 0 then 1 else 0)
  {
    hide Cache.Core, Cache.Bounded, Cache.Traced, RouterSteps, AllRouterServed, AllEntryServed, OnePinningMore, Rebudgeted,
      LoadedBytes, SameTensors, PinPass, Touched, AllSelections, TicksAre;
    ghost var ts, history := c.tensors, c.touches;
    c.TicksCounted();
    run := c.OnRouterComputed(layer, [id]);
    c.TicksCounted();
    StepOfLone(ts, c.tensors, layer, [id], run, PinsNow(|c.trace|), c.maxActive, c.pilotShare, c.byteBudget);
    NothingTouched(history + AllSelections(run.routed, layer, [id]), c.touches, run.served, run.next);
    if Lone(run.routed) {
      TouchesOfLone(run.routed, layer, id);
    }
  }

  /** Records of another layer, up to the next pin pass. */
  method Elsewhere(c: Cache, n: nat)
    requires c.Valid() && c.eclock < UINT64_MAX && Lone(c.tensors) && !c.usePilot
    requires forall j :: |c.trace| < j <= |c.trace| + n ==> !PinsNow(j)
    modifies c
    ensures c.Valid() && c.eclock == old(c.eclock) && |c.trace| == old(|c.trace|) + n && c.byteBudget == old(c.byteBudget)
    ensures Lone(c.tensors) && c.tensors[0].pinned == old(c.tensors)[0].pinned && c.origins == old(c.origins)
    ensures forall id :: Hits(c.trace, 0, 0, id) == Hits(old(c.trace), 0, 0, id)
  {
    hide Cache.Core, Cache.Bounded, Cache.Traced, PinPass, Hits;
    for i := 0 to n
      invariant c.Valid() && c.eclock == old(c.eclock) && |c.trace| == old(|c.trace|) + i && c.byteBudget == old(c.byteBudget)
      invariant Lone(c.tensors) && c.tensors[0].pinned == old(c.tensors)[0].pinned && c.origins == old(c.origins)
      invariant forall id :: Hits(c.trace, 0, 0, id) == Hits(old(c.trace), 0, 0, id)
    {
      ghost var h := c.trace;
      ghost var run := Route(c, 1, 0);
      forall id ensures Hits(c.trace, 0, 0, id) == Hits(h, 0, 0, id) {
        NoHit(h, id);
      }
    }
  }

  lemma PassedLone(ts: Tensors, ts': Tensors, ceiling: nat)
    requires PinPass(ts, ts', 1, ceiling) && Lone(ts)
    ensures Lone(ts') && forall id :: 0 <= id < 2 && ts[0].pinned[id] ==> ts'[0].pinned[id]
  {
  }

  /** More hits make more hotness. */
  lemma HotterKnown(ts: Tensors, h: seq<Record>, os: seq<Origin>, top: nat)
    requires Lone(ts) && AllLearned(ts, h, os) && os[0].since == 0 && top < 2
    requires Hits(h, 0, 0, top) > Hits(h, 0, 0, 1 - top)
    ensures ts[0].windowHits[top] > ts[0].windowHits[1 - top] && ts[0].windowHits[top] > 0.0
  {
    assert Learned(ts[0], h, os[0]);
    HotnessOrder(Hits(h, 0, 0, 1 - top), Hits(h, 0, 0, top));
    HotMeansTwice(Hits(h, 0, 0, top));
  }

  /** A pass under a budget of one: it pins the hotter expert and keeps the rest. */
  method PassFor(c: Cache, top: nat)
    requires c.Valid() && c.eclock < UINT64_MAX && Lone(c.tensors) && !c.usePilot && c.maxActive == 1
    requires PinsNow(|c.trace| + 1) && top < 2 && |c.origins| == 1 && c.origins[0].since == 0
    requires Hits(c.trace, 0, 0, top) > Hits(c.trace, 0, 0, 1 - top)
    modifies c
    ensures c.Valid() && c.eclock == old(c.eclock) && |c.trace| == old(|c.trace|) + 1 && c.byteBudget == old(c.byteBudget)
    ensures Lone(c.tensors) && c.origins == old(c.origins) && Limit(c.tensors[0], 1) == 1
    ensures c.tensors[0].pinned[top]
    ensures forall id :: 0 <= id < 2 && old(c.tensors)[0].pinned[id] ==> c.tensors[0].pinned[id]
    ensures forall id :: Hits(c.trace, 0, 0, id) == Hits(old(c.trace), 0, 0, id)
  {
    hide Cache.Core, Cache.Bounded, Cache.Traced, PinPass, AllLearned, Hits;
    ghost var h := c.trace;
    ghost var run := Route(c, 1, 0);
    PassedLone(run.learned, run.routed, c.byteBudget);
    forall id ensures Hits(c.trace, 0, 0, id) == Hits(h, 0, 0, id) {
      NoHit(h, id);
    }
    c.Learns();
    HotterKnown(c.tensors, c.trace, c.origins, top);
    HotterPinned(run.learned, run.routed, c.byteBudget, top);
  }

  lemma OneHit(h: seq<Record>, id: nat, x: int)
    ensures Hits(h + [Record(0, [id])], 0, 0, x) == Hits(h, 0, 0, x) + (if x == id then 1 else 0)
  {
    assert (h + [Record(0, [id])])[..|h|] == h;
    assert [id][..0] == [];
    assert Occurrences([id], x) == Occurrences([], x) + (if id == x then 1 else 0);
  }

  /** One selection of an expert of the tensor, between passes. */
  method Select(c: Cache, id: nat)
    requires c.Valid() && c.eclock < UINT64_MAX && Lone(c.tensors) && !c.usePilot && !PinsNow(|c.trace| + 1) && id < 2
    modifies c
    ensures c.Valid() && c.eclock == old(c.eclock) + 1 && |c.trace| == old(|c.trace|) + 1 && c.byteBudget == old(c.byteBudget)
    ensures Lone(c.tensors) && c.tensors[0].pinned == old(c.tensors)[0].pinned && c.origins == old(c.origins)
    ensures forall x :: Hits(c.trace, 0, 0, x) == Hits(old(c.trace), 0, 0, x) + (if x == id then 1 else 0)
  {
    hide Cache.Core, Cache.Bounded, Cache.Traced, PinPass, Hits;
    ghost var h := c.trace;
    ghost var run := Route(c, 0, id);
    forall x ensures Hits(c.trace, 0, 0, x) == Hits(h, 0, 0, x) + (if x == id then 1 else 0) {
      OneHit(h, id, x);
    }
  }

  /** Two experts and a budget of one. The first is hit once and pinned by the pass
      at 200 records; the second is hit twice and pinned by the pass at 400. */
  method PinsOutgrowBudget() returns (c: Cache)
    ensures fresh(c) && c.Valid() && c.maxActive == 1 && c.byteBudget == 0 && Lone(c.tensors) && |c.trace| == 400
    ensures Limit(c.tensors[0], c.maxActive) == 1 && |Pinned(c.tensors[0])| == 2
  {
    hide Cache.Core, Cache.Bounded, Cache.Traced, Resident, Pinned;
    c := Start(1, 0, false, 0.9);
    Select(c, 0);
    Elsewhere(c, 198);
    PassFor(c, 0);
    Select(c, 1);
    Select(c, 1);
    Elsewhere(c, 197);
    PassFor(c, 1);
    assert Pinned(c.tensors[0]) == {0, 1};
  }

  // ---- a selected slice that stays out ---------------------------------------------

  /** A prior of one selection each pins both experts of a tensor. */
  lemma BothSeeded(ts: Tensors, seen: Tensors, ts': Tensors)
    requires ts == [Fresh("e", 0, 2, 2, true, 2)] && seen == Primed(ts, [("e", [1, 1])])
    ensures seen[0].totalHits == [1, 1] && seen != ts
    ensures AllSeedPinned(Rebudgeted(seen, 2), ts', 2) ==> Lone(ts') && ts'[0].pinned == [true, true] && ts'[0].sliceBytes == 1
  {
    var entries := [("e", [1, 1])];
    assert entries[..0] == [];
    PrimedNext(ts, entries);
    assert Names(ts, "e", 0);
    assert seen[0] == ts[0].(totalHits := AddedCounts(ts[0].totalHits, [1, 1]));
    if AllSeedPinned(Rebudgeted(seen, 2), ts', 2) {
      var t, t' := Rebudgeted(seen, 2)[0], ts'[0];
      SoleShare(seen, 2);
      assert SeedPinned(t, t', 2);
      var w := Pilot.AsReals(t.totalHits);
      var order :| IsRanking(order, w) && PinnedTop(t, t', w, order, Limit(t, 2));
      assert t'.pinned[order[0]] && t'.pinned[order[1]] && order[0] != order[1];
    }
  }

  /** At one byte, two one-byte slices are not both loaded. */
  lemma OneDropped(ts: Tensors)
    requires Lone(ts) && ts[0].sliceBytes == 1 && LoadedBytes(ts) <= 1
    ensures !ts[0].loaded[0] || !ts[0].loaded[1]
  {
    var b := ts[0].loaded;
    assert ts[..0] == [];
    assert b[..1][..0] == [];
    assert Ones(b) == Ones(b[..1]) + (if b[1] then 1 else 0);
  }

  lemma ServedLone(ts: Tensors, routed: Tensors, ts': Tensors, layer: int, ids: seq<int>, ceiling: nat)
    requires Lone(ts) && SameTensors(ts, routed) && AllRouterServed(routed, ts', layer, ids, ceiling)
    ensures Lone(ts') && forall id :: 0 <= id < 2 && ts[0].pinned[id] ==> ts'[0].pinned[id]
  {
  }

  /** The cache after the prior and one enforcement. */
  method OneTooMany() returns (c: Cache)
    ensures fresh(c) && c.Valid() && c.byteBudget == 1 && Lone(c.tensors) && c.trace == [] && c.eclock == 0
    ensures c.tensors[0].pinned == [true, true] && !(c.tensors[0].loaded[0] && c.tensors[0].loaded[1])
  {
    hide Cache.Core, Cache.Bounded, Cache.Traced, AllSeedPinned, LoadedBytes, OnePinningMore, Primed, Raised, Rebudgeted,
      SameTensors, Enumerates, ColdFirst, CappedBy, Without, UnmappedBytes;
    c := Start(2, 0, false, 0.9);
    c.SetCeiling(1);
    ghost var ts := c.tensors;
    var seeded, seen := c.ApplyPrior([("e", [1, 1])]);
    BothSeeded(ts, seen, c.tensors);
    UnmappedIsFloor(c.tensors);
    ghost var _, _ := c.EnforceCeiling();
    c.Facts();
    OneDropped(c.tensors);
  }

  /** Both experts pinned by a prior, a ceiling of one slice, and a token that selects
      both: one of them ends pinned, selected and not loaded. */
  method PinnedSliceStaysOut() returns (c: Cache, id: nat)
    ensures fresh(c) && c.Valid() && c.byteBudget == 1 && Lone(c.tensors) && c.trace == [Record(0, [0, 1])]
    ensures id in [0, 1] && c.tensors[0].pinned[id] && !c.tensors[0].loaded[id]
  {
    hide Cache.Core, Cache.Bounded, Cache.Traced, RouterSteps, AllRouterServed, OnePinningMore, Rebudgeted,
      LoadedBytes, SameTensors;
    c := OneTooMany();
    id := if c.tensors[0].loaded[0] then 1 else 0;
    ghost var ts := c.tensors;
    ghost var run := c.OnRouterComputed(0, [0, 1]);
    assert EntryServed(ts[0], c.tensors[0], 0, [0, 1], false, 1);
    ServedLone(ts, run.routed, c.tensors, 0, [0, 1], 1);
  }

  // ---- a ceiling below what cannot be evicted --------------------------------------

  lemma UnmappedOnly(ts: Tensors)
    requires |ts| == 1 && !ts[0].mapped
    ensures UnmappedBytes(ts) == LoadedBytes(ts)
  {
    assert ts[..0] == [];
  }

  /** Two bytes without a file mapping stay, whatever the ceiling. */
  method CeilingOutOfReach() returns (c: Cache)
    ensures fresh(c) && c.Valid() && c.byteBudget == 1 && c.residentBytes == 2
  {
    hide Cache.Core, Cache.Bounded, Cache.Traced, LoadedBytes;
    c := new Cache(1, false, 0.9, 1);
    var _ := c.Register("e", 0, 2, 2, false);
    c.Facts();
    UnmappedOnly(c.tensors);
    ghost var _, _ := c.EnforceCeiling();
    c.Facts();
    UnmappedIsFloor(c.tensors);
  }

  // ---- a share of the mass above one -------------------------------------------------

  /** One mapped tensor of two experts with a budget of two, in layer 1. */
  ghost predicate Later(ts: Tensors) {
    |ts| == 1 && ts[0].Valid() && ts[0].size == 2 && ts[0].layer == 1 && ts[0].mapped && ts[0].budget == 2
  }

  /** A router step before the first pin pass keeps it, and predicts from what it has
      learned with the record. */
  lemma StepOfLater(ts: Tensors, ts': Tensors, layer: int, ids: seq<int>, run: RouterRun, ceiling: nat)
    requires Later(ts) && RouterSteps(ts, ts', layer, ids, run, false, true, 2, 2.0, ceiling)
    ensures Later(run.routed) && Later(run.served) && Later(ts') && run.served[0].trans == ts'[0].trans
    ensures Piloted(run.served, layer, ids, true, 2, 2.0, run.next, run.parts, run.predicted)
  {
    hide Piloted;
    assert OnlyStats(ts[0], run.learned[0]) && ServedAt(run.routed[0], run.served[0], layer, ids);
    var asked: seq<int> :| (forall x :: x in asked <==> x in run.predicted) && AllServed(run.served, ts', run.next, asked);
    assert ServedAt(run.served[0], ts'[0], run.next, asked);
  }

  lemma TouchesOfLater(ts: Tensors, layer: int, ids: seq<int>)
    requires Later(ts)
    ensures AllSelections(ts, layer, ids) == if layer == 1 then Selections(0, 2, ids) else []
    ensures Selections(0, 2, [0]) == [Slice(0, 0)]
  {
    assert ts[..0] == [];
    assert [0][..0] == [];
    NoSelections(layer, ids);
    assert Selections(0, 2, [0]) == Selections(0, 2, []) + [Slice(0, 0)];
  }

  /** One router call for the first expert, with a pilot that asks for twice the mass. */
  method Ask(c: Cache, layer: int) returns (ghost run: RouterRun)
    requires c.Valid() && c.eclock < UINT64_MAX && Later(c.tensors) && c.usePilot && c.pilotShare == 2.0 && c.maxActive == 2
    requires !PinsNow(|c.trace| + 1)
    modifies c
    ensures c.Valid() && c.trace == old(c.trace) + [Record(layer, [0])] && c.origins == old(c.origins)
    ensures Later(c.tensors) && Later(run.served) && run.served[0].trans == c.tensors[0].trans
    ensures Piloted(run.served, layer, [0], true, 2, 2.0, run.next, run.parts, run.predicted)
    ensures var history := if layer == 1 then old(c.touches) + [Slice(0, 0)] else old(c.touches);
      Touched(history, c.touches, run.served, run.next, run.predicted)
  {
    hide Cache.Core, Cache.Bounded, Cache.Traced, RouterSteps, AllRouterServed, AllEntryServed, OnePinningMore, Rebudgeted,
      LoadedBytes, SameTensors, Touched, Piloted;
    ghost var ts := c.tensors;
    assert c.touches + [] == c.touches;
    run := c.OnRouterComputed(layer, [0]);
    StepOfLater(ts, c.tensors, layer, [0], run, c.byteBudget);
    TouchesOfLater(run.routed, layer, [0]);
  }

  lemma NextIs(ts: Tensors, layer: int, next: int)
    requires NextChosen(ts, layer, next) && Later(ts)
    ensures next == if layer < 1 then 1 else -1
  {
    assert HasLayer(ts, 1);
  }

  lemma NoChoice(t: ExpertTensor, P: set<nat>)
    requires t.Valid() && t.size == 2 && Pilot.Weights(t.trans, 2, [0]) == [0.0, 0.0]
    requires PilotChoice(t, [0], 2, 2.0, P)
    ensures P == {}
  {
    hide Pilot.Weights, Pilot.Pruned;
    var w: seq<real> := [0.0, 0.0];
    assert Pilot.Positive(w) == {};
  }

  /** Nothing is predicted before a transition is learned, or after the last layer. */
  lemma NoneYet(ts: Tensors, layer: int, next: int, parts: seq<set<nat>>, predicted: set<nat>)
    requires Later(ts) && Piloted(ts, layer, [0], true, 2, 2.0, next, parts, predicted)
    requires layer >= 1 || Pilot.Weights(ts[0].trans, 2, [0]) == [0.0, 0.0]
    ensures predicted == {}
  {
    hide PilotChoice, Pilot.Weights, NextChosen;
    NextIs(ts, layer, next);
    if layer < 1 {
      assert forall e :: e in predicted ==> e in parts[0];
      NoChoice(ts[0], parts[0]);
    }
  }

  lemma WeightsAre(t: ExpertTensor, h: seq<Record>, o: Origin)
    requires Learned(t, h, o) && o.since == 0 && t.layer == 1 && t.size == 2
    ensures Pilot.Weights(t.trans, 2, [0]) == [Transitions(h, 0, 1, 0, 0) as real, Transitions(h, 0, 1, 0, 1) as real]
  {
    hide Transitions, Hits;
    assert [0][..0] == [];
    assert Pilot.Cell(t.trans, 2, 0, 0) == Transitions(h, 0, 1, 0, 0);
    assert Pilot.Cell(t.trans, 2, 0, 1) == Transitions(h, 0, 1, 0, 1);
    forall to: nat | to < 2 ensures Pilot.ScoreAt(t.trans, 2, [0], to) == Pilot.Cell(t.trans, 2, 0, to) {
      assert Pilot.ScoreAt(t.trans, 2, [], to) == 0;
    }
  }

  /** The first expert of layer 1 follows the first of layer 0, once. */
  lemma OneTransition(to: nat)
    requires to < 2
    ensures Transitions([Record(0, [0])], 0, 1, 0, to) == 0
    ensures var h := [Record(0, [0]), Record(1, [0]), Record(0, [0])];
      Transitions(h, 0, 1, 0, to) == (if to == 0 then 1 else 0) && Hits(h, 0, 1, 1) == 0
  {
    var h := [Record(0, [0]), Record(1, [0]), Record(0, [0])];
    assert h[..1] == [Record(0, [0])];
    assert h[..2][..1] == h[..1] && h[..1][..0] == [] && [0][..0] == [];
    assert Transitions(h[..1], 0, 1, 0, to) == Transitions([], 0, 1, 0, to) + 0;
    assert Occurrences([0], to) == Occurrences([], to) + (if to == 0 then 1 else 0);
    assert Occurrences([0], 0) == Occurrences([], 0) + 1;
    assert Transitions(h[..2], 0, 1, 0, to) == Transitions(h[..1], 0, 1, 0, to) + 1 * Occurrences([0], to);
    assert Transitions(h, 0, 1, 0, to) == Transitions(h[..2], 0, 1, 0, to) + 0;
    assert Hits(h[..2], 0, 1, 1) == Hits(h[..1], 0, 1, 1) + Occurrences([0], 1);
    assert Occurrences([0], 1) == Occurrences([], 1) + 0;
  }

  lemma LaterWeights(ts: Tensors, h: seq<Record>, os: seq<Origin>)
    requires AllLearned(ts, h, os) && Later(ts) && os[0].since == 0
    ensures Pilot.Weights(ts[0].trans, 2, [0]) == [Transitions(h, 0, 1, 0, 0) as real, Transitions(h, 0, 1, 0, 1) as real]
  {
    WeightsAre(ts[0], h, os[0]);
  }

  /** A token that selects the first expert twice in a row. */
  method Trained() returns (c: Cache)
    ensures fresh(c) && c.Valid() && c.usePilot && c.pilotShare == 2.0 && c.maxActive == 2 && c.eclock <= 1
    ensures c.trace == [Record(0, [0]), Record(1, [0])] && Later(c.tensors)
    ensures |c.origins| == 1 && c.origins[0].since == 0
  {
    hide Cache.Core, Cache.Bounded, Cache.Traced, Touched, Piloted, Transitions, AllLearned;
    c := Start(2, 1, true, 2.0);
    c.TicksCounted();
    ghost var history := c.touches;
    ghost var run := Ask(c, 0);
    OneTransition(0);
    OneTransition(1);
    c.Learns();
    LaterWeights(c.tensors, c.trace, c.origins);
    assert c.trace == [Record(0, [0])];
    NoneYet(run.served, 0, run.next, run.parts, run.predicted);
    NothingTouched(history, c.touches, run.served, run.next);
    c.TicksCounted();
    run := Ask(c, 1);
    NoneYet(run.served, 1, run.next, run.parts, run.predicted);
    NothingTouched(history + [Slice(0, 0)], c.touches, run.served, run.next);
    c.TicksCounted();
  }

  /** Half of what is asked for is not there, so both experts are kept. */
  lemma BothKept(t: ExpertTensor, P: set<nat>)
    requires t.Valid() && t.size == 2 && t.budget == 2 && Pilot.Weights(t.trans, 2, [0]) == [1.0, 0.0]
    requires PilotChoice(t, [0], 2, 2.0, P)
    ensures 1 in P
  {
    var w: seq<real> := [1.0, 0.0];
    assert 0 in Pilot.Positive(w);
    assert Total(w) == 1.0 by {
      assert Mass(w, Below(2), 1) == Mass(w, Below(2), 0) + 1.0;
    }
    var order, m: nat :| Pilot.Keeps(w, order, 2, Pilot.Cutoff(2.0, Total(w)), m) && P == Elements(order[..m]);
    FullPrefix(w, order);
    PrefixMassMonotone(w, order, m, 2);
    PermutationCovers(order, 2);
    assert order[..2] == order;
  }

  lemma {:induction false} Selected(ti: nat, size: nat, ids: seq<int>, id: nat) returns (k: nat)
    requires id in ids && id < size
    ensures k < |Selections(ti, size, ids)| && Selections(ti, size, ids)[k] == Slice(ti, id)
  {
    var n := |ids| - 1;
    if ids[n] == id {
      k := |Selections(ti, size, ids[..n])|;
    } else {
      k := Selected(ti, size, ids[..n], id);
    }
  }

  /** A predicted expert of the tensor has been touched. */
  lemma Ticked(ts: Tensors, history: seq<Slice>, history': seq<Slice>, served: Tensors, s: set<nat>)
    requires Later(ts) && Later(served) && TicksAre(ts, history') && Touched(history, history', served, 1, s) && 1 in s
    ensures ts[0].lastUsed[1] > 0
  {
    hide AllSelections, Selections, LastTouch;
    var ids: seq<int> :| (forall x :: x in ids <==> x in s) && history' == history + AllSelections(served, 1, ids);
    TouchesOfLater(served, 1, ids);
    var k := Selected(0, 2, ids, 1);
    assert history'[|history| + k] == Slice(0, 1);
    LastTouchIsLast(history', Slice(0, 1), |history| + k);
  }

  /** The same first expert again, in the next token: with twice the mass asked for,
      PILOT also reads the second one, which was never selected and never followed
      a selected one. */
  method ShareAboveOne() returns (c: Cache)
    ensures fresh(c) && c.Valid() && c.pilotShare == 2.0 && Later(c.tensors)
    ensures c.trace == [Record(0, [0]), Record(1, [0]), Record(0, [0])]
    ensures c.tensors[0].lastUsed[1] > 0
    ensures Hits(c.trace, 0, 1, 1) == 0 && Transitions(c.trace, 0, 1, 0, 1) == 0
  {
    hide Cache.Core, Cache.Bounded, Cache.Traced, PilotChoice, Touched, Transitions, Hits, Pilot.Weights,
      AllLearned, TicksAre;
    c := Trained();
    ghost var history := c.touches;
    ghost var run := Ask(c, 0);
    OneTransition(0);
    OneTransition(1);
    c.Learns();
    c.TicksCounted();
    LaterWeights(c.tensors, c.trace, c.origins);
    assert c.trace == [Record(0, [0]), Record(1, [0]), Record(0, [0])];
    NextIs(run.served, 0, run.next);
    BothKept(run.served[0], run.parts[0]);
    Ticked(c.tensors, history, c.touches, run.served, run.predicted);
  }
}
