/** SteppeLoader behind its model hook: the layer pager and the expert cache
    driven together by boundary and router callbacks. */
module Loader {
  import opened Experts
  import opened Ceiling
  import opened ExpertCache
  import opened PinPasses
  import opened PinHistory
  import opened Learning
  import opened Serving
  import opened LayerPager
  import opened PagerProofs
  import PagerModel
  import Registration
  import Prefixes
  import CacheState
  import Eviction
  import Routing

  datatype Event = Boundary(layer: int) | Router(layer: int, ids: seq<int>)

  /** Nothing the ceiling cannot reach. */
  ghost predicate AllMapped(ts: Tensors) {
    forall i :: 0 <= i < |ts| ==> ts[i].mapped
  }

  /** The router records among some events. */
  function Recorded(events: seq<Event>): seq<Routing.Record> {
    if events == [] then []
    else
      var e := events[|events| - 1];
      Recorded(events[..|events| - 1]) + (if e.Router? && e.ids != [] then [Routing.Record(e.layer, e.ids)] else [])
  }

  /** The boundary calls among some events. */
  function Boundaries(events: seq<Event>): seq<int> {
    if events == [] then []
    else
      var e := events[|events| - 1];
      Boundaries(events[..|events| - 1]) + (if e.Boundary? then [e.layer] else [])
  }

  /** Residency before compute: what the router just selected is pinned or loaded,
      and loaded without a ceiling. */
  ghost predicate SelectionResident(t: ExpertTensor, layer: int, ids: seq<int>, ceiling: nat)
    requires t.Valid()
  {
    t.layer == layer && t.mapped ==> forall id :: 0 <= id < t.size && id in ids ==>
      (t.pinned[id] || t.loaded[id]) && (ceiling == 0 ==> t.loaded[id])
  }

  ghost predicate AllResident(ts: Tensors, layer: int, ids: seq<int>, ceiling: nat) {
    AllValid(ts) && forall i :: 0 <= i < |ts| ==> SelectionResident(ts[i], layer, ids, ceiling)
  }

  ghost predicate PinsGrow(ts: Tensors, ts': Tensors) {
    |ts'| == |ts| && forall i :: 0 <= i < |ts| ==>
      && ts'[i].mapped == ts[i].mapped && |ts'[i].pinned| == |ts[i].pinned|
      && forall id :: 0 <= id < |ts[i].pinned| && ts[i].pinned[id] ==> ts'[i].pinned[id]
  }

  lemma RouterKeepsPins(ts: Tensors, routed: Tensors, ts': Tensors, layer: int, ids: seq<int>, ceiling: nat)
    requires SameTensors(ts, routed) && |ts'| == |routed|
    requires AllRouterServed(routed, ts', layer, ids, ceiling)
    ensures PinsGrow(ts, ts') && AllResident(ts', layer, ids, ceiling)
  {
  }

  lemma OnlyLoadedMoved(ts: Tensors, ts': Tensors)
    requires |ts'| == |ts| && AllValid(ts) && AllValid(ts')
    requires forall i :: 0 <= i < |ts| ==> ts'[i] == ts[i].(loaded := ts'[i].loaded)
    ensures PinsGrow(ts, ts')
  {
  }

  lemma PinsGrowRefl(ts: Tensors)
    ensures PinsGrow(ts, ts)
  {
  }

  lemma NoneToPrime(prior: seq<(string, seq<int>)>)
    ensures Registration.Primed([], prior) == []
  {
  }

  class SteppeLoader {
    const pager: Pager
    const cache: Cache

    constructor (pager: Pager, cache: Cache)
      ensures this.pager == pager && this.cache == cache
    {
      this.pager, this.cache := pager, cache;
    }

    /** Registration is over and the resident prefix is filled. */
    ghost predicate Ready()
      reads this, pager, pager.ring, cache
    {
      && pager.Valid() && Inv(pager.Lay(), pager.St()) && Prefix(pager.Lay(), pager.St())
      && cache.Valid()
    }

    /** A hybrid model whose first layer fits the pager's half of the budget. */
    ghost predicate HybridSplit()
      reads this, pager, cache
    {
      var split := Prefixes.Split(pager.budget, true);
      && cache.byteBudget == split.experts > 0
      && Prefixes.LargestFit(pager.layers, pager.nLayers, split.pager, pager.residentLayers)
      && Prefixes.LayerBytes(pager.layers, 0) <= split.pager
    }

    /** The resident prefix and the expert slices together. */
    ghost function HeldBytes(): nat
      reads this, pager, cache
    {
      Prefixes.PrefixBytes(pager.layers, pager.residentLayers) + cache.residentBytes
    }

    /** on_tensors_loaded: fill the prefix, splitting the budget of a hybrid
        model, then seed the pins from the imatrix prior; `seen` are the tensors with
        its counts added. */
    method OnTensorsLoaded(failed: set<PagerModel.SlabId>, prior: seq<(string, seq<int>)>)
      returns (ghost seeded: nat, ghost seen: Tensors)
      requires pager.Valid() && pager.St() == PagerModel.Initial(pager.Lay()) && pager.residentLayers == 0
      requires pager.totalBytes == Prefixes.PrefixBytes(pager.layers, pager.nLayers)
      requires cache.Valid() && cache.byteBudget == 0
      modifies pager, pager.ring, cache
      ensures Ready() && SameTensors(old(cache.tensors), cache.tensors)
      ensures seen == if old(cache.imatrixSeeded) then old(cache.tensors) else Registration.Primed(old(cache.tensors), prior)
      ensures seeded == 0 ==> cache.tensors == seen == old(cache.tensors)
      ensures seeded > 0 ==> Registration.Raised(old(cache.tensors), seen)
      ensures seeded > 0 ==> AllSeedPinned(CacheState.Rebudgeted(seen, cache.maxActive), cache.tensors, cache.maxActive)
      ensures pager.layers != map[] ==>
        var split := Prefixes.Split(pager.budget, old(cache.tensors) != []);
        && pager.St() == PagerModel.Filled(pager.Lay())
        && cache.byteBudget == split.experts
        && (pager.budget > 1 && old(cache.tensors) != [] && Prefixes.LayerBytes(pager.layers, 0) <= split.pager ==>
              HybridSplit())
        && Prefixes.LargestFit(pager.layers, pager.nLayers, split.pager, pager.residentLayers)
    {
      hide Inv, Prefix, SameTensors, Cache.Valid, Prefixes.LargestFit, Registration.Primed, Registration.Raised, AllSeedPinned,
        OnePinningMore, CacheState.Rebudgeted, AllValid;
      var experts := pager.FillResidentLayers(cache.tensors != [], failed);
      if pager.layers != map[] {
        cache.SetCeiling(experts);
      }
      NoneToPrime(prior);
      seeded, seen := cache.ApplyPrior(prior);
    }

    /** on_layer_boundary: a new pass also enforces the expert ceiling. */
    method OnLayerBoundary(layer: int) returns (newPass: bool)
      requires Ready()
      modifies pager, pager.ring, cache`tensors, cache`residentBytes, cache`evictions, cache`loadedSince
      ensures Ready() && PinsGrow(old(cache.tensors), cache.tensors) && cache.trace == old(cache.trace)
      ensures pager.St() == PagerModel.OnBoundary(old(pager.Lay()), old(pager.St()), layer) && pager.Lay() == old(pager.Lay())
      ensures newPass && cache.byteBudget > 0 && AllMapped(cache.tensors) ==> cache.residentBytes <= cache.byteBudget
      ensures !newPass ==> cache.tensors == old(cache.tensors)
      ensures old(HybridSplit()) ==> HybridSplit()
      ensures newPass && HybridSplit() && AllMapped(cache.tensors) ==> HeldBytes() <= pager.budget
      ensures newPass && cache.byteBudget > 0 ==> cache.loadedSince == 0
      ensures newPass ==> AllValid(old(cache.tensors)) && SparesExactly(old(cache.tensors), cache.tensors, cache.byteBudget)
      ensures newPass == (pager.layers != map[] && 0 <= layer <= old(pager.lastBoundary))
    {
      hide Inv, Prefix, Cache.Sound, Cache.Traced, LoadedBytes, SparesExactly, AllValid;
      newPass := pager.OnLayerBoundary(layer);
      PinsGrowRefl(cache.tensors);
      if newPass {
        ghost var ts := cache.tensors;
        ghost var sorted, k := cache.EnforceCeiling();
        OnlyLoadedMoved(ts, cache.tensors);
        CacheState.UnmappedIsFloor(ts);
      }
      HybridFits(this);
    }

    /** on_router_computed. */
    method OnRouterComputed(layer: int, ids: seq<int>)
      requires Ready() && cache.eclock < Eviction.UINT64_MAX
      modifies cache
      ensures Ready() && PinsGrow(old(cache.tensors), cache.tensors) && cache.byteBudget == old(cache.byteBudget)
      ensures old(HybridSplit()) ==> HybridSplit()
      ensures cache.trace == old(cache.trace) + Recorded([Router(layer, ids)])
      ensures AllResident(cache.tensors, layer, ids, cache.byteBudget)
      ensures ids != [] ==>
        AllEntryServed(old(cache.tensors), cache.tensors, layer, ids, PinsNow(|cache.trace|), cache.byteBudget)
    {
      hide Inv, Prefix, Cache.Valid, RouterSteps, OnePinningMore, CacheState.Rebudgeted, LoadedBytes, AllEntryServed,
        AllRouterServed, SameTensors;
      ghost var ts := cache.tensors;
      ghost var run := cache.OnRouterComputed(layer, ids);
      assert [Router(layer, ids)][..0] == [];
      RouterKeepsPins(ts, run.routed, cache.tensors, layer, ids, cache.byteBudget);
    }
  }

  /** Under its ceiling, a hybrid model is within its whole budget. */
  lemma HybridFits(loader: SteppeLoader)
    ensures loader.HybridSplit() && loader.cache.residentBytes <= loader.cache.byteBudget
      ==> loader.HeldBytes() <= loader.pager.budget
  {
    var pager, cache := loader.pager, loader.cache;
    if loader.HybridSplit() && cache.residentBytes <= cache.byteBudget {
      Prefixes.HybridWithinBudget(pager.layers, pager.nLayers, pager.budget, pager.residentLayers, cache.residentBytes);
    }
  }

  /** Between two enforcements residency exceeds what enforcement reaches by no more
      than the bytes loaded since, and a hybrid model its whole budget by no more. */
  lemma BetweenEnforcements(loader: SteppeLoader)
    requires loader.Ready() && loader.cache.byteBudget > 0
    ensures loader.cache.residentBytes <=
      CacheState.Floor(loader.cache.tensors, loader.cache.byteBudget) + loader.cache.loadedSince
    ensures loader.HybridSplit() && AllMapped(loader.cache.tensors)
      ==> loader.HeldBytes() <= loader.pager.budget + loader.cache.loadedSince
  {
    hide Cache.Core;
    var pager, cache := loader.pager, loader.cache;
    if loader.HybridSplit() && AllMapped(cache.tensors) {
      CacheState.UnmappedIsFloor(cache.tensors);
      Prefixes.HybridWithinBudget(pager.layers, pager.nLayers, pager.budget, pager.residentLayers, cache.byteBudget);
    }
  }

  lemma Totals(loader: SteppeLoader)
    requires loader.Ready()
    ensures loader.HybridSplit() && AllMapped(loader.cache.tensors) ==>
      loader.HeldBytes() <= loader.pager.budget + loader.cache.loadedSince
  {
    hide SteppeLoader.Ready;
    if loader.HybridSplit() {
      BetweenEnforcements(loader);
    }
  }

  lemma PinsGrowOn(a: Tensors, b: Tensors, c: Tensors)
    requires PinsGrow(a, b) && PinsGrow(b, c)
    ensures PinsGrow(a, c)
  {
  }

  lemma RecordedNone()
    ensures Boundaries([]) == [] && forall g, s :: PagerModel.Run(g, s, []) == s
    ensures Recorded([]) == [] && forall l :: Recorded([Boundary(l)]) == []
  {
  }

  lemma BoundariesNext(events: seq<Event>, i: nat, g: PagerModel.Layout, s: PagerModel.State)
    requires i < |events|
    ensures var bs := Boundaries(events[..i]); var bs' := Boundaries(events[..i + 1]);
      PagerModel.Run(g, s, bs') == match events[i]
        case Boundary(layer) => PagerModel.OnBoundary(g, PagerModel.Run(g, s, bs), layer)
        case Router(_, _) => PagerModel.Run(g, s, bs)
  {
    assert events[..i + 1][..i] == events[..i];
    var bs := Boundaries(events[..i]);
    if events[i].Boundary? {
      assert (bs + [events[i].layer])[..|bs|] == bs;
    } else {
      assert bs + [] == bs;
    }
  }

  lemma RecordedNext(events: seq<Event>, i: nat)
    requires i < |events|
    ensures Recorded(events[..i + 1]) == Recorded(events[..i]) + Recorded([events[i]])
  {
    assert events[..i + 1][..i] == events[..i];
    assert [events[i]][..0] == [];
    assert Recorded([]) == [];
  }

  /** Any sequence of callbacks, until the recency clock could overflow: the pager
      and the cache stay consistent, no pin is ever lost, and the statistics are
      those of the router records delivered. */
  method Drive(loader: SteppeLoader, events: seq<Event>) returns (done: nat)
    requires loader.Ready()
    modifies loader.pager, loader.pager.ring, loader.cache
    ensures loader.Ready() && done <= |events|
    ensures done < |events| ==> loader.cache.eclock >= Eviction.UINT64_MAX
    ensures loader.cache.trace == old(loader.cache.trace) + Recorded(events[..done])
    ensures loader.pager.Lay() == old(loader.pager.Lay())
    ensures old(loader.HybridSplit()) ==> loader.HybridSplit()
    ensures loader.pager.St() == PagerModel.Run(loader.pager.Lay(), old(loader.pager.St()), Boundaries(events[..done]))
    ensures PinsGrow(old(loader.cache.tensors), loader.cache.tensors)
    ensures loader.cache.byteBudget == old(loader.cache.byteBudget)
    ensures old(loader.HybridSplit()) && AllMapped(loader.cache.tensors) ==>
      loader.HeldBytes() <= loader.pager.budget + loader.cache.loadedSince
  {
    hide SteppeLoader.Ready, SteppeLoader.HybridSplit, Recorded, PinsGrow, PagerModel.OnBoundary, Boundaries, PagerModel.Run;
    PinsGrowRefl(loader.cache.tensors);
    done := 0;
    RecordedNone();
    while done < |events|
      invariant loader.Ready() && done <= |events|
      invariant loader.cache.trace == old(loader.cache.trace) + Recorded(events[..done])
      invariant loader.pager.Lay() == old(loader.pager.Lay())
      invariant old(loader.HybridSplit()) ==> loader.HybridSplit()
      invariant loader.pager.St() == PagerModel.Run(loader.pager.Lay(), old(loader.pager.St()), Boundaries(events[..done]))
      invariant loader.cache.byteBudget == old(loader.cache.byteBudget)
      invariant PinsGrow(old(loader.cache.tensors), loader.cache.tensors)
    {
      RecordedNext(events, done);
      BoundariesNext(events, done, loader.pager.Lay(), old(loader.pager.St()));
      ghost var ts := loader.cache.tensors;
      match events[done] {
        case Boundary(layer) =>
          var _ := loader.OnLayerBoundary(layer);
        case Router(layer, ids) =>
          if loader.cache.eclock >= Eviction.UINT64_MAX {
            Totals(loader);
            return;
          }
          loader.OnRouterComputed(layer, ids);
      }
      PinsGrowOn(old(loader.cache.tensors), ts, loader.cache.tensors);
      done := done + 1;
    }
    Totals(loader);
  }
}
