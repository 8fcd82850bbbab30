/** The layer-window pager of SteppeLoader: in-place methods, each proved to
    perform the step PagerModel describes. */
module LayerPager {
  import opened PagerModel
  import opened PagerProofs
  import opened PagerRuns
  import opened SlabRing
  import opened Prefixes
  import opened StreamRegistry
  import Collections

  lemma {:induction false} ReapManyFrame(s: State, n: nat)
    requires n <= |s.ring|
    ensures ReapMany(s, n) == s.(ring := ReapMany(s, n).ring, filled := ReapMany(s, n).filled)
    decreases n
  {
    if n == 0 {
    } else {
      ReapManyFrame(Reap(s), n - 1);
    }
  }

  lemma {:induction false} SlabReadFrame(s: State, ids: seq<SlabId>)
    ensures SlabRead(s, ids) == s.(ring := SlabRead(s, ids).ring, filled := SlabRead(s, ids).filled)
    decreases |ids|
  {
    if ids == [] {
    } else {
      var m := ChunkLength(ids);
      ReapManyFrame(Submit(s, 0, ids[..m]), m);
      SlabReadFrame(ReadChunk(s, ids[..m]), ids[m..]);
    }
  }

  lemma SlicesNext(k: int, ts: seq<StreamTensor>, i: nat, slices: seq<SlabId>)
    requires i < |ts|
    ensures slices + SlicesFrom(k, ts, i) ==
      (if RingReadable(ts[i]) then slices + [SlabId(k, i)] else slices) + SlicesFrom(k, ts, i + 1)
  {
    if !RingReadable(ts[i]) {
      assert SlicesFrom(k, ts, i) == SlicesFrom(k, ts, i + 1);
    }
  }

  class Pager {
    const ring: Ring
    const nLayers: nat
    const ahead: int
    const budget: nat                         // dense_budget_bytes
    const totalBytes: nat                     // stream_total_bytes_
    var layers: map<int, seq<StreamTensor>>   // stream_layers_
    var residentLayers: nat                   // stream_resident_layers_
    var useSlab: bool                         // config_.dense_use_slab
    var resident: seq<bool>
    var inflight: map<int, nat>
    var submittedUpto: int
    var lastBoundary: int
    var prefetchOps: nat
    var evictOps: nat
    var waitOps: nat

    function Lay(): Layout
      reads this
    {
      Layout(layers, nLayers, residentLayers, ahead, useSlab, ring.ok)
    }

    ghost function St(): State
      reads this, ring
    {
      State(resident, inflight, submittedUpto, lastBoundary, ring.cq, ring.filled, prefetchOps, evictOps, waitOps)
    }

    ghost predicate Valid()
      reads this, ring
    {
      ring.Valid() && Lay().Valid() && |resident| == nLayers
    }

    /** Registration is over; no layer is resident and no slab exists yet. */
    constructor (ring: Ring, registry: Registry, ahead: int, useSlab: bool, budget: nat)
      requires ring.Valid() && ring.cq == [] && ring.filled == {} && registry.Valid()
      ensures Valid() && this.ring == ring && this.budget == budget && totalBytes == PrefixBytes(layers, nLayers)
      ensures Lay() == Layout(registry.layers, registry.nLayers, 0, ahead, useSlab, ring.ok)
      ensures St() == Initial(Lay())
    {
      this.ring, this.ahead, this.useSlab, this.budget := ring, ahead, useSlab, budget;
      layers, nLayers, totalBytes := registry.layers, registry.nLayers, registry.totalBytes;
      residentLayers := 0;
      resident := seq(registry.nLayers, _ => false);
      inflight, submittedUpto, lastBoundary := map[], -1, -1;
      prefetchOps, evictOps, waitOps := 0, 0, 0;
    }

    /** Gather the slices the ring can read, as both refill paths do. */
    method GatherSlices(k: int) returns (slices: seq<SlabId>)
      requires k in layers
      ensures slices == Slices(Lay(), k)
    {
      var ts := layers[k];
      slices := [];
      for i := 0 to |ts|
        invariant slices + SlicesFrom(k, ts, i) == SlicesFrom(k, ts, 0)
      {
        SlicesNext(k, ts, i, slices);
        if !(!ts[i].slab || ts[i].byteSize == 0 || ts[i].byteSize > UINT32_MAX) {
          slices := slices + [SlabId(k, i)];
        }
      }
    }

    method MarkResident(k: int, b: bool)
      requires Valid()
      modifies `resident
      ensures Valid() && Lay() == old(Lay()) && St() == old(St()).SetResident(k, b)
    {
      if 0 <= k < |resident| {
        resident := resident[k := b];
      }
    }

    /** The synchronous ring read of one layer's slices. */
    method ReadSlices(slices: seq<SlabId>) returns (done: bool)
      requires Valid() && ring.ok
      modifies ring
      ensures Valid() && St() == SlabRead(old(St()), slices) && done == (slices != [])
    {
      SlabReadFrame(St(), slices);
      done := ring.Read(slices, St());
    }

    /** prefetch_layer. */
    method PrefetchLayer(k: int)
      requires Valid()
      modifies `resident, `prefetchOps, ring
      ensures Valid() && St() == PagerModel.PrefetchLayer(Lay(), old(St()), k)
    {
      if k !in layers {
        return;
      }
      if 0 <= k < |resident| && resident[k] {
        return;
      }
      prefetchOps := prefetchOps + 1;
      if useSlab && ring.ok {
        var slices := GatherSlices(k);
        var done := ReadSlices(slices);
        if slices != [] && done {
          MarkResident(k, true);
          return;
        }
      }
      ring.filled := ring.filled + Slabs(Lay(), k);   // pread, complete; WILLNEED moves no bytes
      MarkResident(k, true);
    }

    /** submit_layer_async; `queued` is its result. */
    method SubmitLayerAsync(k: int) returns (queued: bool)
      requires Valid()
      modifies `inflight, ring
      ensures Valid() && St() == SubmitLayer(Lay(), old(St()), k)
      ensures queued <==> useSlab && ring.ok && k in layers && (old(St()).Resident(k) || k in inflight)
    {
      if !useSlab || !ring.ok {
        return false;
      }
      if k !in layers {
        return false;
      }
      if 0 <= k < |resident| && resident[k] {
        return true;
      }
      if k in inflight {
        return true;
      }
      var slices := GatherSlices(k);
      if slices == [] {
        return false;
      }
      var n := ring.Submit(slices, k);
      inflight := inflight[k := n];
      queued := true;
    }

    /** Reap one completion and book it against its layer. */
    method ReapOne()
      requires Valid() && ring.ok && ring.cq != []
      modifies `inflight, ring
      ensures Valid() && St() == Complete(old(St()))
    {
      var _, token := ring.Reap();
      if token in inflight {
        if inflight[token] <= 1 {
          inflight := inflight - {token};
        } else {
          inflight := inflight[token := inflight[token] - 1];
        }
      }
    }

    /** ensure_layer. Every reap finds an outstanding completion, so it never
        blocks for good. */
    method EnsureLayer(k: int)
      requires Valid() && RingInv(Lay(), St())
      modifies `resident, `inflight, `prefetchOps, `waitOps, ring
      ensures Valid() && St() == PagerModel.EnsureLayer(Lay(), old(St()), k)
    {
      if 0 <= k < |resident| && resident[k] {
        return;
      }
      if ring.ok && k in inflight {
        RingFrame(Lay(), St(), St().(waitOps := waitOps + 1));
        waitOps := waitOps + 1;
        ghost var s := St();
        while k in inflight && inflight[k] > 0
          invariant Valid() && RingInv(Lay(), St())
          invariant Await(St(), k) == Await(s, k)
          decreases |ring.cq|
        {
          assert Pending(ring.cq, k) == InFlight(St(), k);
          CompleteKeeps(Lay(), St());
          ReapOne();
        }
        MarkResident(k, true);
        return;
      }
      PrefetchLayer(k);
    }

    /** drain_inflight. */
    method DrainInflight()
      requires Valid() && RingInv(Lay(), St())
      modifies `inflight, ring
      ensures Valid() && St() == Drain(Lay(), old(St()))
    {
      if ring.ok {
        ghost var s := St();
        while inflight != map[]
          invariant Valid() && RingInv(Lay(), St())
          invariant DrainLoop(St()) == DrainLoop(s)
          decreases |ring.cq|
        {
          ghost var k := Collections.Member(inflight.Keys);
          assert Pending(ring.cq, k) == InFlight(St(), k);
          CompleteKeeps(Lay(), St());
          ReapOne();
        }
      }
      inflight := map[];
    }

    /** evict_layer. */
    method EvictLayer(k: int)
      requires Valid()
      modifies `resident, `evictOps, ring
      ensures Valid() && St() == PagerModel.EvictLayer(Lay(), old(St()), k)
    {
      if k !in layers {
        return;
      }
      if k < |resident| && !resident[k] {
        return;
      }
      evictOps := evictOps + 1;
      var slabs := Slabs(Lay(), k);
      ring.Release(slabs);
      MarkResident(k, false);
    }

    /** A boundary at or before the last one starts a new pass: drain the ring and
        restart the submit frontier at the edge of the resident prefix. */
    method StartPass()
      requires Valid() && Inv(Lay(), St())
      modifies `inflight, `submittedUpto, `lastBoundary, ring
      ensures Valid() && St() == NewPass(Lay(), old(St()))
    {
      RingFrame(Lay(), St(), St().(last := -1));
      lastBoundary := -1;
      DrainInflight();
      submittedUpto := residentLayers - 1;
    }

    lemma RingOf(g: Layout, s: State)
      requires Inv(g, s)
      ensures RingInv(g, s) && -1 <= s.upto
    {
    }

    method SubmitFrontier(target: int)
      requires Valid() && -1 <= submittedUpto
      modifies `inflight, `submittedUpto, ring
      ensures Valid() && St() == SubmitUpto(Lay(), old(St()), target)
    {
      var k := submittedUpto + 1;
      while k <= target && k < nLayers
        invariant Valid() && k == submittedUpto + 1
        invariant SubmitUpto(Lay(), St(), target) == SubmitUpto(Lay(), old(St()), target)
        decreases target - k
      {
        if k >= residentLayers {
          var _ := SubmitLayerAsync(k);
        }
        submittedUpto := k;
        k := k + 1;
      }
    }

    /** The next layer is made resident before its turn, */
    method BringIn(next: int)
      requires Valid() && RingInv(Lay(), St())
      modifies `resident, `inflight, `prefetchOps, `waitOps, ring
      ensures Valid() && St() == EnsureNext(Lay(), old(St()), next)
    {
      if next >= residentLayers && next < nLayers {
        EnsureLayer(next);
      }
    }

    /** and the one just computed is released. */
    method LetGo(layer: int)
      requires Valid() && 0 <= layer < nLayers
      modifies `resident, `evictOps, ring
      ensures Valid() && St() == PagerModel.Release(Lay(), old(St()), layer)
    {
      if layer >= residentLayers && layer < nLayers && layer < |resident| && resident[layer] {
        EvictLayer(layer);
      }
    }

    method AdvanceTo(layer: int)
      requires Valid() && Inv(Lay(), St()) && Prefix(Lay(), St()) && lastBoundary == layer && 0 <= layer < nLayers
      modifies `resident, `inflight, `submittedUpto, `prefetchOps, `evictOps, `waitOps, ring
      ensures Valid() && St() == Advance(Lay(), old(St()), layer)
    {
      hide Inv, EnsureNext, PagerModel.Release, SubmitUpto, RingInv;
      ghost var s := St();
      var a := if ahead < 1 then 1 else ahead;
      RingOf(Lay(), s);
      SubmitFrontier(layer + a);
      SubmitUptoKeeps(Lay(), s, layer + a);
      RingOf(Lay(), St());
      BringIn(layer + 1);
      LetGo(layer);
    }

    /** on_layer_boundary; `newPass` tells the caller to enforce the expert
        byte ceiling, which is due at this point. */
    method OnLayerBoundary(layer: int) returns (newPass: bool)
      requires Valid() && Inv(Lay(), St()) && Prefix(Lay(), St())
      modifies `resident, `inflight, `submittedUpto, `lastBoundary, `prefetchOps, `evictOps, `waitOps, ring
      ensures Valid() && St() == OnBoundary(Lay(), old(St()), layer)
      ensures Inv(Lay(), St()) && Prefix(Lay(), St())
      ensures newPass <==> layers != map[] && 0 <= layer <= old(lastBoundary)
    {
      hide Inv;
      BoundaryKeeps(Lay(), St(), layer);
      newPass := false;
      if layers == map[] || layer < 0 {
        return;
      }
      if layer <= lastBoundary {
        NewPassKeeps(Lay(), St(), layer);
        StartPass();
        newPass := true;
      } else {
        LaterLast(Lay(), St(), layer);
      }
      lastBoundary := layer;
      if layer >= nLayers {
        return;
      }
      AdvanceTo(layer);
    }

    method PrefetchPrefix()
      requires Valid() && St() == Initial(Lay())
      modifies `resident, `prefetchOps, ring
      ensures Valid() && St() == Filled(Lay())
    {
      for l := 0 to residentLayers
        invariant Valid() && FillFrom(Lay(), St(), l) == Filled(Lay())
      {
        PrefetchLayer(l);
      }
    }

    method FillPrefix(pagerBudget: nat)
      requires Valid() && St() == Initial(Lay()) && layers != map[]
      modifies `residentLayers, `resident, `prefetchOps, ring
      ensures Valid() && St() == Filled(Lay()) && LargestFit(layers, nLayers, pagerBudget, residentLayers)
    {
      ghost var first := Collections.Member(layers.Keys);
      residentLayers := ResidentPrefix(layers, nLayers, pagerBudget);
      PrefetchPrefix();
    }

    /** Private slabs only when the whole model fits the budget; allocate them. */
    method ChooseMechanism(failed: set<SlabId>)
      requires Valid()
      modifies `useSlab, `layers
      ensures Valid() && layers.Keys == old(layers.Keys) && (forall m: nat :: PrefixBytes(layers, m) == PrefixBytes(old(layers), m))
      ensures useSlab == (old(useSlab) && (budget == 0 || totalBytes <= budget))
      ensures layers == if useSlab then WithSlabs(old(layers), failed) else old(layers)
    {
      if useSlab && budget > 0 && totalBytes > budget {
        useSlab := false;
      }
      if useSlab {
        forall m: nat ensures PrefixBytes(WithSlabs(layers, failed), m) == PrefixBytes(layers, m) {
          SlabsKeepBytes(layers, failed, m);
        }
        layers := WithSlabs(layers, failed);
      }
    }

    /** fill_resident_layers, with the budget already resolved. `failed` are the
        slab mappings the kernel refuses; `experts` is the ceiling a hybrid model's
        expert cache gets. */
    method FillResidentLayers(hybrid: bool, failed: set<SlabId>) returns (experts: nat)
      requires Valid() && St() == Initial(Lay()) && residentLayers == 0
      requires totalBytes == PrefixBytes(layers, nLayers)
      modifies this, ring
      ensures Valid() && Inv(Lay(), St()) && Prefix(Lay(), St())
      ensures layers == map[] ==> St() == old(St())
      ensures layers != map[] ==> St() == Filled(Lay())
      ensures useSlab == (old(useSlab) && (layers == map[] || budget == 0 || totalBytes <= budget))
      ensures layers == if useSlab && layers != map[] then WithSlabs(old(layers), failed) else old(layers)
      ensures layers != map[] ==> LargestFit(layers, nLayers, Split(budget, hybrid).pager, residentLayers)
      ensures layers != map[] ==> experts == Split(budget, hybrid).experts
    {
      hide Inv, Prefix;
      if layers == map[] {
        FillKeeps(Lay());
        return 0;
      }
      ChooseMechanism(failed);
      var pagerBudget := budget;
      experts := 0;
      if hybrid && budget > 0 {
        experts := budget / 2;
        pagerBudget := budget - experts;
      }
      FillPrefix(pagerBudget);
      FillKeeps(Lay());
    }
  }
}
