/** What router records do to the statistics of all tensors, and what the statistics
    say about the trace. */
module Learning {
  import opened Experts
  import opened Eviction
  import opened CacheState
  import opened Routing
  import opened Ranking
  import opened PinPasses
  import opened PinHistory
  import Pilot

  // ---- one record --------------------------------------------------------------

  ghost predicate TransStep(t: ExpertTensor, t': ExpertTensor, fromIds: seq<int>, ids: seq<int>, on: bool) {
    && t.Valid() && t'.Valid() && t' == t.(trans := t'.trans)
    && forall a, b :: 0 <= a < t.size && 0 <= b < t.size ==>
         Pilot.Cell(t'.trans, t.size, a, b) == Pilot.Cell(t.trans, t.size, a, b)
           + (if on then Occurrences(fromIds, a) * Occurrences(ids, b) else 0)
  }

  ghost predicate HitStep(t: ExpertTensor, t': ExpertTensor, ids: seq<int>, on: bool) {
    && t.Valid() && t'.Valid() && t' == t.(totalHits := t'.totalHits, windowHits := t'.windowHits)
    && (!on ==> t' == t)
    && (on ==> forall id :: 0 <= id < t.size ==>
          && t'.totalHits[id] == t.totalHits[id] + Occurrences(ids, id)
          && t'.windowHits[id] == Decayed(t.windowHits[id], Occurrences(ids, id)))
  }

  /** Only the statistics differ. */
  ghost predicate OnlyStats(t: ExpertTensor, t': ExpertTensor) {
    t.Valid() && t'.Valid()
    && t' == t.(totalHits := t'.totalHits, windowHits := t'.windowHits, trans := t'.trans)
  }

  lemma TransKeepsLayers(ts: Tensors, mid: Tensors, fromLayer: int, fromIds: seq<int>, r: Record)
    requires |mid| == |ts| && forall i :: 0 <= i < |ts| ==>
      TransStep(ts[i], mid[i], fromIds, r.ids, fromLayer >= 0 && r.layer > fromLayer && fromIds != [] && ts[i].layer == r.layer)
    ensures forall i :: 0 <= i < |ts| ==> mid[i].layer == ts[i].layer
  {
  }

  lemma LearnedCells(t: ExpertTensor, t1: ExpertTensor, h: seq<Record>, o: Origin)
    requires Learned(t, h, o) && TransStep(t, t1, [], [], false)
    ensures Learned(t1, h, o)
  {
    forall a, b | 0 <= a < t.size && 0 <= b < t.size
      ensures Pilot.Cell(t1.trans, t.size, a, b) == Transitions(h, o.since, t.layer, a, b)
    {
      assert Pilot.Cell(t.trans, t.size, a, b) == Transitions(h, o.since, t.layer, a, b);
    }
  }

  lemma RecordOne(t: ExpertTensor, t1: ExpertTensor, t2: ExpertTensor, h: seq<Record>, o: Origin,
                  fromLayer: int, fromIds: seq<int>, r: Record)
    requires Learned(t, h, o) && Remembers(h, fromLayer, fromIds)
    requires TransStep(t, t1, fromIds, r.ids, fromLayer >= 0 && r.layer > fromLayer && fromIds != [] && t.layer == r.layer)
    requires HitStep(t1, t2, r.ids, t1.layer == r.layer)
    ensures Learned(t2, h + [r], o) && OnlyStats(t, t2)
  {
    hide Hits, Transitions, Occurrences;
    if t.layer == r.layer {
      RecordLearned(t, t2, h, o, r);
    } else {
      LearnedCells(t, t1, h, o);
      RecordElsewhere(t1, h, o, r);
    }
  }

  /** After both loops every tensor has learned the trace with the new record. */
  lemma RecordAll(ts: Tensors, mid: Tensors, ts': Tensors, h: seq<Record>, os: seq<Origin>,
                  fromLayer: int, fromIds: seq<int>, r: Record)
    requires AllLearned(ts, h, os) && Remembers(h, fromLayer, fromIds) && |mid| == |ts| == |ts'|
    requires forall i :: 0 <= i < |ts| ==>
      TransStep(ts[i], mid[i], fromIds, r.ids, fromLayer >= 0 && r.layer > fromLayer && fromIds != [] && ts[i].layer == r.layer)
    requires forall i :: 0 <= i < |ts| ==> HitStep(mid[i], ts'[i], r.ids, mid[i].layer == r.layer)
    ensures AllLearned(ts', h + [r], os)
    ensures forall i :: 0 <= i < |ts| ==> OnlyStats(ts[i], ts'[i])
  {
    forall i | 0 <= i < |ts| ensures Learned(ts'[i], h + [r], os[i]) && OnlyStats(ts[i], ts'[i]) {
      RecordOne(ts[i], mid[i], ts'[i], h, os[i], fromLayer, fromIds, r);
    }
  }

  lemma SameLayers(ts: Tensors, ts': Tensors, layers: seq<int>)
    requires |ts'| == |ts| && forall i :: 0 <= i < |ts| ==> ts'[i].layer == ts[i].layer
    requires Listed(ts, layers)
    ensures Listed(ts', layers)
  {
    forall l: int ensures HasLayer(ts, l) <==> HasLayer(ts', l) {
      if i :| 0 <= i < |ts| && ts[i].layer == l {
        assert ts'[i].layer == l;
      }
      if i :| 0 <= i < |ts'| && ts'[i].layer == l {
        assert ts[i].layer == l;
      }
    }
  }

  // ---- what stays --------------------------------------------------------------

  ghost predicate SameTensor(t: ExpertTensor, t': ExpertTensor) {
    && t'.name == t.name && t'.layer == t.layer && t'.size == t.size
    && t'.sliceBytes == t.sliceBytes && t'.mapped == t.mapped && t'.lastUsed == t.lastUsed
    && |t'.pinned| == |t.pinned|
    && forall id :: 0 <= id < |t.pinned| && t.pinned[id] ==> t'.pinned[id]
  }

  /** The same registered tensors, with no pin lost. */
  ghost predicate SameTensors(ts: Tensors, ts': Tensors) {
    |ts'| == |ts| && forall i :: 0 <= i < |ts| ==> SameTensor(ts[i], ts'[i])
  }

  lemma SameTensorsRefl(ts: Tensors)
    ensures SameTensors(ts, ts)
  {
  }

  lemma OnlyStatsRefl(ts: Tensors)
    requires AllValid(ts)
    ensures forall i :: 0 <= i < |ts| ==> OnlyStats(ts[i], ts[i])
  {
  }

  lemma StatsKeepTensors(ts: Tensors, ts': Tensors)
    requires |ts'| == |ts| && forall i :: 0 <= i < |ts| ==> OnlyStats(ts[i], ts'[i])
    ensures SameTensors(ts, ts')
  {
  }

  lemma StatsKeepUnmapped(ts: Tensors, ts': Tensors)
    requires |ts'| == |ts| && forall i :: 0 <= i < |ts| ==> OnlyStats(ts[i], ts'[i])
    ensures UnmappedBytes(ts') == UnmappedBytes(ts)
  {
    UnmappedSame(ts, ts');
  }

  lemma StatsKeepPins(ts: Tensors, ts': Tensors, ess: seq<seq<Pinning>>, ceiling: nat)
    requires |ts'| == |ts| && forall i :: 0 <= i < |ts| ==> OnlyStats(ts[i], ts'[i])
    requires AllPins(ts, ess)
    ensures AllPins(ts', ess) && Floor(ts', ceiling) == Floor(ts, ceiling)
  {
    hide AllPins;
    AllPinsStay(ts, ts', ess);
    StatsKeepUnmapped(ts, ts');
  }

  /** What does not depend on the statistics stays. */
  lemma StatsKeepRest(ts: Tensors, ts': Tensors, history: seq<Slice>, total: nat, ceiling: nat, resident: nat,
                      ess: seq<seq<Pinning>>, since: nat)
    requires |ts'| == |ts| && forall i :: 0 <= i < |ts| ==> OnlyStats(ts[i], ts'[i])
    requires LedgerIs(ts, resident) && TicksAre(ts, history) && PinsKept(ts, total, total, ceiling)
    requires AllPins(ts, ess) && BoundedBy(ts, ceiling, resident, since)
    ensures LedgerIs(ts', resident) && TicksAre(ts', history) && PinsKept(ts', total, total, ceiling)
    ensures AllPins(ts', ess) && BoundedBy(ts', ceiling, resident, since)
  {
    hide AllPins, Floor;
    SumsSame(ts, ts');
    StatsKeepPins(ts, ts', ess, ceiling);
  }

  /** The trace has one more record, which every tensor has learned. */
  lemma StatsGrow(ts: Tensors, ts': Tensors, h: seq<Record>, os: seq<Origin>, layers: seq<int>, r: Record)
    requires StatsAre(ts, h, os, layers) && AllLearned(ts', h + [r], os) && r.ids != []
    requires |ts'| == |ts| && forall i :: 0 <= i < |ts| ==> OnlyStats(ts[i], ts'[i])
    ensures StatsAre(ts', h + [r], os, layers)
  {
    hide AllLearned, Remembers;
    OneRecordMore(h, r);
    SameLayers(ts, ts', layers);
  }

  lemma PassKeepsTensors(ts: Tensors, mid: Tensors, ts': Tensors, maxActive: int, ceiling: nat)
    requires |mid| == |ts| && forall i :: 0 <= i < |ts| ==> OnlyStats(ts[i], mid[i])
    requires PinPass(mid, ts', maxActive, ceiling)
    ensures SameTensors(ts, ts')
  {
  }

  lemma StatsKeepShape(ts: Tensors, ts': Tensors, maxActive: int)
    requires |ts'| == |ts| && forall i :: 0 <= i < |ts| ==> OnlyStats(ts[i], ts'[i])
    ensures AllSameShape(ts, ts', maxActive)
  {
  }

  lemma PassKeepsShape(ts: Tensors, ts': Tensors, maxActive: int, ceiling: nat)
    requires PinPass(ts, ts', maxActive, ceiling)
    ensures AllSameShape(ts, ts', maxActive)
  {
    hide AllPassed, TopHotPinned, WithinBudget;
  }

  /** One more record, with the pass it brings if any, is one more step of the
      history. */
  lemma RecordTraced(ts: Tensors, mid: Tensors, ts': Tensors, h: seq<Record>, r: Record, os: seq<Origin>,
                     ess: seq<seq<Pinning>>, ess': seq<seq<Pinning>>, prior: Prior, maxActive: int, ceiling: nat)
    requires AllTraced(ts, h, os, ess, prior, maxActive) && AllLearned(ts, h, os) && AllLearned(mid, h + [r], os)
    requires |mid| == |ts| && forall i :: 0 <= i < |ts| ==> OnlyStats(ts[i], mid[i])
    requires if PinsNow(|h| + 1) then
        PinPass(mid, ts', maxActive, ceiling) && OnePinningMore(Rebudgeted(mid, maxActive), ess, ess', maxActive, false)
      else ts' == mid && ess' == ess
    ensures AllTraced(ts', h + [r], os, ess', prior, maxActive)
  {
    hide AllTraced, AllLearned, PinPass, OnePinningMore, Rebudgeted, AllSameShape, OnlyStats;
    StatsKeepShape(ts, mid, maxActive);
    if PinsNow(|h| + 1) {
      PassKeepsShape(mid, ts', maxActive, ceiling);
      TracedPass(ts, mid, ts', h, r, os, ess, ess', prior, maxActive);
    } else {
      TracedQuiet(ts, ts', h, r, os, ess, prior, maxActive);
    }
  }

  // ---- reading the trace back --------------------------------------------------

  /** A positive transition count has a witness in the trace. */
  lemma {:induction false} TransitionHasWitness(h: seq<Record>, since: nat, layer: int, from: int, to: int) returns (n: nat)
    requires Transitions(h, since, layer, from, to) > 0
    ensures since <= n < |h| && n >= 1 && h[n].layer == layer && SameToken(h[n - 1], h[n])
    ensures Occurrences(h[n - 1].ids, from) > 0 && Occurrences(h[n].ids, to) > 0
    decreases |h|
  {
    n := |h| - 1;
    var here := n >= 1 && h[n].layer == layer && SameToken(h[n - 1], h[n]);
    if here && Occurrences(h[n - 1].ids, from) * Occurrences(h[n].ids, to) > 0 {
    } else {
      n := TransitionHasWitness(h[..n], since, layer, from, to);
    }
  }

  /** Ranking a tensor by its decayed hotness is ranking it by runtime hits. */
  lemma HotRankIsHitRank(t: ExpertTensor, h: seq<Record>, o: Origin, order: seq<nat>)
    requires Learned(t, h, o)
    ensures IsRanking(order, t.windowHits) <==>
      IsPermutation(order, t.size)
      && forall i, j :: 0 <= i < j < |order| ==> Hits(h, o.since, t.layer, order[i]) >= Hits(h, o.since, t.layer, order[j])
  {
    if IsPermutation(order, t.size) {
      forall i, j | 0 <= i < j < |order|
        ensures t.windowHits[order[i]] >= t.windowHits[order[j]]
           <==> Hits(h, o.since, t.layer, order[i]) >= Hits(h, o.since, t.layer, order[j])
      {
        HotnessOrder(Hits(h, o.since, t.layer, order[i]), Hits(h, o.since, t.layer, order[j]));
      }
    }
  }

  /** What eviction protects: exactly the experts hit at least twice. */
  lemma HotIsHitTwice(t: ExpertTensor, h: seq<Record>, o: Origin, id: nat)
    requires Learned(t, h, o) && id < t.size
    ensures Hot(t, id) <==> Hits(h, o.since, t.layer, id) >= 2
    ensures t.windowHits[id] < 20.0
  {
    HotMeansTwice(Hits(h, o.since, t.layer, id));
    HotnessClosedForm(Hits(h, o.since, t.layer, id));
  }
}
