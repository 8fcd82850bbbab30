/** The pins of a run: when pinnings take place, by what weights and how deep, as
    functions of the records, registrations and prior so far. */
module PinHistory {
  import opened Experts
  import opened Eviction
  import opened CacheState
  import opened Ranking
  import opened Budgets
  import opened Routing
  import opened PinPasses
  import Pilot

  const WARMUP_LAYERS: nat := 200      // kWarmupLayers_
  const LOG_EVERY_LAYERS: nat := 400   // kLogEveryLayers_

  /** The cadence of pin passes, by records so far. */
  predicate PinsNow(records: nat) {
    records == WARMUP_LAYERS || (records > WARMUP_LAYERS && records % LOG_EVERY_LAYERS == 0)
  }

  // ---- pinnings ------------------------------------------------------------------

  /** One pinning of a tensor: its experts ranked by a weight, and how many ranks
      were considered. */
  datatype Pinning = Pinning(weight: seq<real>, order: seq<nat>, top: int)

  ghost predicate RanksTensor(e: Pinning, size: nat) {
    |e.weight| == size && IsRanking(e.order, e.weight)
  }

  lemma RanksDistinct(order: seq<nat>, n: nat, k: nat)
    requires IsPermutation(order, n) && k <= n
    ensures forall r :: 0 <= r < n ==> (order[r] in Elements(order[..k]) <==> r < k)
  {
    forall r | 0 <= r < n ensures order[r] in Elements(order[..k]) <==> r < k {
      if r < k {
        assert order[..k][r] == order[r];
      }
    }
  }

  /** The used experts within the top ranks. */
  ghost function UsedTop(e: Pinning, size: nat): (s: set<nat>)
    requires RanksTensor(e, size)
    ensures |s| <= if e.top < 0 then 0 else e.top
    ensures forall r :: 0 <= r < size ==> (e.order[r] in s <==> r < e.top && e.weight[e.order[r]] > 0.0)
    ensures forall id :: id in s ==> id < size
  {
    var k := if e.top < 0 then 0 else if e.top < size then e.top else size;
    PrefixSize(e.order, size, k);
    var s := set x | x in Elements(e.order[..k]) && e.weight[x] > 0.0;
    SubsetSize(s, Elements(e.order[..k]));
    RanksDistinct(e.order, size, k);
    s
  }

  /** Every expert that was in the used top of some pinning. */
  ghost function EverUsedTop(es: seq<Pinning>, size: nat): set<nat>
    requires forall e :: e in es ==> RanksTensor(e, size)
  {
    if es == [] then {} else EverUsedTop(es[..|es| - 1], size) + UsedTop(es[|es| - 1], size)
  }

  /** Nothing unpins: a tensor's pins are the used tops of all its pinnings. */
  ghost predicate PinsAre(t: ExpertTensor, es: seq<Pinning>) {
    && t.Valid()
    && (forall e :: e in es ==> RanksTensor(e, t.size))
    && Pinned(t) == EverUsedTop(es, t.size)
  }

  ghost predicate AllPins(ts: Tensors, ess: seq<seq<Pinning>>) {
    |ess| == |ts| && forall i :: 0 <= i < |ts| ==> PinsAre(ts[i], ess[i])
  }

  /** The pins of one pinning: the used experts within the top ranks join. */
  ghost predicate TopJoined(t: ExpertTensor, t': ExpertTensor, weight: seq<real>, order: seq<nat>, top: int)
    requires t.Valid() && t'.Valid() && |weight| == t.size && t'.size == t.size && IsPermutation(order, t.size)
  {
    forall r :: 0 <= r < t.size ==> (t'.pinned[order[r]] <==> t.pinned[order[r]] || (r < top && weight[order[r]] > 0.0))
  }

  lemma JoinedTop(t: ExpertTensor, t': ExpertTensor, weight: seq<real>, order: seq<nat>, top: int)
    requires t.Valid() && t'.Valid() && |weight| == t.size && t'.size == t.size && IsPermutation(order, t.size)
    requires PinnedTop(t, t', weight, order, top)
    ensures TopJoined(t, t', weight, order, top)
  {
  }

  lemma EverOneMore(es: seq<Pinning>, e: Pinning, size: nat)
    requires (forall x :: x in es ==> RanksTensor(x, size)) && RanksTensor(e, size)
    ensures EverUsedTop(es + [e], size) == EverUsedTop(es, size) + UsedTop(e, size)
  {
    assert (es + [e])[..|es|] == es;
  }

  /** One more pinning adds exactly its used top. */
  lemma PinsGain(t: ExpertTensor, t': ExpertTensor, es: seq<Pinning>, e: Pinning)
    requires PinsAre(t, es) && t'.Valid() && t'.size == t.size && RanksTensor(e, t.size)
    requires TopJoined(t, t', e.weight, e.order, e.top)
    ensures PinsAre(t', es + [e])
  {
    hide EverUsedTop;
    var U := UsedTop(e, t.size);
    PermutationCovers(e.order, t.size);
    forall id: nat | id < t.size ensures id in Pinned(t') <==> id in Pinned(t) + U {
      assert id in Elements(e.order);
      var r: nat :| r < |e.order| && e.order[r] == id;
    }
    EverOneMore(es, e, t.size);
    assert Pinned(t') == Pinned(t) + U;
  }

  lemma PinsStay(t: ExpertTensor, t': ExpertTensor, es: seq<Pinning>)
    requires PinsAre(t, es) && t'.Valid() && t'.size == t.size && t'.pinned == t.pinned
    ensures PinsAre(t', es)
  {
    assert Pinned(t') == Pinned(t);
  }

  lemma AllPinsUpdate(ts: Tensors, ess: seq<seq<Pinning>>, i: nat, t: ExpertTensor, es: seq<Pinning>)
    requires AllPins(ts, ess) && i < |ts| && PinsAre(t, es)
    ensures AllPins(ts[i := t], ess[i := es])
  {
  }

  lemma AllPinsStay(ts: Tensors, ts': Tensors, ess: seq<seq<Pinning>>)
    requires AllPins(ts, ess) && |ts'| == |ts| && AllValid(ts')
    requires forall i :: 0 <= i < |ts| ==> ts'[i].size == ts[i].size && ts'[i].pinned == ts[i].pinned
    ensures AllPins(ts', ess)
  {
    forall i | 0 <= i < |ts| ensures PinsAre(ts'[i], ess[i]) {
      PinsStay(ts[i], ts'[i], ess[i]);
    }
  }

  /** Rebalancing touches budgets only. */
  lemma RebudgetKeeps(ts: Tensors, maxActive: int, history: seq<Slice>, total: nat, ceiling: nat, resident: nat,
                      ess: seq<seq<Pinning>>)
    requires LedgerIs(ts, resident) && TicksAre(ts, history) && PinsKept(ts, total, total, ceiling) && AllPins(ts, ess)
    ensures var r := Rebudgeted(ts, maxActive);
      LedgerIs(r, resident) && TicksAre(r, history) && PinsKept(r, total, total, ceiling) && AllPins(r, ess)
  {
    hide AllPins;
    SumsSame(ts, Rebudgeted(ts, maxActive));
    AllPinsStay(ts, Rebudgeted(ts, maxActive), ess);
  }

  ghost predicate PinningOf(t: ExpertTensor, es: seq<Pinning>, es': seq<Pinning>, maxActive: int, seeded: bool) {
    if seeded || t.mapped then
      && |es'| == |es| + 1 && es' == es + [es'[|es|]]
      && es'[|es|].weight == (if seeded then Pilot.AsReals(t.totalHits) else t.windowHits)
      && es'[|es|].top == Limit(t, maxActive)
    else es' == es
  }

  /** The pinnings of a pass: one more for every tensor it ranks. */
  ghost predicate OnePinningMore(ts: Tensors, ess: seq<seq<Pinning>>, ess': seq<seq<Pinning>>, maxActive: int, seeded: bool) {
    |ess| == |ess'| == |ts| && forall i :: 0 <= i < |ts| ==> PinningOf(ts[i], ess[i], ess'[i], maxActive, seeded)
  }

  // ---- when ----------------------------------------------------------------------

  /** When the imatrix prior was applied: after how many records and registrations. */
  datatype Prior = NoPrior | PriorAt(len: nat, size: nat)

  /** The moment of a pin pass: after how many records, over how many tensors, with
      or without the prior's counts, and whether it is the prior's own pass. */
  datatype Moment = Moment(len: nat, size: nat, primed: bool, seeded: bool)

  /** Tensors registered before the n-th record. */
  function Live(os: seq<Origin>, n: nat): (c: nat)
    ensures c <= |os|
  {
    if os == [] then 0 else Live(os[..|os| - 1], n) + (if os[|os| - 1].since < n then 1 else 0)
  }

  /** Some count of the prior reached a tensor. */
  ghost predicate Seeding(os: seq<Origin>) {
    exists i, id :: 0 <= i < |os| && 0 <= id < |os[i].seeds| && os[i].seeds[id] > 0
  }

  /** The pass at the n-th record, for the cadence and a tensor registered before. */
  function RunMoment(mapped: bool, since: nat, n: nat, os: seq<Origin>, prior: Prior): seq<Moment> {
    if mapped && since < n && PinsNow(n) then [Moment(n, Live(os, n), prior.PriorAt? && prior.len < n, false)] else []
  }

  /** The prior's pass, if it seeded anything, for a tensor registered before. */
  ghost function SeedMoment(i: nat, n: nat, os: seq<Origin>, prior: Prior): seq<Moment> {
    if prior.PriorAt? && prior.len == n && i < prior.size && Seeding(os) then [Moment(n, prior.size, true, true)] else []
  }

  /** The passes that pinned tensor i during the first n records, in order. */
  ghost function Moments(mapped: bool, i: nat, n: nat, os: seq<Origin>, prior: Prior): (ms: seq<Moment>)
    requires i < |os|
    ensures forall k :: 0 <= k < |ms| ==> ms[k].len <= n
    ensures prior.NoPrior? ==> forall k :: 0 <= k < |ms| ==> !ms[k].primed && !ms[k].seeded
    ensures (prior.PriorAt? ==> prior.size <= |os|) ==> forall k :: 0 <= k < |ms| ==> ms[k].size <= |os|
  {
    (if n == 0 then [] else Moments(mapped, i, n - 1, os, prior) + RunMoment(mapped, os[i].since, n, os, prior))
    + SeedMoment(i, n, os, prior)
  }

  // ---- by what weight, and how deep ------------------------------------------------

  function Upto(h: seq<Record>, n: nat): seq<Record> { if n <= |h| then h[..n] else h }

  function TotalAt(t: ExpertTensor, h: seq<Record>, o: Origin, m: Moment, id: nat): nat {
    (if m.primed && id < |o.seeds| then o.seeds[id] else 0) + Hits(Upto(h, m.len), o.since, t.layer, id)
  }

  /** A tensor's totals at a moment. */
  function TotalsAt(t: ExpertTensor, h: seq<Record>, o: Origin, m: Moment): (r: seq<nat>)
    ensures |r| == t.size
  {
    seq(t.size, id requires 0 <= id < t.size => TotalAt(t, h, o, m, id))
  }

  /** What a pass ranks by: the decayed hits, or for the prior's pass the totals. */
  function WeightAt(t: ExpertTensor, h: seq<Record>, o: Origin, m: Moment): (r: seq<real>)
    ensures |r| == t.size
  {
    if m.seeded then Pilot.AsReals(TotalsAt(t, h, o, m))
    else seq(t.size, id requires 0 <= id < t.size => Hotness(Hits(Upto(h, m.len), o.since, t.layer, id)))
  }

  function DemandAt(t: ExpertTensor, h: seq<Record>, o: Origin, m: Moment): nat {
    var d := Positives(TotalsAt(t, h, o, m));
    if d == 0 then 1 else d
  }

  function DemandsAt(ts: Tensors, h: seq<Record>, os: seq<Origin>, m: Moment): seq<nat>
    requires |os| == |ts|
  {
    var n := if m.size < |ts| then m.size else |ts|;
    seq(n, i requires 0 <= i < n => DemandAt(ts[i], h, os[i], m))
  }

  /** How many ranks a pass considers: the tensor's share of the cap by the demands
      of the moment. */
  function LimitAt(ts: Tensors, i: nat, h: seq<Record>, os: seq<Origin>, m: Moment, maxActive: int): int
    requires |os| == |ts|
  {
    var ds := DemandsAt(ts, h, os, m);
    if maxActive > 0 && i < |ds| && Sum(ds) > 0 then Share(ds[i], maxActive, |ds|, Sum(ds)) else maxActive
  }

  // ---- the pinnings of a run are those of its history ------------------------------

  ghost predicate PinnedAt(ts: Tensors, i: nat, h: seq<Record>, os: seq<Origin>, e: Pinning, m: Moment, maxActive: int)
    requires |os| == |ts| && i < |ts|
  {
    e.weight == WeightAt(ts[i], h, os[i], m) && e.top == LimitAt(ts, i, h, os, m, maxActive)
  }

  ghost predicate TensorTraced(ts: Tensors, i: nat, h: seq<Record>, os: seq<Origin>, es: seq<Pinning>, prior: Prior,
                               maxActive: int)
    requires |os| == |ts| && i < |ts|
  {
    var ms := Moments(ts[i].mapped, i, |h|, os, prior);
    |es| == |ms| && forall k :: 0 <= k < |es| ==> PinnedAt(ts, i, h, os, es[k], ms[k], maxActive)
  }

  /** The pinnings of every tensor are those of the history: one at each of its
      moments, by the weights and within the shares of that moment. */
  ghost predicate AllTraced(ts: Tensors, h: seq<Record>, os: seq<Origin>, ess: seq<seq<Pinning>>, prior: Prior,
                            maxActive: int)
  {
    && |os| == |ess| == |ts|
    && (forall i :: 0 <= i < |ts| ==> TensorTraced(ts, i, h, os, ess[i], prior, maxActive))
    && (prior.NoPrior? ==> !Seeding(os))
    && (prior.PriorAt? ==> prior.len <= |h| && prior.size <= |ts|)
    && (maxActive <= 0 ==> forall i :: 0 <= i < |ts| ==> ts[i].budget == maxActive)
  }

  // ---- what changes the history ----------------------------------------------------

  ghost predicate SameShape(t: ExpertTensor, t': ExpertTensor, maxActive: int) {
    t'.size == t.size && t'.layer == t.layer && t'.mapped == t.mapped && (maxActive <= 0 ==> t'.budget == t.budget)
  }

  ghost predicate AllSameShape(ts: Tensors, ts': Tensors, maxActive: int) {
    |ts'| == |ts| && forall i :: 0 <= i < |ts| ==> SameShape(ts[i], ts'[i], maxActive)
  }

  lemma ShapeRefl(ts: Tensors, maxActive: int)
    ensures AllSameShape(ts, ts, maxActive)
  {
  }

  /** Records and registrations after a moment do not change what it was. */
  lemma MomentStays(ts: Tensors, ts': Tensors, i: nat, h: seq<Record>, h': seq<Record>, os: seq<Origin>, os': seq<Origin>,
                    m: Moment, maxActive: int)
    requires |os| == |ts| <= |ts'| == |os'| && i < |ts| && m.len <= |h| && h <= h' && m.size <= |ts|
    requires AllSameShape(ts, ts'[..|ts|], maxActive)
    requires forall j :: 0 <= j < |ts| ==> os'[j].since == os[j].since && (m.primed ==> os'[j].seeds == os[j].seeds)
    ensures WeightAt(ts'[i], h', os'[i], m) == WeightAt(ts[i], h, os[i], m)
    ensures LimitAt(ts', i, h', os', m, maxActive) == LimitAt(ts, i, h, os, m, maxActive)
  {
    hide Hits, Positives, Sum, Share, Hotness;
    assert Upto(h', m.len) == Upto(h, m.len);
    forall j: nat | j < |ts| ensures TotalsAt(ts'[j], h', os'[j], m) == TotalsAt(ts[j], h, os[j], m) {
      assert ts'[..|ts|][j] == ts'[j];
    }
    assert ts'[..|ts|][i] == ts'[i];
    assert WeightAt(ts'[i], h', os'[i], m) == WeightAt(ts[i], h, os[i], m);
    assert DemandsAt(ts', h', os', m) == DemandsAt(ts, h, os, m);
  }

  lemma PinnedStays(ts: Tensors, ts': Tensors, i: nat, h: seq<Record>, h': seq<Record>, os: seq<Origin>, os': seq<Origin>,
                    es: seq<Pinning>, ms: seq<Moment>, maxActive: int)
    requires |os| == |ts| <= |ts'| == |os'| && i < |ts| && h <= h' && |es| == |ms|
    requires AllSameShape(ts, ts'[..|ts|], maxActive)
    requires forall j :: 0 <= j < |ts| ==> os'[j].since == os[j].since
    requires forall k :: 0 <= k < |ms| ==> ms[k].len <= |h| && ms[k].size <= |ts|
    requires (forall j :: 0 <= j < |ts| ==> os'[j] == os[j]) || forall k :: 0 <= k < |ms| ==> !ms[k].primed
    requires forall k :: 0 <= k < |es| ==> PinnedAt(ts, i, h, os, es[k], ms[k], maxActive)
    ensures forall k :: 0 <= k < |es| ==> PinnedAt(ts', i, h', os', es[k], ms[k], maxActive)
  {
    hide WeightAt, LimitAt, AllSameShape;
    forall k | 0 <= k < |es| ensures PinnedAt(ts', i, h', os', es[k], ms[k], maxActive) {
      MomentStays(ts, ts', i, h, h', os, os', ms[k], maxActive);
      assert PinnedAt(ts, i, h, os, es[k], ms[k], maxActive);
    }
  }

  /** Loading, dropping, pinning and touching are no part of the history. */
  lemma TracedSame(ts: Tensors, ts': Tensors, h: seq<Record>, os: seq<Origin>, ess: seq<seq<Pinning>>, prior: Prior,
                   maxActive: int)
    requires AllTraced(ts, h, os, ess, prior, maxActive) && AllSameShape(ts, ts', maxActive)
    ensures AllTraced(ts', h, os, ess, prior, maxActive)
  {
    hide PinnedAt, Moments, Seeding;
    assert ts'[..|ts|] == ts';
    forall i | 0 <= i < |ts| ensures TensorTraced(ts', i, h, os, ess[i], prior, maxActive) {
      assert TensorTraced(ts, i, h, os, ess[i], prior, maxActive) && SameShape(ts[i], ts'[i], maxActive);
      PinnedStays(ts, ts', i, h, h, os, os, ess[i], Moments(ts[i].mapped, i, |h|, os, prior), maxActive);
    }
  }

  // ---- one more record -------------------------------------------------------------

  lemma NextMoments(mapped: bool, i: nat, n: nat, os: seq<Origin>, prior: Prior)
    requires i < |os| && (prior.PriorAt? ==> prior.len <= n)
    ensures Moments(mapped, i, n + 1, os, prior) ==
      Moments(mapped, i, n, os, prior) + RunMoment(mapped, os[i].since, n + 1, os, prior)
  {
  }

  /** A record without a pass. */
  lemma TracedQuiet(ts: Tensors, ts': Tensors, h: seq<Record>, r: Record, os: seq<Origin>, ess: seq<seq<Pinning>>,
                    prior: Prior, maxActive: int)
    requires AllTraced(ts, h, os, ess, prior, maxActive) && AllSameShape(ts, ts', maxActive) && !PinsNow(|h| + 1)
    ensures AllTraced(ts', h + [r], os, ess, prior, maxActive)
  {
    hide PinnedAt, Moments, Seeding;
    assert ts'[..|ts|] == ts';
    forall i | 0 <= i < |ts| ensures TensorTraced(ts', i, h + [r], os, ess[i], prior, maxActive) {
      assert TensorTraced(ts, i, h, os, ess[i], prior, maxActive) && SameShape(ts[i], ts'[i], maxActive);
      NextMoments(ts[i].mapped, i, |h|, os, prior);
      PinnedStays(ts, ts', i, h, h + [r], os, os, ess[i], Moments(ts[i].mapped, i, |h|, os, prior), maxActive);
    }
  }

  lemma {:induction false} AllLive(os: seq<Origin>, n: nat)
    requires forall i :: 0 <= i < |os| ==> os[i].since < n
    ensures Live(os, n) == |os|
  {
    if os == [] {
    } else {
      AllLive(os[..|os| - 1], n);
    }
  }

  lemma TotalsNow(t: ExpertTensor, h: seq<Record>, o: Origin, m: Moment)
    requires Learned(t, h, o) && m.len == |h| && (m.primed || forall id :: 0 <= id < |o.seeds| ==> o.seeds[id] == 0)
    ensures TotalsAt(t, h, o, m) == t.totalHits
  {
    hide Hits;
    assert Upto(h, m.len) == h;
  }

  /** A pass ranks and limits each tensor as its moment says. */
  lemma MomentNow(ts: Tensors, h: seq<Record>, os: seq<Origin>, m: Moment, maxActive: int, i: nat)
    requires AllLearned(ts, h, os) && m.len == |h| && m.size == |ts| && (m.primed || !Seeding(os)) && i < |ts|
    requires maxActive <= 0 ==> ts[i].budget == maxActive
    ensures TotalsAt(ts[i], h, os[i], m) == ts[i].totalHits
    ensures WeightAt(ts[i], h, os[i], m) == if m.seeded then Pilot.AsReals(ts[i].totalHits) else ts[i].windowHits
    ensures LimitAt(ts, i, h, os, m, maxActive) == Limit(Rebudgeted(ts, maxActive)[i], maxActive)
  {
    hide Hits, Positives, Sum, Hotness, Demands;
    assert Upto(h, m.len) == h;
    forall j: nat | j < |ts| ensures TotalsAt(ts[j], h, os[j], m) == ts[j].totalHits {
      assert Learned(ts[j], h, os[j]);
      TotalsNow(ts[j], h, os[j], m);
    }
    assert Learned(ts[i], h, os[i]);
    if !m.seeded {
      assert WeightAt(ts[i], h, os[i], m) == ts[i].windowHits;
    }
    DemandsAre(ts);
    assert DemandsAt(ts, h, os, m) == Demands(ts);
    if maxActive > 0 {
      ShareInRange(Demands(ts)[i], maxActive, |ts|, Sum(Demands(ts)));
    }
  }

  /** What a pass adds to the pinnings of a tensor it ranks. */
  lemma PinnedNow(mid: Tensors, ts': Tensors, i: nat, h: seq<Record>, os: seq<Origin>, es: seq<Pinning>, es': seq<Pinning>,
                  m: Moment, maxActive: int)
    requires AllLearned(mid, h, os) && m.len == |h| && m.size == |mid| && (m.primed || !Seeding(os)) && i < |mid|
    requires maxActive <= 0 ==> mid[i].budget == maxActive
    requires AllSameShape(mid, ts', maxActive) && (m.seeded || mid[i].mapped)
    requires PinningOf(Rebudgeted(mid, maxActive)[i], es, es', maxActive, m.seeded)
    ensures |es'| == |es| + 1 && es' == es + [es'[|es|]] && PinnedAt(ts', i, h, os, es'[|es|], m, maxActive)
  {
    hide Seeding, WeightAt, LimitAt;
    assert ts'[..|ts'|] == ts';
    assert SameShape(mid[i], ts'[i], maxActive);
    MomentNow(mid, h, os, m, maxActive, i);
    MomentStays(mid, ts', i, h, h, os, os, m, maxActive);
  }

  lemma TracedMore(ts: Tensors, i: nat, h: seq<Record>, os: seq<Origin>, es: seq<Pinning>, e: Pinning, ms: seq<Moment>,
                   m: Moment, prior: Prior, maxActive: int)
    requires |os| == |ts| && i < |ts| && Moments(ts[i].mapped, i, |h|, os, prior) == ms + [m] && |es| == |ms|
    requires forall k :: 0 <= k < |es| ==> PinnedAt(ts, i, h, os, es[k], ms[k], maxActive)
    requires PinnedAt(ts, i, h, os, e, m, maxActive)
    ensures TensorTraced(ts, i, h, os, es + [e], prior, maxActive)
  {
    hide PinnedAt, Moments;
  }

  lemma RunMomentNow(ts: Tensors, h: seq<Record>, os: seq<Origin>, r: Record, prior: Prior, i: nat)
    requires AllLearned(ts, h, os) && PinsNow(|h| + 1) && i < |ts|
    ensures RunMoment(ts[i].mapped, os[i].since, |h| + 1, os, prior) ==
      if ts[i].mapped then [Moment(|h| + 1, |ts|, prior.PriorAt? && prior.len < |h| + 1, false)] else []
  {
    hide Hits, Transitions;
    forall j | 0 <= j < |os| ensures os[j].since < |h| + 1 {
      assert Learned(ts[j], h, os[j]);
    }
    AllLive(os, |h| + 1);
  }

  lemma RebudgetedShape(ts: Tensors, maxActive: int, i: nat)
    requires i < |ts|
    ensures var t := Rebudgeted(ts, maxActive)[i]; t == ts[i].(budget := t.budget)
  {
  }

  lemma TracedPassOne(ts: Tensors, mid: Tensors, ts': Tensors, h: seq<Record>, r: Record, os: seq<Origin>,
                      ess: seq<seq<Pinning>>, es': seq<Pinning>, prior: Prior, maxActive: int, i: nat)
    requires AllTraced(ts, h, os, ess, prior, maxActive) && AllLearned(ts, h, os) && AllLearned(mid, h + [r], os)
    requires AllSameShape(ts, mid, maxActive) && AllSameShape(mid, ts', maxActive) && PinsNow(|h| + 1)
    requires i < |ts| && PinningOf(Rebudgeted(mid, maxActive)[i], ess[i], es', maxActive, false)
    ensures TensorTraced(ts', i, h + [r], os, es', prior, maxActive)
  {
    hide PinnedAt, Moments, Seeding, AllLearned, Rebudgeted, UsedTop, Live;
    var h' := h + [r];
    var ms := Moments(ts[i].mapped, i, |h|, os, prior);
    assert TensorTraced(ts, i, h, os, ess[i], prior, maxActive);
    assert SameShape(ts[i], mid[i], maxActive) && SameShape(mid[i], ts'[i], maxActive);
    NextMoments(ts[i].mapped, i, |h|, os, prior);
    RunMomentNow(ts, h, os, r, prior, i);
    assert ts'[..|ts|] == ts';
    PinnedStays(ts, ts', i, h, h', os, os, ess[i], ms, maxActive);
    if ts[i].mapped {
      var m := Moment(|h'|, |ts|, prior.PriorAt? && prior.len < |h'|, false);
      PinnedNow(mid, ts', i, h', os, ess[i], es', m, maxActive);
      TracedMore(ts', i, h', os, ess[i], es'[|ess[i]|], ms, m, prior, maxActive);
    } else {
      RebudgetedShape(mid, maxActive, i);
    }
  }

  /** A pass after a record: every tensor it ranks has one more pinning, at this
      moment. */
  lemma TracedPass(ts: Tensors, mid: Tensors, ts': Tensors, h: seq<Record>, r: Record, os: seq<Origin>,
                   ess: seq<seq<Pinning>>, ess': seq<seq<Pinning>>, prior: Prior, maxActive: int)
    requires AllTraced(ts, h, os, ess, prior, maxActive) && AllLearned(ts, h, os) && AllLearned(mid, h + [r], os)
    requires AllSameShape(ts, mid, maxActive) && AllSameShape(mid, ts', maxActive) && PinsNow(|h| + 1)
    requires OnePinningMore(Rebudgeted(mid, maxActive), ess, ess', maxActive, false)
    ensures AllTraced(ts', h + [r], os, ess', prior, maxActive)
  {
    hide PinnedAt, Moments, Seeding, AllLearned, Rebudgeted;
    forall i | 0 <= i < |ts| ensures TensorTraced(ts', i, h + [r], os, ess'[i], prior, maxActive) {
      TracedPassOne(ts, mid, ts', h, r, os, ess, ess'[i], prior, maxActive, i);
    }
  }

  // ---- one more tensor -------------------------------------------------------------

  lemma LiveAppend(os: seq<Origin>, o: Origin, n: nat)
    ensures Live(os + [o], n) == Live(os, n) + (if o.since < n then 1 else 0)
  {
    assert (os + [o])[..|os|] == os;
  }

  lemma SeedingAppend(os: seq<Origin>, o: Origin)
    requires forall id :: 0 <= id < |o.seeds| ==> o.seeds[id] == 0
    ensures Seeding(os + [o]) <==> Seeding(os)
  {
    var os' := os + [o];
    if i, id :| 0 <= i < |os| && 0 <= id < |os[i].seeds| && os[i].seeds[id] > 0 {
      assert os'[i].seeds[id] > 0;
    }
  }

  lemma {:induction false} MomentsAppend(mapped: bool, i: nat, n: nat, os: seq<Origin>, o: Origin, prior: Prior)
    requires i < |os| && o.since >= n && forall id :: 0 <= id < |o.seeds| ==> o.seeds[id] == 0
    ensures Moments(mapped, i, n, os + [o], prior) == Moments(mapped, i, n, os, prior)
  {
    hide Seeding;
    LiveAppend(os, o, n);
    SeedingAppend(os, o);
    if n == 0 {
    } else {
      MomentsAppend(mapped, i, n - 1, os, o, prior);
    }
  }

  lemma {:induction false} NoMoments(mapped: bool, i: nat, n: nat, os: seq<Origin>, prior: Prior)
    requires i < |os| && os[i].since >= n && (prior.PriorAt? ==> prior.size <= i)
    ensures Moments(mapped, i, n, os, prior) == []
  {
    if n == 0 {
    } else {
      NoMoments(mapped, i, n - 1, os, prior);
    }
  }

  /** A new tensor has been in no pass yet, and changes none that took place. */
  lemma TracedNew(ts: Tensors, t: ExpertTensor, h: seq<Record>, os: seq<Origin>, o: Origin, ess: seq<seq<Pinning>>,
                  prior: Prior, maxActive: int)
    requires AllTraced(ts, h, os, ess, prior, maxActive) && (maxActive <= 0 ==> t.budget == maxActive)
    requires o.since == |h| && forall id :: 0 <= id < |o.seeds| ==> o.seeds[id] == 0
    ensures AllTraced(ts + [t], h, os + [o], ess + [[]], prior, maxActive)
  {
    hide PinnedAt, Moments, Seeding;
    var ts', os', ess' := ts + [t], os + [o], ess + [[]];
    SeedingAppend(os, o);
    assert ts'[..|ts|] == ts;
    forall i | 0 <= i < |ts'| ensures TensorTraced(ts', i, h, os', ess'[i], prior, maxActive) {
      if i < |ts| {
        assert TensorTraced(ts, i, h, os, ess[i], prior, maxActive);
        MomentsAppend(ts[i].mapped, i, |h|, os, o, prior);
        PinnedStays(ts, ts', i, h, h, os, os', ess[i], Moments(ts[i].mapped, i, |h|, os, prior), maxActive);
      } else {
        NoMoments(t.mapped, i, |h|, os', prior);
      }
    }
  }

  // ---- the prior -------------------------------------------------------------------

  lemma {:induction false} LiveSame(os: seq<Origin>, os': seq<Origin>, n: nat)
    requires |os'| == |os| && forall i :: 0 <= i < |os| ==> os'[i].since == os[i].since
    ensures Live(os', n) == Live(os, n)
    decreases |os|
  {
    if os == [] {
    } else {
      LiveSame(os[..|os| - 1], os'[..|os| - 1], n);
    }
  }

  /** Before the prior its counts play no part. */
  lemma {:induction false} MomentsBefore(mapped: bool, i: nat, n: nat, os: seq<Origin>, os': seq<Origin>, prior: Prior)
    requires i < |os| == |os'| && forall j :: 0 <= j < |os| ==> os'[j].since == os[j].since
    requires prior.PriorAt? && n <= prior.len
    ensures Moments(mapped, i, n, os', prior) == Moments(mapped, i, n, os, NoPrior) + SeedMoment(i, n, os', prior)
  {
    hide Seeding;
    LiveSame(os, os', n);
    if n == 0 {
    } else {
      MomentsBefore(mapped, i, n - 1, os, os', prior);
    }
  }

  lemma TracedPriorOne(ts: Tensors, mid: Tensors, ts': Tensors, h: seq<Record>, os: seq<Origin>, os': seq<Origin>,
                       ess: seq<seq<Pinning>>, es': seq<Pinning>, maxActive: int, i: nat)
    requires AllTraced(ts, h, os, ess, NoPrior, maxActive) && AllLearned(mid, h, os')
    requires |os'| == |os| && forall i :: 0 <= i < |os| ==> os'[i].since == os[i].since
    requires AllSameShape(ts, mid, maxActive) && AllSameShape(mid, ts', maxActive) && i < |ts|
    requires if Seeding(os') then PinningOf(Rebudgeted(mid, maxActive)[i], ess[i], es', maxActive, true) else es' == ess[i]
    ensures TensorTraced(ts', i, h, os', es', PriorAt(|h|, |ts|), maxActive)
  {
    hide PinnedAt, Moments, Seeding, AllLearned, Rebudgeted, UsedTop, Live;
    var prior := PriorAt(|h|, |ts|);
    var ms := Moments(ts[i].mapped, i, |h|, os, NoPrior);
    assert TensorTraced(ts, i, h, os, ess[i], NoPrior, maxActive);
    assert SameShape(ts[i], mid[i], maxActive) && SameShape(mid[i], ts'[i], maxActive);
    MomentsBefore(ts[i].mapped, i, |h|, os, os', prior);
    assert ts'[..|ts|] == ts';
    PinnedStays(ts, ts', i, h, h, os, os', ess[i], ms, maxActive);
    if Seeding(os') {
      var m := Moment(|h|, |ts|, true, true);
      PinnedNow(mid, ts', i, h, os', ess[i], es', m, maxActive);
      TracedMore(ts', i, h, os', ess[i], es'[|ess[i]|], ms, m, prior, maxActive);
    }
  }

  /** The prior's own pass, after the tensors have the totals it adds. */
  lemma TracedPrior(ts: Tensors, mid: Tensors, ts': Tensors, h: seq<Record>, os: seq<Origin>, os': seq<Origin>,
                    ess: seq<seq<Pinning>>, ess': seq<seq<Pinning>>, maxActive: int)
    requires AllTraced(ts, h, os, ess, NoPrior, maxActive) && AllLearned(mid, h, os')
    requires |os'| == |os| && forall i :: 0 <= i < |os| ==> os'[i].since == os[i].since
    requires AllSameShape(ts, mid, maxActive) && AllSameShape(mid, ts', maxActive)
    requires if Seeding(os') then OnePinningMore(Rebudgeted(mid, maxActive), ess, ess', maxActive, true) else ess' == ess
    ensures AllTraced(ts', h, os', ess', PriorAt(|h|, |ts|), maxActive)
  {
    hide PinnedAt, Moments, Seeding, AllLearned, Rebudgeted;
    forall i | 0 <= i < |ts| ensures TensorTraced(ts', i, h, os', ess'[i], PriorAt(|h|, |ts|), maxActive) {
      TracedPriorOne(ts, mid, ts', h, os, os', ess, ess'[i], maxActive, i);
    }
  }
}
