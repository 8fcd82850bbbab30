/** Serving the router: what a selection loads and touches, what PILOT predicts, and
    the steps of a router callback. */
module Serving {
  import opened Experts
  import opened Eviction
  import opened CacheState
  import opened Ranking
  import opened Routing
  import opened PinPasses
  import opened PinHistory
  import opened Learning
  import Pilot

  // ---- selections --------------------------------------------------------------

  /** An unused eviction record of this slice within the churn window. */
  ghost predicate Rereads(r: EvictRecord, s: Slice, clock: nat) {
    !r.used && r.slice == s && clock - r.clock < CHURN_WINDOW
  }

  ghost predicate FirstReread(log: seq<EvictRecord>, s: Slice, clock: nat, i: int) {
    0 <= i < |log| && Rereads(log[i], s, clock) && forall j :: 0 <= j < i ==> !Rereads(log[j], s, clock)
  }

  /** A miss looks for the eviction it undoes: the first unused record inside the
      window is used up and counted, if there is one. */
  ghost predicate Noted(log: seq<EvictRecord>, log': seq<EvictRecord>, reread: nat, reread': nat, s: Slice, clock: nat) {
    if exists i :: FirstReread(log, s, clock, i) then
      && reread' == reread + 1
      && exists i :: FirstReread(log, s, clock, i) && log' == log[i := log[i].(used := true)]
    else reread' == reread && log' == log
  }

  lemma FirstOf(log: seq<EvictRecord>, s: Slice, clock: nat, i: nat) returns (f: nat)
    requires i < |log| && Rereads(log[i], s, clock)
    ensures f <= i && FirstReread(log, s, clock, f)
  {
    f := 0;
    while !Rereads(log[f], s, clock)
      invariant f <= i && forall j :: 0 <= j < f ==> !Rereads(log[j], s, clock)
      decreases i - f
    {
      f := f + 1;
    }
  }

  /** Which misses count as churn: those of a slice evicted fewer than 64 ticks ago by an
      eviction that has not been counted yet. The oldest such eviction is used up, and
      nothing else changes in the log. */
  lemma NotedExactly(log: seq<EvictRecord>, log': seq<EvictRecord>, reread: nat, reread': nat, s: Slice, clock: nat)
    requires Noted(log, log', reread, reread', s, clock)
    ensures reread' == reread + (if exists i :: 0 <= i < |log| && !log[i].used && log[i].slice == s && clock - log[i].clock < 64
      then 1 else 0)
    ensures |log'| == |log|
    ensures forall j :: 0 <= j < |log| ==>
      log'[j] == if !log[j].used && log[j].slice == s && clock - log[j].clock < 64
                    && forall i :: 0 <= i < j ==> log[i].used || log[i].slice != s || clock - log[i].clock >= 64
                 then EvictRecord(s, log[j].clock, true) else log[j]
  {
    if i :| 0 <= i < |log| && !log[i].used && log[i].slice == s && clock - log[i].clock < 64 {
      var f := FirstOf(log, s, clock, i);
      assert FirstReread(log, s, clock, f);
    }
  }

  /** How an access is classified. */
  datatype Kind = PinHit | WarmHit | DiskMiss

  function KindOf(ts: Tensors, s: Slice): Kind {
    if s.tensor < |ts| && s.id < |ts[s.tensor].pinned| && ts[s.tensor].pinned[s.id] then PinHit
    else if s.tensor < |ts| && s.id < |ts[s.tensor].loaded| && ts[s.tensor].loaded[s.id] then WarmHit
    else DiskMiss
  }

  /** The selections of one kind. */
  function Tally(ts: Tensors, sel: seq<Slice>, k: Kind): nat {
    if sel == [] then 0
    else Tally(ts, sel[..|sel| - 1], k) + (if KindOf(ts, sel[|sel| - 1]) == k then 1 else 0)
  }

  /** The three counters, moved by a selection. */
  ghost predicate Tallied(ts: Tensors, sel: seq<Slice>, pin: nat, warm: nat, miss: nat, pin': nat, warm': nat, miss': nat) {
    && pin' == pin + Tally(ts, sel, PinHit)
    && warm' == warm + Tally(ts, sel, WarmHit)
    && miss' == miss + Tally(ts, sel, DiskMiss)
  }

  lemma {:induction false} TallyJoin(ts: Tensors, a: seq<Slice>, b: seq<Slice>, k: Kind)
    ensures Tally(ts, a + b, k) == Tally(ts, a, k) + Tally(ts, b, k)
  {
    if b == [] {
      assert a + b == a;
    } else {
      TallyJoin(ts, a, b[..|b| - 1], k);
      assert (a + b)[..|a + b| - 1] == a + b[..|b| - 1];
    }
  }

  /** The selections of one kind, by position. */
  function OfKind(ts: Tensors, sel: seq<Slice>, k: Kind): set<nat> {
    set i: nat | i < |sel| && KindOf(ts, sel[i]) == k
  }

  lemma {:induction false} TallyIs(ts: Tensors, sel: seq<Slice>, k: Kind)
    ensures Tally(ts, sel, k) == |OfKind(ts, sel, k)|
  {
    hide KindOf;
    if sel == [] {
      assert OfKind(ts, sel, k) == {};
    } else {
      var last: nat := |sel| - 1;
      TallyIs(ts, sel[..last], k);
      if KindOf(ts, sel[last]) == k {
        assert OfKind(ts, sel, k) == OfKind(ts, sel[..last], k) + {last};
      } else {
        assert OfKind(ts, sel, k) == OfKind(ts, sel[..last], k);
      }
    }
  }

  /** Every selection is counted once, as pinned, loaded or missing. */
  lemma {:induction false} TalliesCount(ts: Tensors, sel: seq<Slice>)
    requires AllValid(ts) && forall i :: 0 <= i < |sel| ==> sel[i].tensor < |ts| && sel[i].id < ts[sel[i].tensor].size
    ensures Tally(ts, sel, PinHit) + Tally(ts, sel, WarmHit) + Tally(ts, sel, DiskMiss) == |sel|
    ensures forall k: Kind :: Tally(ts, sel, k) == |OfKind(ts, sel, k)|
    ensures forall i: nat :: i < |sel| ==> var t, id := ts[sel[i].tensor], sel[i].id;
      && (i in OfKind(ts, sel, PinHit) <==> t.pinned[id])
      && (i in OfKind(ts, sel, WarmHit) <==> !t.pinned[id] && t.loaded[id])
      && (i in OfKind(ts, sel, DiskMiss) <==> !t.pinned[id] && !t.loaded[id])
  {
    forall k: Kind ensures Tally(ts, sel, k) == |OfKind(ts, sel, k)| {
      TallyIs(ts, sel, k);
    }
    if sel == [] {
    } else {
      TalliesCount(ts, sel[..|sel| - 1]);
    }
  }

  lemma {:induction false} TallySame(ts: Tensors, ts': Tensors, sel: seq<Slice>, k: Kind)
    requires forall i :: 0 <= i < |sel| ==> KindOf(ts', sel[i]) == KindOf(ts, sel[i])
    ensures Tally(ts', sel, k) == Tally(ts, sel, k)
  {
    if sel == [] {
    } else {
      TallySame(ts, ts', sel[..|sel| - 1], k);
    }
  }

  lemma NothingTallied(ts: Tensors, pin: nat, warm: nat, miss: nat)
    ensures Tallied(ts, [], pin, warm, miss, pin, warm, miss)
  {
  }

  /** The slices a selection touches, in order. */
  function Selections(ti: nat, size: nat, ids: seq<int>): seq<Slice> {
    if ids == [] then []
    else
      var id := ids[|ids| - 1];
      Selections(ti, size, ids[..|ids| - 1]) + (if 0 <= id < size then [Slice(ti, id)] else [])
  }

  lemma {:induction false} SelectionsOf(ti: nat, size: nat, ids: seq<int>)
    ensures forall i :: 0 <= i < |Selections(ti, size, ids)| ==> Selections(ti, size, ids)[i].tensor == ti
  {
    if ids == [] {
    } else {
      SelectionsOf(ti, size, ids[..|ids| - 1]);
    }
  }

  /** One more tensor's selections, counted where it still is as it was. */
  lemma TalliedNext(ts: Tensors, now: Tensors, a: seq<Slice>, ti: nat, ids: seq<int>,
                    p0: nat, w0: nat, d0: nat, p1: nat, w1: nat, d1: nat, p2: nat, w2: nat, d2: nat)
    requires ti < |ts| && |now| == |ts| && now[ti] == ts[ti]
    requires Tallied(ts, a, p0, w0, d0, p1, w1, d1)
    requires Tallied(now, Selections(ti, ts[ti].size, ids), p1, w1, d1, p2, w2, d2)
    ensures Tallied(ts, a + Selections(ti, ts[ti].size, ids), p0, w0, d0, p2, w2, d2)
  {
    var b := Selections(ti, ts[ti].size, ids);
    SelectionsOf(ti, ts[ti].size, ids);
    forall k: Kind ensures Tally(ts, a + b, k) == Tally(ts, a, k) + Tally(now, b, k) {
      TallyJoin(ts, a, b, k);
      TallySame(now, ts, b, k);
    }
  }

  lemma TallyOne(ts: Tensors, a: seq<Slice>, s: Slice, k: Kind)
    ensures Tally(ts, a + [s], k) == Tally(ts, a, k) + (if KindOf(ts, s) == k then 1 else 0)
  {
    assert (a + [s])[..|a|] == a;
  }

  /** One more selected id, found as it was before the selection began. */
  lemma TalliedOne(ts: Tensors, now: Tensors, ti: nat, ids: seq<int>, i: nat, p0: nat, w0: nat, d0: nat, p: nat, w: nat, d: nat)
    requires i < |ids| && ti < |ts| && ti < |now| && ts[ti].Valid()
    requires now[ti].pinned == ts[ti].pinned && now[ti].loaded == ts[ti].loaded
    requires Tallied(ts, Selections(ti, ts[ti].size, ids[..i]), p0, w0, d0, p, w, d)
    ensures var id := ids[i]; var sel := Selections(ti, ts[ti].size, ids[..i + 1]);
      if 0 <= id < ts[ti].size then
        Tallied(ts, sel, p0, w0, d0,
          p + (if now[ti].pinned[id] then 1 else 0),
          w + (if !now[ti].pinned[id] && now[ti].loaded[id] then 1 else 0),
          d + (if !now[ti].pinned[id] && !now[ti].loaded[id] then 1 else 0))
      else Tallied(ts, sel, p0, w0, d0, p, w, d)
  {
    hide Tally;
    assert ids[..i + 1][..i] == ids[..i];
    var a, id := Selections(ti, ts[ti].size, ids[..i]), ids[i];
    if 0 <= id < ts[ti].size {
      var s := Slice(ti, id);
      assert Selections(ti, ts[ti].size, ids[..i + 1]) == a + [s];
      TallyOne(ts, a, s, PinHit);
      TallyOne(ts, a, s, WarmHit);
      TallyOne(ts, a, s, DiskMiss);
    } else {
      assert a + [] == a;
    }
  }

  /** What serving a selection does to a tensor: the selected slices that were
      neither pinned nor loaded are loaded, and nothing else but recency moves. */
  ghost predicate Served(t: ExpertTensor, t': ExpertTensor, ids: seq<int>) {
    && t.Valid() && t'.Valid()
    && t' == t.(loaded := t'.loaded, lastUsed := t'.lastUsed)
    && forall id :: 0 <= id < t.size ==> (t'.loaded[id] <==> t.loaded[id] || (id in ids && !t.pinned[id]))
  }

  ghost predicate ServedAt(t: ExpertTensor, t': ExpertTensor, layer: int, ids: seq<int>) {
    if t.layer == layer && t.mapped then Served(t, t', ids) else t' == t
  }

  /** prefetch_experts over all tensors: those of the layer that are mapped serve
      the selection, the others are untouched. */
  ghost predicate AllServed(ts: Tensors, ts': Tensors, layer: int, ids: seq<int>) {
    |ts'| == |ts| && forall i :: 0 <= i < |ts| ==> ServedAt(ts[i], ts'[i], layer, ids)
  }

  function AllSelections(ts: Tensors, layer: int, ids: seq<int>): seq<Slice> {
    if ts == [] then []
    else
      var n := |ts| - 1;
      AllSelections(ts[..n], layer, ids)
      + (if ts[n].layer == layer && ts[n].mapped then Selections(n, ts[n].size, ids) else [])
  }

  lemma NoSelections(layer: int, ids: seq<int>)
    ensures AllSelections([], layer, ids) == []
  {
  }

  lemma MoreSelections(ts: Tensors, ti: nat, layer: int, ids: seq<int>)
    requires ti < |ts|
    ensures AllSelections(ts[..ti + 1], layer, ids) ==
      if ts[ti].layer == layer && ts[ti].mapped then AllSelections(ts[..ti], layer, ids) + Selections(ti, ts[ti].size, ids)
      else AllSelections(ts[..ti], layer, ids)
  {
    assert ts[..ti + 1][..ti] == ts[..ti];
  }

  lemma {:induction false} SelectionsCount(ti: nat, size: nat, ids: seq<int>, s: Slice)
    ensures multiset(Selections(ti, size, ids))[s] == if s.tensor == ti && s.id < size then Occurrences(ids, s.id) else 0
  {
    if ids == [] {
    } else {
      SelectionsCount(ti, size, ids[..|ids| - 1], s);
    }
  }

  /** What a call touches: every slice of every mapped tensor of the layer, once for
      each time its expert is selected. */
  lemma {:induction false} TouchedOncePerSelection(ts: Tensors, layer: int, ids: seq<int>, s: Slice)
    ensures multiset(AllSelections(ts, layer, ids))[s] ==
      if s.tensor < |ts| && ts[s.tensor].layer == layer && ts[s.tensor].mapped && s.id < ts[s.tensor].size
      then Occurrences(ids, s.id) else 0
  {
    if ts == [] {
    } else {
      var n := |ts| - 1;
      TouchedOncePerSelection(ts[..n], layer, ids, s);
      SelectionsCount(n, ts[n].size, ids, s);
    }
  }

  lemma {:induction false} NothingSelected(ts: Tensors, layer: int)
    ensures AllSelections(ts, layer, []) == []
  {
    if ts == [] {
    } else {
      NothingSelected(ts[..|ts| - 1], layer);
    }
  }

  /** Served the members of a set, in whatever order they were listed. */
  ghost predicate ServedSet(ts: Tensors, ts': Tensors, layer: int, s: set<nat>) {
    exists ids: seq<int> :: (forall x :: x in ids <==> x in s) && AllServed(ts, ts', layer, ids)
  }

  /** One more access to every member of a set, whatever the order. */
  ghost predicate Touched(history: seq<Slice>, history': seq<Slice>, ts: Tensors, layer: int, s: set<nat>) {
    exists ids: seq<int> ::
      && |ids| == |s| && (forall x :: x in ids <==> x in s)
      && history' == history + AllSelections(ts, layer, ids)
  }

  lemma NothingTouched(history: seq<Slice>, history': seq<Slice>, ts: Tensors, layer: int)
    ensures Touched(history, history', ts, layer, {}) <==> history' == history
  {
    NothingSelected(ts, layer);
    var none: seq<int> := [];
    var empty: set<nat> := {};
    assert |none| == |empty| && forall x: int :: x in none <==> x in empty;
    assert history + [] == history;
    if Touched(history, history', ts, layer, {}) {
      var ids: seq<int> :| |ids| == 0 && history' == history + AllSelections(ts, layer, ids);
      assert ids == [];
    }
  }

  lemma TouchedListing(history: seq<Slice>, ts: Tensors, layer: int, s: set<nat>, ids: seq<int>)
    requires |ids| == |s| && forall x :: x in ids <==> x in s
    ensures Touched(history, history + AllSelections(ts, layer, ids), ts, layer, s)
  {
  }

  lemma NothingServed(ts: Tensors, layer: int)
    requires AllValid(ts)
    ensures AllServed(ts, ts, layer, []) && ServedSet(ts, ts, layer, {})
  {
    assert forall x: int :: x in [] <==> x in {};
  }

  lemma ServedListing(ts: Tensors, ts': Tensors, layer: int, s: set<nat>, ids: seq<int>)
    requires AllServed(ts, ts', layer, ids) && forall x :: x in ids <==> x in s
    ensures ServedSet(ts, ts', layer, s)
  {
  }

  lemma ServedKeepsStats(ts: Tensors, ts': Tensors, layer: int, ids: seq<int>)
    requires AllServed(ts, ts', layer, ids)
    ensures AllSameStats(ts, ts')
  {
  }

  /** It is no part of the history of pinnings. */
  lemma ServedTraced(ts: Tensors, ts': Tensors, layer: int, ids: seq<int>, h: seq<Record>, os: seq<Origin>,
                     ess: seq<seq<Pinning>>, prior: Prior, maxActive: int)
    requires AllServed(ts, ts', layer, ids) && AllTraced(ts, h, os, ess, prior, maxActive)
    ensures AllTraced(ts', h, os, ess, prior, maxActive)
  {
    hide AllTraced;
    TracedSame(ts, ts', h, os, ess, prior, maxActive);
  }

  /** Serving a selection unpins nothing, and unmapped tensors load nothing. */
  lemma ServedKeepsPins(ts: Tensors, ts': Tensors, layer: int, ids: seq<int>, ess: seq<seq<Pinning>>, ceiling: nat,
                        total: nat, current: nat)
    requires AllServed(ts, ts', layer, ids) && AllPins(ts, ess) && PinsKept(ts, total, current, ceiling) && AllValid(ts')
    ensures AllPins(ts', ess) && Floor(ts', ceiling) == Floor(ts, ceiling)
  {
    hide AllPins, Floor;
    AllPinsStay(ts, ts', ess);
    FloorSame(ts, ts', ceiling);
  }

  lemma TouchKeeps(ts: Tensors, ti: nat, id: nat, history: seq<Slice>, total: nat, current: nat, ceiling: nat)
    requires AllValid(ts) && TicksAre(ts, history) && PinsKept(ts, total, current, ceiling)
    requires ti < |ts| && id < ts[ti].size
    ensures var ts' := ts[ti := ts[ti].(lastUsed := ts[ti].lastUsed[id := |history| + 1])];
      && AllValid(ts') && TicksAre(ts', history + [Slice(ti, id)]) && PinsKept(ts', total, current, ceiling)
      && LoadedBytes(ts') == LoadedBytes(ts)
  {
    var ts' := ts[ti := ts[ti].(lastUsed := ts[ti].lastUsed[id := |history| + 1])];
    SumsSame(ts, ts');
    assert (history + [Slice(ti, id)])[..|history|] == history;
  }

  // ---- PILOT -------------------------------------------------------------------

  ghost predicate IsNextLayer(ts: Tensors, layer: int, next: int) {
    next > layer && HasLayer(ts, next) && forall l :: HasLayer(ts, l) && l > layer ==> l >= next
  }

  /** The choice of the next layer: the nearest later one, or none. */
  ghost predicate NextChosen(ts: Tensors, layer: int, next: int) {
    IsNextLayer(ts, layer, next) || (next == -1 && forall l :: HasLayer(ts, l) ==> l <= layer)
  }

  /** The next layer, in terms of the tensors: some later layer has tensors exactly if
      one is chosen, and no tensor lies in between. */
  lemma NextIsNearest(ts: Tensors, layer: int, next: int)
    requires NextChosen(ts, layer, next) && layer >= 0
    ensures (exists i :: 0 <= i < |ts| && ts[i].layer > layer) <==> next > layer
    ensures next > layer ==> exists i :: 0 <= i < |ts| && ts[i].layer == next
    ensures next > layer ==> forall i :: 0 <= i < |ts| ==> ts[i].layer <= layer || ts[i].layer >= next
    ensures next <= layer ==> next == -1
  {
    forall i | 0 <= i < |ts| ensures HasLayer(ts, ts[i].layer) {
    }
  }

  /** P is what the pruning keeps of this tensor's scores. */
  ghost predicate PilotChoice(t: ExpertTensor, ids: seq<int>, maxActive: int, share: real, P: set<nat>)
    requires t.Valid()
  {
    Pilot.Choice(t.trans, t.size, ids, Limit(t, maxActive), share, P)
  }

  ghost predicate Unites(parts: seq<set<nat>>, all: set<nat>) {
    forall e :: e in all <==> exists i :: 0 <= i < |parts| && e in parts[i]
  }

  lemma UniteNone()
    ensures Unites([], {})
  {
  }

  lemma UniteOne(parts: seq<set<nat>>, all: set<nat>, p: set<nat>)
    requires Unites(parts, all)
    ensures Unites(parts + [p], all + p)
  {
    var parts' := parts + [p];
    forall e ensures e in all + p <==> exists i :: 0 <= i < |parts'| && e in parts'[i] {
      if e in all {
        var i :| 0 <= i < |parts| && e in parts[i];
        assert e in parts'[i];
      } else if e in p {
        assert e in parts'[|parts|];
      }
    }
  }

  ghost predicate Predicted(ts: Tensors, next: int, ids: seq<int>, maxActive: int, share: real,
                            parts: seq<set<nat>>, predicted: set<nat>)
    requires AllValid(ts)
  {
    && |parts| == |ts|
    && (forall i :: 0 <= i < |ts| ==>
          if ts[i].layer == next then PilotChoice(ts[i], ids, maxActive, share, parts[i]) else parts[i] == {})
    && Unites(parts, predicted)
  }

  /** A pilot call: off or nothing selected, no prediction; otherwise the pruned
      prediction for the next layer. */
  ghost predicate Piloted(ts: Tensors, layer: int, ids: seq<int>, usePilot: bool, maxActive: int, share: real,
                          next: int, parts: seq<set<nat>>, predicted: set<nat>)
    requires AllValid(ts)
  {
    if !usePilot || ids == [] then predicted == {}
    else
      && NextChosen(ts, layer, next)
      && if next < 0 then predicted == {} else Predicted(ts, next, ids, maxActive, share, parts, predicted)
  }

  lemma PilotedLater(ts: Tensors, layer: int, ids: seq<int>, usePilot: bool, maxActive: int, share: real,
                     next: int, parts: seq<set<nat>>, predicted: set<nat>)
    requires AllValid(ts) && Piloted(ts, layer, ids, usePilot, maxActive, share, next, parts, predicted)
    ensures predicted != {} ==> next > layer
  {
  }

  lemma {:induction false} ScoreHasSource(trans: seq<nat>, n: nat, ids: seq<int>, to: nat) returns (from: nat)
    requires |trans| == n * n && to < n && Pilot.ScoreAt(trans, n, ids, to) > 0
    ensures from in ids && from < n && Pilot.Cell(trans, n, from, to) > 0
  {
    var last := ids[|ids| - 1];
    if 0 <= last < n && Pilot.Cell(trans, n, last, to) > 0 {
      from := last;
    } else {
      from := ScoreHasSource(trans, n, ids[..|ids| - 1], to);
    }
  }

  /** How often `to` came after one of the first n experts, each weighted by how often
      it is selected now. */
  function Precedents(h: seq<Record>, since: nat, layer: int, ids: seq<int>, n: nat, to: int): nat {
    if n == 0 then 0
    else Precedents(h, since, layer, ids, n - 1, to) + Occurrences(ids, n - 1) * Transitions(h, since, layer, n - 1, to)
  }

  lemma {:induction false} NoPrecedents(h: seq<Record>, since: nat, layer: int, n: nat, to: int)
    ensures Precedents(h, since, layer, [], n, to) == 0
  {
    if n == 0 {
    } else {
      NoPrecedents(h, since, layer, n - 1, to);
    }
  }

  lemma OneMoreTimes(a: nat, c: nat)
    ensures (a + 1) * c == a * c + c
  {
  }

  lemma {:induction false} PrecedentsNext(h: seq<Record>, since: nat, layer: int, ids: seq<int>, n: nat, to: int)
    requires ids != []
    ensures var id := ids[|ids| - 1];
      Precedents(h, since, layer, ids, n, to) == Precedents(h, since, layer, ids[..|ids| - 1], n, to)
        + (if 0 <= id < n then Transitions(h, since, layer, id, to) else 0)
    decreases n
  {
    if n == 0 {
    } else {
      PrecedentsNext(h, since, layer, ids, n - 1, to);
      if ids[|ids| - 1] == n - 1 {
        OneMoreTimes(Occurrences(ids[..|ids| - 1], n - 1), Transitions(h, since, layer, n - 1, to));
      }
    }
  }

  /** What PILOT ranks by, from the trace alone: an expert's score is how often it has
      followed the selected experts, summed over all of them. */
  lemma {:induction false} ScoreIsHistory(t: ExpertTensor, h: seq<Record>, o: Origin, ids: seq<int>, to: nat)
    requires Learned(t, h, o) && to < t.size
    ensures Pilot.ScoreAt(t.trans, t.size, ids, to) == Precedents(h, o.since, t.layer, ids, t.size, to)
    ensures Pilot.Weights(t.trans, t.size, ids)[to] == Precedents(h, o.since, t.layer, ids, t.size, to) as real
    decreases |ids|
  {
    hide Hits, Transitions, Occurrences;
    if ids == [] {
      NoPrecedents(h, o.since, t.layer, t.size, to);
    } else {
      var id := ids[|ids| - 1];
      ScoreIsHistory(t, h, o, ids[..|ids| - 1], to);
      PrecedentsNext(h, o.since, t.layer, ids, t.size, to);
      if 0 <= id < t.size {
        assert Pilot.Cell(t.trans, t.size, id, to) == Transitions(h, o.since, t.layer, id, to);
      }
    }
  }

  /** What is predicted has followed the selected experts at least as often as anything
      that is not. */
  lemma PredictedAreLikeliest(t: ExpertTensor, h: seq<Record>, o: Origin, ids: seq<int>, maxActive: int, share: real,
                              P: set<nat>, e: nat, f: nat)
    requires Learned(t, h, o) && PilotChoice(t, ids, maxActive, share, P) && e in P && f < t.size && f !in P
    ensures e < t.size
    ensures Precedents(h, o.since, t.layer, ids, t.size, e) >= Precedents(h, o.since, t.layer, ids, t.size, f)
  {
    var w := Pilot.Weights(t.trans, t.size, ids);
    var cap, cutoff := Limit(t, maxActive), Pilot.Cutoff(share, Total(w));
    var order, m: nat :| Pilot.Keeps(w, order, cap, cutoff, m) && P == Elements(order[..m]);
    var r: nat :| r < m && order[..m][r] == e;
    TopSplits(w, order, m, e);
    TopSplits(w, order, m, f);
    ScoreIsHistory(t, h, o, ids, e);
    ScoreIsHistory(t, h, o, ids, f);
  }

  /** The whole prediction for a tensor, from the trace alone. Weighing an expert by how
      often it followed those selected now, the prediction is empty without any such
      weight; else it holds at least one expert if it may, at most the budget, as much
      weight as any set no larger, and, short of the budget, the target share; no smaller
      choice of some experts reaches that share. */
  lemma PredictionIsCover(t: ExpertTensor, h: seq<Record>, o: Origin, ids: seq<int>, maxActive: int, share: real,
                          P: set<nat>, S: set<nat>)
    requires Learned(t, h, o) && PilotChoice(t, ids, maxActive, share, P) && S <= Below(t.size)
    ensures var w := Pilot.Weights(t.trans, t.size, ids);
      var top := if t.budget > 0 then t.budget else maxActive;
      var target := (share * Total(w)).Floor as real;
      && (forall to: nat :: to < t.size ==> w[to] == Precedents(h, o.since, t.layer, ids, t.size, to) as real)
      && P <= Below(t.size) && |P| <= (if top > 0 then top else 0)
      && ((forall to: nat :: to < t.size ==> w[to] == 0.0) ==> P == {})
      && (top > 0 && (exists to: nat :: to < t.size && w[to] > 0.0) ==> P != {})
      && (P != {} && |S| <= |P| ==> Mass(w, S, t.size) <= Mass(w, P, t.size))
      && (P != {} && |P| < top && |P| < t.size ==> Mass(w, P, t.size) >= target)
      && (S != {} && |S| < |P| ==> Mass(w, S, t.size) < target)
  {
    hide Below, Mass, Total, Precedents, PrefixMass;
    var w := Pilot.Weights(t.trans, t.size, ids);
    forall to: nat | to < t.size ensures w[to] == Precedents(h, o.since, t.layer, ids, t.size, to) as real {
      ScoreIsHistory(t, h, o, ids, to);
    }
    if Pilot.Positive(w) != {} {
      var cap, cutoff := Limit(t, maxActive), Pilot.Cutoff(share, Total(w));
      var order, m: nat :| Pilot.Keeps(w, order, cap, cutoff, m) && P == Elements(order[..m]);
      PrefixSize(order, |w|, m);
      Pilot.KeptCoversMost(w, order, cap, cutoff, m, P);
      if |S| <= m {
        Pilot.KeptCoversMost(w, order, cap, cutoff, m, S);
      }
      if S != {} && |S| < m {
        Pilot.KeptIsMinimumCover(w, order, cap, cutoff, m, S);
      }
    }
    Pilot.PositiveAny(w);
  }

  /** What a pilot call reads: exactly the absent, unpinned experts that the mapped
      tensors of the next expert layer have among the predictions of some tensor there. */
  lemma PilotReads(ts: Tensors, ts': Tensors, layer: int, ids: seq<int>, usePilot: bool, maxActive: int, share: real,
                   next: int, parts: seq<set<nat>>, predicted: set<nat>, i: nat, id: nat)
    requires AllValid(ts) && i < |ts| && id < ts[i].size
    requires Piloted(ts, layer, ids, usePilot, maxActive, share, next, parts, predicted)
    requires ServedSet(ts, ts', next, predicted)
    ensures |ts'| == |ts| && id < |ts'[i].loaded| && (ts[i].loaded[id] ==> ts'[i].loaded[id])
    ensures !ts[i].loaded[id] ==> (ts'[i].loaded[id] <==>
      && usePilot && ids != [] && next >= 0 && ts[i].layer == next && ts[i].mapped && !ts[i].pinned[id]
      && |parts| == |ts| && exists j: nat :: j < |ts| && ts[j].layer == next && id in parts[j])
    ensures usePilot && ids != [] && next >= 0 ==>
      && |parts| == |ts|
      && forall j: nat :: j < |ts| && ts[j].layer == next ==> PilotChoice(ts[j], ids, maxActive, share, parts[j])
  {
    hide PilotChoice;
    var xs: seq<int> :| (forall x :: x in xs <==> x in predicted) && AllServed(ts, ts', next, xs);
    assert ServedAt(ts[i], ts'[i], next, xs);
    if usePilot && ids != [] && next >= 0 && id in predicted {
      var j: int :| 0 <= j < |parts| && id in parts[j];
      assert ts[j].layer == next;
    }
  }

  /** Every prediction of a pruned pass follows, somewhere in the trace, an expert
      selected now: a pair of consecutive records of one token that ends at this
      layer with the predicted expert. */
  lemma PredictionHasPrecedent(t: ExpertTensor, h: seq<Record>, o: Origin, ids: seq<int>, maxActive: int, share: real,
                               P: set<nat>, e: nat) returns (from: nat)
    requires Learned(t, h, o) && 0.0 <= share <= 1.0 && PilotChoice(t, ids, maxActive, share, P) && e in P
    ensures from in ids && from < t.size && e < t.size && Transitions(h, o.since, t.layer, from, e) > 0
  {
    var w := Pilot.Weights(t.trans, t.size, ids);
    var cap, cutoff := Limit(t, maxActive), Pilot.Cutoff(share, Total(w));
    var order, m: nat :| Pilot.Keeps(w, order, cap, cutoff, m) && P == Elements(order[..m]);
    var r: nat :| r < m && order[..m][r] == e;
    Pilot.PredictionsAreLearned(w, order, cap, share, m, r);
    from := ScoreHasSource(t.trans, t.size, ids, e);
    assert Pilot.Cell(t.trans, t.size, from, e) == Transitions(h, o.since, t.layer, from, e);
  }

  // ---- the router callback -----------------------------------------------------

  /** The router step on one tensor: a selected slice of a mapped tensor of the
      layer ends pinned or loaded, loaded exactly if it was or was not pinned when
      the record step finished, and always loaded when there is no ceiling. */
  ghost predicate RouterServed(t: ExpertTensor, t': ExpertTensor, layer: int, ids: seq<int>, ceiling: nat) {
    && t.Valid() && t'.Valid()
    && t' == t.(loaded := t'.loaded, lastUsed := t'.lastUsed)
    && (forall id :: 0 <= id < t.size && t.loaded[id] ==> t'.loaded[id])
    && (t.layer == layer && t.mapped ==> forall id :: 0 <= id < t.size && id in ids ==>
          && (t'.pinned[id] || t'.loaded[id])
          && (t'.loaded[id] <==> t.loaded[id] || !t.pinned[id])
          && (ceiling == 0 ==> t'.loaded[id]))
  }

  /** The states a router step passes through. */
  datatype RouterRun = RouterRun(learned: Tensors, routed: Tensors, served: Tensors,
                                 next: int, parts: seq<set<nat>>, predicted: set<nat>)

  /** The three calls of a router step, one after another. */
  ghost predicate RouterSteps(ts: Tensors, ts': Tensors, layer: int, ids: seq<int>, run: RouterRun, pinsNow: bool,
                              usePilot: bool, maxActive: int, share: real, ceiling: nat)
  {
    && |run.learned| == |ts| && (forall i :: 0 <= i < |ts| ==> OnlyStats(ts[i], run.learned[i]))
    && (if pinsNow then PinPass(run.learned, run.routed, maxActive, ceiling) else run.routed == run.learned)
    && AllServed(run.routed, run.served, layer, ids)
    && AllValid(run.served)
    && Piloted(run.served, layer, ids, usePilot, maxActive, share, run.next, run.parts, run.predicted)
    && ServedSet(run.served, ts', run.next, run.predicted)
  }

  ghost predicate AllRouterServed(ts: Tensors, ts': Tensors, layer: int, ids: seq<int>, ceiling: nat) {
    |ts'| == |ts| && forall i :: 0 <= i < |ts| ==> RouterServed(ts[i], ts'[i], layer, ids, ceiling)
  }

  /** The same on entry to the callback: a selected slice ends loaded only if it
      was loaded or not pinned, and exactly then unless a pin pass ran under a
      byte ceiling, which may drop what the pass has just pinned. */
  ghost predicate EntryServed(t: ExpertTensor, t': ExpertTensor, layer: int, ids: seq<int>, pinsNow: bool, ceiling: nat) {
    && t.Valid() && t'.Valid() && t'.size == t.size
    && (t.layer == layer && t.mapped ==> forall id :: 0 <= id < t.size && id in ids ==>
          && (t'.loaded[id] ==> t.loaded[id] || !t.pinned[id])
          && (!pinsNow || ceiling == 0 ==> (t'.loaded[id] <==> t.loaded[id] || !t.pinned[id])))
  }

  ghost predicate AllEntryServed(ts: Tensors, ts': Tensors, layer: int, ids: seq<int>, pinsNow: bool, ceiling: nat) {
    |ts'| == |ts| && forall i :: 0 <= i < |ts| ==> EntryServed(ts[i], ts'[i], layer, ids, pinsNow, ceiling)
  }

  lemma EntryDone(ts: Tensors, learned: Tensors, routed: Tensors, ts': Tensors, layer: int, ids: seq<int>,
                  pinsNow: bool, maxActive: int, ceiling: nat, total: nat)
    requires |learned| == |ts| && forall i :: 0 <= i < |ts| ==> OnlyStats(ts[i], learned[i])
    requires if pinsNow then PinPass(learned, routed, maxActive, ceiling) else routed == learned
    requires AllRouterServed(routed, ts', layer, ids, ceiling)
    requires PinsKept(ts, total, total, ceiling)
    ensures AllEntryServed(ts, ts', layer, ids, pinsNow, ceiling)
  {
    forall i | 0 <= i < |ts| ensures EntryServed(ts[i], ts'[i], layer, ids, pinsNow, ceiling) {
      assert OnlyStats(ts[i], learned[i]) && RouterServed(routed[i], ts'[i], layer, ids, ceiling);
      assert TensorPins(ts[i], ceiling);
      assert forall id :: 0 <= id < ts[i].size && routed[i].loaded[id] ==> ts[i].loaded[id] || !ts[i].pinned[id];
    }
  }

  lemma NothingRouted(ts: Tensors, layer: int, ceiling: nat)
    requires AllValid(ts)
    ensures AllRouterServed(ts, ts, layer, [], ceiling)
  {
  }

  lemma RouterOne(t: ExpertTensor, t1: ExpertTensor, t2: ExpertTensor, layer: int, ids: seq<int>, next: int,
                  asked: seq<int>, ceiling: nat)
    requires t.Valid() && ServedAt(t, t1, layer, ids) && ServedAt(t1, t2, next, asked)
    requires next == layer ==> forall x :: x !in asked
    requires TensorPins(t2, ceiling)
    ensures RouterServed(t, t2, layer, ids, ceiling)
  {
  }

  lemma RouterDone(ts: Tensors, mid: Tensors, ts': Tensors, layer: int, ids: seq<int>, next: int, predicted: set<nat>,
                   total: nat, current: nat, ceiling: nat)
    requires AllValid(ts) && AllServed(ts, mid, layer, ids) && ServedSet(mid, ts', next, predicted)
    requires predicted != {} ==> next > layer
    requires PinsKept(ts', total, current, ceiling)
    ensures AllRouterServed(ts, ts', layer, ids, ceiling)
  {
    var asked :| (forall x :: x in asked <==> x in predicted) && AllServed(mid, ts', next, asked);
    forall i | 0 <= i < |ts| ensures RouterServed(ts[i], ts'[i], layer, ids, ceiling) {
      RouterOne(ts[i], mid[i], ts'[i], layer, ids, next, asked, ceiling);
    }
  }

  /** What the three calls of a router step amount to. */
  lemma StepsDone(ts: Tensors, ts': Tensors, layer: int, ids: seq<int>, run: RouterRun, pinsNow: bool,
                  usePilot: bool, maxActive: int, share: real, ceiling: nat, total: nat, total': nat)
    requires RouterSteps(ts, ts', layer, ids, run, pinsNow, usePilot, maxActive, share, ceiling)
    requires AllValid(run.routed) && PinsKept(ts, total, total, ceiling) && PinsKept(ts', total', total', ceiling)
    ensures AllRouterServed(run.routed, ts', layer, ids, ceiling)
    ensures AllEntryServed(ts, ts', layer, ids, pinsNow, ceiling)
  {
    hide AllServed, ServedSet, Piloted, PinPass, PinsKept, OnlyStats;
    PilotedLater(run.served, layer, ids, usePilot, maxActive, share, run.next, run.parts, run.predicted);
    RouterDone(run.routed, run.served, ts', layer, ids, run.next, run.predicted, total', total', ceiling);
    EntryDone(ts, run.learned, run.routed, ts', layer, ids, pinsNow, maxActive, ceiling, total);
  }
}
