/** What the routing statistics mean: functions of the trace of router records. */
module Routing {
  import opened Experts
  import opened Pilot

  /** One call of record_routing. */
  datatype Record = Record(layer: int, ids: seq<int>)

  /** When a tensor was registered, as a position in the trace, and the hits its
      imatrix prior gave it. */
  datatype Origin = Origin(since: nat, seeds: seq<nat>)

  function Occurrences(ids: seq<int>, x: int): (c: nat) {
    if ids == [] then 0 else Occurrences(ids[..|ids| - 1], x) + (if ids[|ids| - 1] == x then 1 else 0)
  }

  lemma OccursNext(ids: seq<int>, i: nat, x: int)
    requires i < |ids|
    ensures Occurrences(ids[..i + 1], x) == Occurrences(ids[..i], x) + (if ids[i] == x then 1 else 0)
  {
    assert ids[..i + 1][..i] == ids[..i];
  }

  /** Selections of an expert by the records of its layer since registration. */
  function Hits(h: seq<Record>, since: nat, layer: int, id: int): (c: nat)
    decreases |h|
  {
    if |h| <= since then 0
    else
      var r := h[|h| - 1];
      Hits(h[..|h| - 1], since, layer, id) + (if r.layer == layer then Occurrences(r.ids, id) else 0)
  }

  /** Consecutive records of one token: layers fire in increasing order. */
  predicate SameToken(prev: Record, next: Record) {
    prev.layer >= 0 && next.layer > prev.layer && prev.ids != []
  }

  /** Transitions into this layer: pairs of consecutive records of one token
      ending here, weighted by how often each side selected the experts. */
  function Transitions(h: seq<Record>, since: nat, layer: int, from: int, to: int): (c: nat)
    decreases |h|
  {
    if |h| <= since then 0
    else
      var n := |h| - 1;
      Transitions(h[..n], since, layer, from, to)
      + (if n >= 1 && h[n].layer == layer && SameToken(h[n - 1], h[n])
         then Occurrences(h[n - 1].ids, from) * Occurrences(h[n].ids, to) else 0)
  }

  /** A tensor's statistics are those of the trace. */
  ghost predicate Learned(t: ExpertTensor, h: seq<Record>, o: Origin) {
    && t.Valid() && o.since <= |h| && |o.seeds| == t.size
    && (forall id :: 0 <= id < t.size ==>
          && t.totalHits[id] == o.seeds[id] + Hits(h, o.since, t.layer, id)
          && t.windowHits[id] == Hotness(Hits(h, o.since, t.layer, id)))
    && (forall a, b :: 0 <= a < t.size && 0 <= b < t.size ==>
          Cell(t.trans, t.size, a, b) == Transitions(h, o.since, t.layer, a, b))
  }

  /** The record most recently seen, kept as the "from" side. */
  ghost predicate Remembers(h: seq<Record>, layer: int, ids: seq<int>) {
    if h == [] then layer == -1 && ids == []
    else layer == h[|h| - 1].layer && ids == h[|h| - 1].ids
  }

  /** Empty selections are never recorded. */
  ghost predicate NoneEmpty(h: seq<Record>) {
    forall i :: 0 <= i < |h| ==> h[i].ids != []
  }

  lemma OneRecordMore(h: seq<Record>, r: Record)
    ensures NoneEmpty(h) && r.ids != [] ==> NoneEmpty(h + [r])
    ensures Remembers(h + [r], r.layer, r.ids)
  {
  }

  /** k more hits on a decayed count. */
  function Decayed(x: real, k: nat): real {
    if k == 0 then x else Decayed(x, k - 1) * HIT_DECAY + 1.0
  }

  lemma {:induction false} HotnessDecayed(a: nat, k: nat)
    ensures Hotness(a + k) == Decayed(Hotness(a), k)
    decreases k
  {
    if k == 0 {
    } else {
      HotnessDecayed(a, k - 1);
    }
  }

  lemma Product(a: nat, c: nat)
    ensures a * (c + 1) == a * c + a
  {
  }

  method AddColumn(trans0: seq<nat>, n: nat, fromIds: seq<int>, to: nat) returns (trans: seq<nat>)
    requires |trans0| == n * n && to < n
    ensures |trans| == n * n
    ensures forall a, b :: 0 <= a < n && 0 <= b < n ==>
      Cell(trans, n, a, b) == Cell(trans0, n, a, b) + (if b == to then Occurrences(fromIds, a) else 0)
  {
    trans := trans0;
    assert forall a: int :: Occurrences(fromIds[..0], a) == 0;
    for j := 0 to |fromIds|
      invariant |trans| == n * n
      invariant forall a, b :: 0 <= a < n && 0 <= b < n ==>
        Cell(trans, n, a, b) == Cell(trans0, n, a, b) + (if b == to then Occurrences(fromIds[..j], a) else 0)
    {
      var from := fromIds[j];
      ghost var before := trans;
      if IsExpert(from, n) {
        CellInRange(n, from, to);
        trans := trans[from * n + to := trans[from * n + to] + 1];
      }
      forall a, b | 0 <= a < n && 0 <= b < n
        ensures Cell(trans, n, a, b) == Cell(trans0, n, a, b) + (if b == to then Occurrences(fromIds[..j + 1], a) else 0)
      {
        OccursNext(fromIds, j, a);
        CellInRange(n, a, b);
        if IsExpert(from, n) && a * n + b == from * n + to {
          CellsDistinct(n, a, b, from, to);
        }
        assert Cell(before, n, a, b) == Cell(trans0, n, a, b) + (if b == to then Occurrences(fromIds[..j], a) else 0);
      }
    }
    assert fromIds[..|fromIds|] == fromIds;
  }

  /** The transition loops: every cell grows by the product of the two sides'
      occurrence counts. */
  method AddTransitions(trans0: seq<nat>, n: nat, fromIds: seq<int>, ids: seq<int>) returns (trans: seq<nat>)
    requires |trans0| == n * n
    ensures |trans| == n * n
    ensures forall a, b :: 0 <= a < n && 0 <= b < n ==>
      Cell(trans, n, a, b) == Cell(trans0, n, a, b) + Occurrences(fromIds, a) * Occurrences(ids, b)
  {
    trans := trans0;
    assert ids[..0] == [];
    for i := 0 to |ids|
      invariant |trans| == n * n
      invariant forall a, b :: 0 <= a < n && 0 <= b < n ==>
        Cell(trans, n, a, b) == Cell(trans0, n, a, b) + Occurrences(fromIds, a) * Occurrences(ids[..i], b)
    {
      var to := ids[i];
      ghost var before := trans;
      if IsExpert(to, n) {
        trans := AddColumn(trans, n, fromIds, to);
      }
      forall a, b | 0 <= a < n && 0 <= b < n
        ensures Cell(trans, n, a, b) == Cell(trans0, n, a, b) + Occurrences(fromIds, a) * Occurrences(ids[..i + 1], b)
      {
        OccursNext(ids, i, b);
        assert Cell(before, n, a, b) == Cell(trans0, n, a, b) + Occurrences(fromIds, a) * Occurrences(ids[..i], b);
        if b == to {
          Product(Occurrences(fromIds, a), Occurrences(ids[..i], b));
        }
      }
    }
    assert ids[..|ids|] == ids;
  }

  /** The hit loop of one tensor. */
  method AddHits(t: ExpertTensor, ids: seq<int>) returns (t': ExpertTensor)
    requires t.Valid()
    ensures t'.Valid() && t' == t.(totalHits := t'.totalHits, windowHits := t'.windowHits)
    ensures forall id :: 0 <= id < t.size ==>
      && t'.totalHits[id] == t.totalHits[id] + Occurrences(ids, id)
      && t'.windowHits[id] == Decayed(t.windowHits[id], Occurrences(ids, id))
  {
    var total, window := t.totalHits, t.windowHits;
    for i := 0 to |ids|
      invariant |total| == |window| == t.size
      invariant forall id :: 0 <= id < t.size ==>
        && total[id] == t.totalHits[id] + Occurrences(ids[..i], id)
        && window[id] == Decayed(t.windowHits[id], Occurrences(ids[..i], id))
    {
      var id := ids[i];
      forall x | 0 <= x < t.size ensures Occurrences(ids[..i + 1], x) == Occurrences(ids[..i], x) + (if id == x then 1 else 0) {
        OccursNext(ids, i, x);
      }
      if id < 0 || id >= t.size {
        continue;
      }
      total := total[id := total[id] + 1];
      window := window[id := window[id] * HIT_DECAY + 1.0];
    }
    assert ids[..|ids|] == ids;
    t' := t.(totalHits := total, windowHits := window);
  }

  /** One more record, learned by a tensor of its layer. */
  lemma RecordLearned(t: ExpertTensor, t': ExpertTensor, h: seq<Record>, o: Origin, r: Record)
    requires Learned(t, h, o) && r.layer == t.layer
    requires t'.Valid() && t'.size == t.size && t'.layer == t.layer
    requires forall id :: 0 <= id < t.size ==>
      && t'.totalHits[id] == t.totalHits[id] + Occurrences(r.ids, id)
      && t'.windowHits[id] == Decayed(t.windowHits[id], Occurrences(r.ids, id))
    requires forall a, b :: 0 <= a < t.size && 0 <= b < t.size ==>
      Cell(t'.trans, t.size, a, b) == Cell(t.trans, t.size, a, b)
        + (if h != [] && SameToken(h[|h| - 1], r) then Occurrences(h[|h| - 1].ids, a) * Occurrences(r.ids, b) else 0)
    ensures Learned(t', h + [r], o)
  {
    var h' := h + [r];
    assert h'[..|h|] == h;
    forall id | 0 <= id < t.size
      ensures t'.totalHits[id] == o.seeds[id] + Hits(h', o.since, t.layer, id)
      ensures t'.windowHits[id] == Hotness(Hits(h', o.since, t.layer, id))
    {
      HotnessDecayed(Hits(h, o.since, t.layer, id), Occurrences(r.ids, id));
    }
    forall a, b | 0 <= a < t.size && 0 <= b < t.size
      ensures Cell(t'.trans, t.size, a, b) == Transitions(h', o.since, t.layer, a, b)
    {
      assert Cell(t.trans, t.size, a, b) == Transitions(h, o.since, t.layer, a, b);
    }
  }

  /** A record of another layer teaches a tensor nothing. */
  lemma RecordElsewhere(t: ExpertTensor, h: seq<Record>, o: Origin, r: Record)
    requires Learned(t, h, o) && r.layer != t.layer
    ensures Learned(t, h + [r], o)
  {
    var h' := h + [r];
    assert h'[..|h|] == h;
    forall a, b | 0 <= a < t.size && 0 <= b < t.size
      ensures Cell(t.trans, t.size, a, b) == Transitions(h', o.since, t.layer, a, b)
    {
      assert Cell(t.trans, t.size, a, b) == Transitions(h, o.since, t.layer, a, b);
    }
  }

  // ---- the statistics as counts of events ----------------------------------------------

  /** Where an id occurs in a selection. */
  function Places(ids: seq<int>, x: int): (p: set<nat>)
    ensures forall i: nat :: i in p <==> i < |ids| && ids[i] == x
  {
    set i: nat | i < |ids| && ids[i] == x
  }

  lemma {:induction false} OccurrencesArePlaces(ids: seq<int>, x: int)
    ensures Occurrences(ids, x) == |Places(ids, x)|
  {
    if ids == [] {
      assert Places(ids, x) == {};
    } else {
      var n := |ids| - 1;
      OccurrencesArePlaces(ids[..n], x);
      assert Places(ids, x) == if ids[n] == x then Places(ids[..n], x) + {n} else Places(ids[..n], x);
    }
  }

  /** Every selection of an expert by a record of its layer since registration: the
      record and the place in it. */
  ghost function Selected(h: seq<Record>, since: nat, layer: int, id: int): (s: set<(nat, nat)>)
    ensures forall p: (nat, nat) :: p in s <==>
      since <= p.0 < |h| && h[p.0].layer == layer && p.1 < |h[p.0].ids| && h[p.0].ids[p.1] == id
  {
    set n: nat, i: nat | since <= n < |h| && h[n].layer == layer && i < |h[n].ids| && h[n].ids[i] == id :: (n, i)
  }

  /** Places in the n-th record. */
  function Pairs(n: nat, S: set<nat>): (r: set<(nat, nat)>)
    ensures forall p: (nat, nat) :: p in r <==> p.0 == n && p.1 in S
  {
    set i: nat | i in S :: (n, i)
  }

  lemma {:induction false} PairsSize(n: nat, S: set<nat>)
    ensures |Pairs(n, S)| == |S|
  {
    hide Pairs;
    if S == {} {
      assert Pairs(n, S) == {};
    } else {
      var x :| x in S;
      PairsSize(n, S - {x});
      assert Pairs(n, S) == Pairs(n, S - {x}) + {(n, x)};
    }
  }

  lemma SelectedNext(h: seq<Record>, since: nat, layer: int, id: int)
    requires |h| > since
    ensures var n := |h| - 1; var here := if h[n].layer == layer then Places(h[n].ids, id) else {};
      && Selected(h, since, layer, id) == Selected(h[..n], since, layer, id) + Pairs(n, here)
      && Selected(h[..n], since, layer, id) * Pairs(n, here) == {}
  {
    hide Selected, Pairs, Places;
    var n := |h| - 1;
    var here := if h[n].layer == layer then Places(h[n].ids, id) else {};
    forall p: (nat, nat)
      ensures p in Selected(h, since, layer, id) <==> p in Selected(h[..n], since, layer, id) || p in Pairs(n, here)
    {
      if p.0 < n {
        assert h[..n][p.0] == h[p.0];
      }
    }
  }

  /** Hits count selections, each once. */
  lemma {:induction false} HitsAreSelections(h: seq<Record>, since: nat, layer: int, id: int)
    ensures Hits(h, since, layer, id) == |Selected(h, since, layer, id)|
    decreases |h|
  {
    hide Occurrences, Selected, Pairs, Places;
    if |h| <= since {
      assert Selected(h, since, layer, id) == {};
    } else {
      var n := |h| - 1;
      HitsAreSelections(h[..n], since, layer, id);
      SelectedNext(h, since, layer, id);
      OccurrencesArePlaces(h[n].ids, id);
      PairsSize(n, if h[n].layer == layer then Places(h[n].ids, id) else {});
    }
  }

  /** Every transition into a layer: a record of it since registration right after a
      record of an earlier layer, with a place in each. */
  ghost function Followed(h: seq<Record>, since: nat, layer: int, from: int, to: int): (s: set<(nat, nat, nat)>)
    ensures forall p: (nat, nat, nat) :: p in s <==>
      && since <= p.0 < |h| && 1 <= p.0 && h[p.0].layer == layer && 0 <= h[p.0 - 1].layer < layer
      && p.1 < |h[p.0 - 1].ids| && h[p.0 - 1].ids[p.1] == from && p.2 < |h[p.0].ids| && h[p.0].ids[p.2] == to
  {
    set n: nat, i: nat, j: nat |
      && since <= n < |h| && 1 <= n && h[n].layer == layer && 0 <= h[n - 1].layer < layer
      && i < |h[n - 1].ids| && h[n - 1].ids[i] == from && j < |h[n].ids| && h[n].ids[j] == to :: (n, i, j)
  }

  /** Pairs of places in the n-th record and the one before. */
  function Triples(n: nat, A: set<nat>, B: set<nat>): (r: set<(nat, nat, nat)>)
    ensures forall p: (nat, nat, nat) :: p in r <==> p.0 == n && p.1 in A && p.2 in B
  {
    set i: nat, j: nat | i in A && j in B :: (n, i, j)
  }

  lemma {:induction false} RowSize(n: nat, x: nat, B: set<nat>)
    ensures |Triples(n, {x}, B)| == |B|
    decreases |B|
  {
    hide Triples;
    if B == {} {
      assert Triples(n, {x}, B) == {};
    } else {
      var y :| y in B;
      RowSize(n, x, B - {y});
      assert Triples(n, {x}, B) == Triples(n, {x}, B - {y}) + {(n, x, y)};
    }
  }

  lemma {:induction false} TriplesSize(n: nat, A: set<nat>, B: set<nat>)
    ensures |Triples(n, A, B)| == |A| * |B|
    decreases |A|
  {
    hide Triples;
    if A == {} {
      assert Triples(n, A, B) == {};
    } else {
      var x :| x in A;
      TriplesSize(n, A - {x}, B);
      RowSize(n, x, B);
      assert Triples(n, A, B) == Triples(n, A - {x}, B) + Triples(n, {x}, B);
      assert Triples(n, A - {x}, B) * Triples(n, {x}, B) == {};
      Product(|B|, |A - {x}|);
    }
  }

  /** The places of a transition that ends at the last record. */
  function LastFollowed(h: seq<Record>, layer: int, from: int, to: int): set<(nat, nat, nat)>
    requires h != []
  {
    var n := |h| - 1;
    if n >= 1 && h[n].layer == layer && 0 <= h[n - 1].layer < layer
      then Triples(n, Places(h[n - 1].ids, from), Places(h[n].ids, to)) else {}
  }

  lemma FollowedNext(h: seq<Record>, since: nat, layer: int, from: int, to: int)
    requires |h| > since
    ensures var n := |h| - 1;
      && Followed(h, since, layer, from, to) == Followed(h[..n], since, layer, from, to) + LastFollowed(h, layer, from, to)
      && Followed(h[..n], since, layer, from, to) * LastFollowed(h, layer, from, to) == {}
  {
    hide Followed, Triples, Places;
    var n := |h| - 1;
    forall p: (nat, nat, nat)
      ensures p in Followed(h, since, layer, from, to)
         <==> p in Followed(h[..n], since, layer, from, to) || p in LastFollowed(h, layer, from, to)
    {
      if p.0 < n {
        assert h[..n][p.0] == h[p.0] && (p.0 >= 1 ==> h[..n][p.0 - 1] == h[p.0 - 1]);
      }
    }
  }

  lemma LastFollowedSize(h: seq<Record>, layer: int, from: int, to: int)
    requires h != []
    ensures var n := |h| - 1;
      |LastFollowed(h, layer, from, to)| ==
        if n >= 1 && h[n].layer == layer && SameToken(h[n - 1], h[n])
        then Occurrences(h[n - 1].ids, from) * Occurrences(h[n].ids, to) else 0
  {
    hide Triples, Places;
    var n := |h| - 1;
    if n >= 1 {
      OccurrencesArePlaces(h[n - 1].ids, from);
      OccurrencesArePlaces(h[n].ids, to);
      TriplesSize(n, Places(h[n - 1].ids, from), Places(h[n].ids, to));
    }
  }

  /** Transition counts count those, each once: never across the end of a token, where
      the layers start again. */
  lemma {:induction false} TransitionsAreFollowed(h: seq<Record>, since: nat, layer: int, from: int, to: int)
    ensures Transitions(h, since, layer, from, to) == |Followed(h, since, layer, from, to)|
    decreases |h|
  {
    hide Occurrences, Followed, LastFollowed;
    if |h| <= since {
      assert Followed(h, since, layer, from, to) == {};
    } else {
      TransitionsAreFollowed(h[..|h| - 1], since, layer, from, to);
      FollowedNext(h, since, layer, from, to);
      LastFollowedSize(h, layer, from, to);
    }
  }
}
