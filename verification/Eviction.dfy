/** Which slices two-pass eviction reclaims, and why no other choice of as many
    slices loses fewer hot ones. */
module Eviction {
  import opened Experts
  import opened Ranking

  const UINT64_MAX: nat := 0xFFFF_FFFF_FFFF_FFFF

  ghost predicate Hot(t: ExpertTensor, i: nat)
    requires t.Valid() && i < t.size
  {
    t.windowHits[i] > HOT_PROTECT
  }

  /** Loaded and not pinned: what eviction may reclaim. */
  function Candidates(t: ExpertTensor): (c: set<nat>)
    requires t.Valid()
    ensures forall i: nat :: i in c <==> i < t.size && t.loaded[i] && !t.pinned[i]
  {
    set i: nat | i < t.size && t.loaded[i] && !t.pinned[i]
  }

  function Pinned(t: ExpertTensor): (c: set<nat>)
    requires t.Valid()
    ensures forall i: nat :: i in c <==> i < t.size && t.pinned[i]
  {
    set i: nat | i < t.size && t.pinned[i]
  }

  /** Pinned or loaded: what counts against the budget. */
  function Resident(t: ExpertTensor): (c: set<nat>)
    requires t.Valid()
    ensures forall i: nat :: i in c <==> i < t.size && (t.pinned[i] || t.loaded[i])
  {
    set i: nat | i < t.size && (t.pinned[i] || t.loaded[i])
  }

  ghost function HotOnes(t: ExpertTensor, s: set<nat>): (h: set<nat>)
    requires t.Valid()
    ensures forall i: nat :: i in h <==> i in s && i < t.size && Hot(t, i)
  {
    set i: nat | i in s && i < t.size && Hot(t, i)
  }

  ghost predicate Older(t: ExpertTensor, i: nat, j: nat)
    requires t.Valid() && i < t.size && j < t.size
  {
    t.lastUsed[i] < t.lastUsed[j] || (t.lastUsed[i] == t.lastUsed[j] && i < j)
  }

  /** Eviction order: cold before hot, then least recently used, then index. */
  ghost predicate Before(t: ExpertTensor, i: nat, j: nat)
    requires t.Valid() && i < t.size && j < t.size
  {
    (!Hot(t, i) && Hot(t, j)) || (Hot(t, i) == Hot(t, j) && Older(t, i, j))
  }

  /** V is an initial segment of the candidates in eviction order. */
  ghost predicate FirstVictims(t: ExpertTensor, V: set<nat>)
    requires t.Valid()
  {
    && V <= Candidates(t)
    && forall v, c :: v in V && c in Candidates(t) && c !in V ==> Before(t, v, c)
  }

  lemma BeforeAsymmetric(t: ExpertTensor, i: nat, j: nat)
    requires t.Valid() && i < t.size && j < t.size
    ensures !(Before(t, i, j) && Before(t, j, i))
  {
  }

  /** The segment is determined by its size. */
  lemma VictimsUnique(t: ExpertTensor, V: set<nat>, W: set<nat>)
    requires t.Valid() && FirstVictims(t, V) && FirstVictims(t, W) && |V| == |W|
    ensures V == W
  {
    if v :| v in V && v !in W {
      if w :| w in W && w !in V {
        BeforeAsymmetric(t, v, w);
      } else {
        assert W <= V;
        SubsetSame(W, V);
      }
    } else {
      SubsetSame(V, W);
    }
  }

  lemma Partition<T>(s: set<T>, a: set<T>)
    requires a <= s
    ensures |s - a| == |s| - |a|
  {
    assert s == a + (s - a);
  }

  /** Of all ways to reclaim this many slices, single-pass LRU included, none
      evicts fewer hot ones. */
  lemma FewestHot(t: ExpertTensor, V: set<nat>, U: set<nat>)
    requires t.Valid() && FirstVictims(t, V) && U <= Candidates(t) && |U| == |V|
    ensures |HotOnes(t, V)| <= |HotOnes(t, U)|
  {
    var coldV, coldU := V - HotOnes(t, V), U - HotOnes(t, U);
    Partition(V, HotOnes(t, V));
    Partition(U, HotOnes(t, U));
    if h :| h in HotOnes(t, V) {
      forall c | c in coldU ensures c in coldV {
        assert c in V || Before(t, h, c);
      }
      SubsetSize(coldU, coldV);
    } else {
      assert HotOnes(t, V) == {};
    }
  }

  /** t with the slices in V dropped. */
  function Dropped(t: ExpertTensor, V: set<nat>): (t': ExpertTensor)
    requires t.Valid()
    ensures t'.Valid()
  {
    t.(loaded := seq(t.size, i requires 0 <= i < t.size => t.loaded[i] && i !in V))
  }

  lemma DropOne(t: ExpertTensor, V: set<nat>, v: nat)
    requires t.Valid() && v < t.size
    ensures var d := Dropped(t, V);
      Dropped(t, V + {v}) == d.(loaded := d.loaded[v := false])
  {
    var d := Dropped(t, V);
    assert Dropped(t, V + {v}).loaded == d.loaded[v := false];
  }

  lemma DropNone(t: ExpertTensor)
    requires t.Valid()
    ensures Dropped(t, {}) == t
  {
    assert Dropped(t, {}).loaded == t.loaded;
  }

  /** Candidates left once an initial segment is gone. */
  lemma CandidatesLeft(t: ExpertTensor, V: set<nat>)
    requires t.Valid()
    ensures Candidates(Dropped(t, V)) == Candidates(t) - V
  {
  }

  /** Dropping candidates frees exactly that many residents. */
  lemma ResidentAfter(t: ExpertTensor, V: set<nat>)
    requires t.Valid() && V <= Candidates(t)
    ensures |Resident(Dropped(t, V))| == |Resident(t)| - |V|
    ensures |Resident(t)| == |Pinned(t)| + |Candidates(t)|
  {
    assert Resident(Dropped(t, V)) == Resident(t) - V;
    Partition(Resident(t), V);
    assert Resident(t) - Pinned(t) == Candidates(t);
    Partition(Resident(t), Pinned(t));
  }

  /** Eviction to a limit: nothing when within it, otherwise just enough of the
      first victims to leave the limit, or the pins if they are more. */
  ghost predicate EvictedTo(t: ExpertTensor, t': ExpertTensor, V: set<nat>, limit: int)
    requires t.Valid() && t'.Valid()
  {
    && FirstVictims(t, V) && t' == Dropped(t, V)
    && (limit <= 0 || !t.mapped || |Resident(t)| <= limit ==> V == {})
    && (limit > 0 && t.mapped && |Resident(t)| > limit ==>
          |Resident(t')| == if limit < |Pinned(t)| then |Pinned(t)| else limit)
  }

  /** The victim scan: the oldest eligible slice, lowest index first, or -1. */
  method FindVictim(t: ExpertTensor, coldOnly: bool) returns (victim: int)
    requires t.Valid() && forall i :: 0 <= i < t.size ==> t.lastUsed[i] < UINT64_MAX
    ensures victim == -1 || (0 <= victim < t.size && victim in Candidates(t) && !(coldOnly && Hot(t, victim)))
    ensures victim == -1 ==> forall c :: c in Candidates(t) ==> coldOnly && Hot(t, c)
    ensures victim != -1 ==>
      forall c :: c in Candidates(t) && c != victim && !(coldOnly && Hot(t, c)) ==>
        && Older(t, victim, c)
        && t.lastUsed[victim] <= t.lastUsed[c] && (t.lastUsed[victim] == t.lastUsed[c] ==> victim < c)
  {
    victim := -1;
    var oldest := UINT64_MAX;
    for i := 0 to t.size
      invariant victim == -1 ==> oldest == UINT64_MAX
      invariant victim == -1 ==> forall c: nat :: c < i && c in Candidates(t) ==> coldOnly && Hot(t, c)
      invariant victim != -1 ==> 0 <= victim < i && oldest == t.lastUsed[victim]
      invariant victim != -1 ==> victim in Candidates(t) && !(coldOnly && Hot(t, victim))
      invariant victim != -1 ==>
        forall c: nat :: c < i && c in Candidates(t) && c != victim && !(coldOnly && Hot(t, c)) ==> Older(t, victim, c)
    {
      if t.pinned[i] || !t.loaded[i] {
        continue;
      }
      if coldOnly && t.windowHits[i] > HOT_PROTECT {
        continue;
      }
      if t.lastUsed[i] < oldest {
        oldest, victim := t.lastUsed[i], i;
      }
    }
  }

  /** One more victim extends the segment: in the cold pass, or once no cold
      candidate is left. */
  lemma SegmentGrows(t: ExpertTensor, V: set<nat>, coldOnly: bool, v: nat)
    requires t.Valid() && FirstVictims(t, V) && v in Candidates(t) && v !in V
    requires coldOnly ==> !Hot(t, v)
    requires !coldOnly ==> forall c :: c in Candidates(t) && c !in V ==> Hot(t, c)
    requires forall c :: c in Candidates(t) && c !in V && c != v && !(coldOnly && Hot(t, c)) ==> Older(t, v, c)
    ensures FirstVictims(t, V + {v})
  {
  }

  /** What taking one more victim does to the segment and its hot part. */
  lemma NextVictim(t: ExpertTensor, V: set<nat>, coldOnly: bool, v: nat)
    requires t.Valid() && FirstVictims(t, V)
    requires v in Candidates(Dropped(t, V)) && !(coldOnly && Hot(t, v))
    requires forall c :: c in Candidates(Dropped(t, V)) && c != v && !(coldOnly && Hot(t, c)) ==> Older(t, v, c)
    requires !coldOnly ==> forall c :: c in Candidates(t) && c !in V ==> Hot(t, c)
    ensures FirstVictims(t, V + {v}) && v !in V
    ensures Dropped(t, V + {v}) == Dropped(t, V).(loaded := Dropped(t, V).loaded[v := false])
    ensures |HotOnes(t, V + {v})| == |HotOnes(t, V)| + (if Hot(t, v) then 1 else 0)
  {
    CandidatesLeft(t, V);
    SegmentGrows(t, V, coldOnly, v);
    DropOne(t, V, v);
    if Hot(t, v) {
      assert HotOnes(t, V + {v}) == HotOnes(t, V) + {v};
    } else {
      assert HotOnes(t, V + {v}) == HotOnes(t, V);
    }
  }

  lemma NoVictims(t: ExpertTensor)
    requires t.Valid()
    ensures Dropped(t, {}) == t && FirstVictims(t, {}) && |HotOnes(t, {})| == 0
  {
    DropNone(t);
    assert HotOnes(t, {}) == {};
  }

  /** What eviction took away, by the history of selections: no cold slice outlives
      that a hot one was taken for, and of equal heat the taken were selected no
      later than any that could have been taken and was not. */
  ghost predicate TookOldest(t: ExpertTensor, t': ExpertTensor, ti: nat, history: seq<Slice>) {
    && t.Valid() && t'.Valid() && t'.size == t.size
    && forall v: nat, c: nat ::
         v < t.size && c < t.size && t.loaded[v] && !t'.loaded[v] && t'.loaded[c] && !t'.pinned[c] ==>
           && (t.windowHits[v] > HOT_PROTECT ==> t.windowHits[c] > HOT_PROTECT)
           && ((t.windowHits[v] > HOT_PROTECT <==> t.windowHits[c] > HOT_PROTECT) ==>
                 LastTouch(history, Slice(ti, v)) <= LastTouch(history, Slice(ti, c)))
  }

  lemma VictimsOldest(ts: Tensors, ti: nat, V: set<nat>, history: seq<Slice>)
    requires Clocked(ts, history) && ti < |ts| && ts[ti].Valid() && FirstVictims(ts[ti], V)
    ensures TookOldest(ts[ti], Dropped(ts[ti], V), ti, history)
  {
    var t, t' := ts[ti], Dropped(ts[ti], V);
    forall v: nat, c: nat | v < t.size && c < t.size && t.loaded[v] && !t'.loaded[v] && t'.loaded[c] && !t'.pinned[c]
      ensures Hot(t, v) ==> Hot(t, c)
      ensures Hot(t, v) == Hot(t, c) ==> LastTouch(history, Slice(ti, v)) <= LastTouch(history, Slice(ti, c))
    {
      assert v in V && c in Candidates(t) && c !in V;
      assert Before(t, v, c);
      assert t.lastUsed[v] == LastTouch(history, Slice(ti, v)) && t.lastUsed[c] == LastTouch(history, Slice(ti, c));
    }
  }

  method CountResidents(t: ExpertTensor) returns (count: nat)
    requires t.Valid()
    ensures count == |Resident(t)|
  {
    hide Below;
    count := 0;
    ghost var seen: set<nat> := {};
    for i := 0 to t.size
      invariant seen == Resident(t) * Below(i) && count == |seen|
    {
      if t.pinned[i] || t.loaded[i] {
        count := count + 1;
        seen := seen + {i};
      }
      assert seen == Resident(t) * Below(i + 1);
    }
    assert seen == Resident(t);
  }
}
