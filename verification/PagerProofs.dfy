/** What the layer-window pager keeps over every sequence of boundary calls. */
module PagerProofs {
  import opened PagerModel
  import Collections

  // ---- the ring against the in-flight table --------------------------------

  /** Outstanding reads tagged with `token`. */
  function Pending(ring: seq<Request>, token: int): (c: nat)
  {
    if ring == [] then 0
    else (if ring[0].token == token then 1 else 0) + Pending(ring[1..], token)
  }

  lemma {:induction false} PendingAppend(a: seq<Request>, b: seq<Request>, token: int)
    ensures Pending(a + b, token) == Pending(a, token) + Pending(b, token)
  {
    if a == [] {
      assert a + b == b;
    } else {
      assert (a + b)[1..] == a[1..] + b;
      PendingAppend(a[1..], b, token);
    }
  }

  lemma {:induction false} PendingTagged(k: int, ids: seq<SlabId>, token: int)
    ensures Pending(Tagged(k, ids), token) == if k == token then |ids| else 0
  {
    if ids == [] {
    } else {
      assert Tagged(k, ids)[1..] == Tagged(k, ids[1..]);
      PendingTagged(k, ids[1..], token);
    }
  }

  lemma {:induction false} PendingPositive(ring: seq<Request>, token: int)
    ensures Pending(ring, token) > 0 <==> exists r :: r in ring && r.token == token
  {
    if ring == [] {
    } else {
      assert ring == [ring[0]] + ring[1..];
      PendingPositive(ring[1..], token);
    }
  }

  ghost predicate Ordered(ring: seq<Request>) {
    forall i, j :: 0 <= i < j < |ring| ==> ring[i].token <= ring[j].token
  }

  /** Every outstanding read is bound for a slab of the layer its token names,
      and no slab has been released under it. */
  ghost predicate Sound(g: Layout, r: Request) {
    r.clean && r.token == r.dst.layer && r.dst in Slices(g, r.token)
  }

  function InFlight(s: State, k: int): nat { if k in s.inflight then s.inflight[k] else 0 }

  /** The reads of an in-flight layer have landed or are still in the ring. */
  ghost predicate Accounted(g: Layout, s: State, k: int) {
    forall id :: id in Slices(g, k) ==> id in s.filled || Request(k, id, true) in s.ring
  }

  ghost predicate RingInv(g: Layout, s: State) {
    && (forall r :: r in s.ring ==> Sound(g, r))
    && Ordered(s.ring)
    && (forall k :: Pending(s.ring, k) == InFlight(s, k))
    && (forall k :: k in s.inflight ==> s.inflight[k] > 0 && k in g.layers && k <= s.upto && Accounted(g, s, k))
    && (!g.Async() ==> s.ring == [] && s.inflight == map[])
  }

  ghost predicate Disjoint(g: Layout, s: State) {
    forall k :: k in s.inflight ==> g.w <= k < g.n && !s.Resident(k)
  }

  /** Slab contents: the slabs a refill reads are filled in a resident layer,
      and no other slab is ever relied on. */
  ghost predicate Contents(g: Layout, s: State) {
    && (forall k, id :: s.Resident(k) && id in Refilled(g, k) ==> id in s.filled)
    && (forall id :: id in s.filled ==> id in Refilled(g, id.layer))
  }

  /** Layers past the last boundary and behind the submit frontier have been
      queued, and are resident or still in flight. */
  ghost predicate Queued(g: Layout, s: State) {
    forall k :: g.w <= k <= s.upto && s.last < k && g.Async() && Slices(g, k) != []
      ==> s.Resident(k) || k in s.inflight
  }

  ghost predicate Prefix(g: Layout, s: State) {
    forall k :: 0 <= k < g.w && k in g.layers ==> s.Resident(k)
  }

  function CountResident(b: seq<bool>): (c: nat)
  {
    if b == [] then 0 else (if b[0] then 1 else 0) + CountResident(b[1..])
  }

  lemma {:induction false} CountUpdate(b: seq<bool>, k: nat, v: bool)
    requires k < |b|
    ensures CountResident(b[k := v]) == CountResident(b) - (if b[k] then 1 else 0) + (if v then 1 else 0)
  {
    if k == 0 {
      assert b[k := v][1..] == b[1..];
    } else {
      assert b[k := v][1..] == b[1..][k - 1 := v];
      CountUpdate(b[1..], k - 1, v);
    }
  }

  /** Layers brought in, synchronously or by a wait, less layers released. */
  ghost predicate Counted(g: Layout, s: State) {
    && s.prefetchOps + s.waitOps == s.evictOps + CountResident(s.resident)
    && (!g.Async() ==> s.waitOps == 0)
  }

  /** The frame and the layers that can be resident. */
  ghost predicate Shape(g: Layout, s: State) {
    && g.Valid()
    && |s.resident| == g.n
    && -1 <= s.upto < g.n
    && (forall k :: s.Resident(k) ==> k in g.layers)
  }

  ghost predicate Inv(g: Layout, s: State) {
    && Shape(g, s)
    && RingInv(g, s)
    && Disjoint(g, s)
    && Contents(g, s)
    && Queued(g, s)
    && Counted(g, s)
  }

  // ---- one completion ------------------------------------------------------

  lemma PendingTail(ring: seq<Request>, token: int)
    requires ring != []
    ensures Pending(ring, token) == Pending(ring[1..], token) + (if ring[0].token == token then 1 else 0)
  {
  }

  /** Reaping one completion keeps the ring and the table in step; when it was
      its layer's last, every slice of that layer has landed. */
  lemma CompleteKeeps(g: Layout, s: State)
    requires RingInv(g, s) && s.ring != []
    ensures var s' := Complete(s); var t := s.ring[0].token;
      && RingInv(g, s')
      && t in s.inflight
      && s.ring[0].dst.layer == t && s.ring[0].dst in Slices(g, t)
      && (forall k :: k in s'.inflight <==> k in s.inflight && (k == t ==> s.inflight[t] > 1))
      && s'.filled == s.filled + {s.ring[0].dst}
      && s'.ring == s.ring[1..]
      && (t !in s'.inflight ==> forall id :: id in Slices(g, t) ==> id in s'.filled)
  {
    var s' := Complete(s);
    var t := s.ring[0].token;
    assert s.ring[0] in s.ring && Sound(g, s.ring[0]);
    assert Pending(s.ring, t) > 0;
    forall k ensures Pending(s'.ring, k) == InFlight(s', k) {
      PendingTail(s.ring, k);
      assert Pending(s.ring, k) == InFlight(s, k);
    }
    assert s.ring == [s.ring[0]] + s'.ring;
    forall k | k in s.inflight ensures Accounted(g, s', k) {
      assert Accounted(g, s, k);
    }
    if t !in s'.inflight {
      PendingPositive(s'.ring, t);
      assert Accounted(g, s', t);
      forall id | id in Slices(g, t) ensures id in s'.filled {
        assert Request(t, id, true).token == t;
      }
    }
  }

  /** ensure_layer's loop: it ends with the layer's reads landed, having reaped
      only its own completions and those of earlier layers. */
  lemma {:induction false} AwaitKeeps(g: Layout, s: State, k: int)
    requires RingInv(g, s) && k in s.inflight
    ensures var s' := Await(s, k);
      && RingInv(g, s')
      && k !in s'.inflight
      && s.filled <= s'.filled
      && (forall id :: id in s'.filled ==> id in s.filled || (id.layer in s.inflight && id in Slices(g, id.layer)))
      && (forall id :: id in Slices(g, k) ==> id in s'.filled)
      && s'.inflight.Keys <= s.inflight.Keys
      && (forall j :: j in s.inflight && j > k ==> j in s'.inflight)
      && (forall j :: j in s'.inflight ==> j > k)
      && s' == s.(ring := s'.ring, inflight := s'.inflight, filled := s'.filled)
    decreases |s.ring|
  {
    assert Pending(s.ring, k) == s.inflight[k] > 0;
    PendingPositive(s.ring, k);
    var r :| r in s.ring && r.token == k;
    var i :| 0 <= i < |s.ring| && s.ring[i] == r;
    assert s.ring[0].token <= k;
    CompleteKeeps(g, s);
    var s1 := Complete(s);
    if k in s1.inflight {
      AwaitKeeps(g, s1, k);
      assert Await(s, k) == Await(s1, k);
    } else {
      assert s.ring[0].token == k;
      assert Await(s, k) == s1;
      forall j | j in s1.inflight ensures j > k {
        assert Pending(s1.ring, j) == s1.inflight[j];
        PendingPositive(s1.ring, j);
        var q :| q in s1.ring && q.token == j;
      }
    }
  }

  /** drain_inflight: it leaves the ring empty, however many layers were queued. */
  lemma {:induction false} DrainLoopKeeps(g: Layout, s: State)
    requires RingInv(g, s)
    ensures var s' := DrainLoop(s);
      && RingInv(g, s') && s'.inflight == map[] && s'.ring == []
      && s.filled <= s'.filled
      && (forall id :: id in s'.filled ==> id in s.filled || (id.layer in s.inflight && id in Slices(g, id.layer)))
      && s' == s.(ring := [], inflight := map[], filled := s'.filled)
    decreases |s.ring|
  {
    if s.inflight == map[] {
      if s.ring != [] {
        assert s.ring[0] in s.ring;
        PendingPositive(s.ring, s.ring[0].token);
      }
    } else {
      var k := Collections.Member(s.inflight.Keys);
      assert Pending(s.ring, k) == s.inflight[k];
      CompleteKeeps(g, s);
      DrainLoopKeeps(g, Complete(s));
    }
  }

  // ---- the operations ------------------------------------------------------

  /** The state once layer k is queued behind everything already queued. */
  function Queue(g: Layout, s: State, k: int): State {
    Submit(s, k, Slices(g, k)).(inflight := s.inflight[k := |Slices(g, k)|], upto := k)
  }

  lemma QueueAccounts(g: Layout, s: State, k: int, j: int)
    requires forall i :: i in s.inflight ==> Accounted(g, s, i)
    requires j == k || j in s.inflight
    ensures Accounted(g, Queue(g, s, k), j)
  {
    var ids := Slices(g, k);
    var s' := Queue(g, s, k);
    if j == k {
      forall id | id in ids ensures Request(k, id, true) in s'.ring {
        var i :| 0 <= i < |ids| && ids[i] == id;
        assert s'.ring[|s.ring| + i] == Request(k, id, true);
      }
    } else {
      assert forall r :: r in s.ring ==> r in s'.ring;
      assert Accounted(g, s, j);
    }
  }

  lemma QueueOrdered(g: Layout, s: State, k: int)
    requires RingInv(g, s) && k == s.upto + 1
    ensures Ordered(Queue(g, s, k).ring)
    ensures forall r :: r in Queue(g, s, k).ring ==> Sound(g, r)
  {
    forall i | 0 <= i < |s.ring| ensures s.ring[i].token < k && Sound(g, s.ring[i]) {
      assert s.ring[i] in s.ring;
      PendingPositive(s.ring, s.ring[i].token);
      assert Pending(s.ring, s.ring[i].token) == InFlight(s, s.ring[i].token);
    }
    var ring' := Queue(g, s, k).ring;
    forall i | |s.ring| <= i < |ring'| ensures ring'[i].token == k && Sound(g, ring'[i]) {
      assert ring'[i] == Tagged(k, Slices(g, k))[i - |s.ring|];
    }
  }

  lemma QueueKeepsRing(g: Layout, s: State, k: int)
    requires RingInv(g, s) && g.Async() && k in g.layers && k !in s.inflight && k == s.upto + 1
    requires Slices(g, k) != []
    ensures RingInv(g, Queue(g, s, k))
  {
    var ids := Slices(g, k);
    var s' := Queue(g, s, k);
    QueueOrdered(g, s, k);
    forall j ensures Pending(s'.ring, j) == InFlight(s', j) {
      PendingAppend(s.ring, Tagged(k, ids), j);
      PendingTagged(k, ids, j);
      assert Pending(s.ring, j) == InFlight(s, j);
    }
    forall j | j in s'.inflight ensures Accounted(g, s', j) {
      QueueAccounts(g, s, k, j);
    }
  }

  lemma QueueKeepsRest(g: Layout, s: State, k: int)
    requires Disjoint(g, s) && Contents(g, s) && Queued(g, s)
    requires k in g.layers && !s.Resident(k) && g.w <= k < g.n && k == s.upto + 1
    ensures Disjoint(g, Queue(g, s, k)) && Contents(g, Queue(g, s, k)) && Queued(g, Queue(g, s, k))
  {
  }

  lemma RingUpto(g: Layout, s: State, k: int)
    requires RingInv(g, s) && s.upto <= k
    ensures RingInv(g, s.(upto := k))
  {
    var s' := s.(upto := k);
    forall j ensures Pending(s'.ring, j) == InFlight(s', j) {
      assert Pending(s.ring, j) == InFlight(s, j);
    }
    forall j | j in s'.inflight ensures Accounted(g, s', j) {
      assert Accounted(g, s, j);
    }
  }

  /** Contents and traffic read only residency, slabs and counters. */
  lemma ContentsFrame(g: Layout, s: State, s': State)
    requires Contents(g, s) && Counted(g, s) && s'.resident == s.resident && s'.filled == s.filled
    requires s'.prefetchOps == s.prefetchOps && s'.evictOps == s.evictOps && s'.waitOps == s.waitOps
    ensures Contents(g, s') && Counted(g, s')
  {
  }

  /** The frontier may pass a layer that has nothing to queue. */
  lemma PassKeeps(g: Layout, s: State, k: int)
    requires Inv(g, s) && k == s.upto + 1 && k < g.n
    requires k < g.w || !g.Async() || Slices(g, k) == [] || s.Resident(k) || k in s.inflight
    ensures Inv(g, s.(upto := k))
  {
    hide RingInv, Contents, Counted;
    RingUpto(g, s, k);
    ContentsFrame(g, s, s.(upto := k));
  }

  lemma SubmitKeeps(g: Layout, s: State, k: int)
    requires Inv(g, s) && k == s.upto + 1 && g.w <= k < g.n
    ensures Inv(g, SubmitLayer(g, s, k).(upto := k))
    ensures SubmitLayer(g, s, k).inflight.Keys <= s.inflight.Keys + {k}
  {
    if SubmitLayer(g, s, k) == s {
      if k !in g.layers {
        assert Slices(g, k) == [];
      }
      PassKeeps(g, s, k);
    } else {
      QueueKeepsRing(g, s, k);
      QueueKeepsRest(g, s, k);
      assert SubmitLayer(g, s, k).(upto := k) == Queue(g, s, k);
    }
  }

  lemma {:induction false} SubmitUptoKeeps(g: Layout, s: State, target: int)
    requires Inv(g, s)
    ensures var s' := SubmitUpto(g, s, target);
      && Inv(g, s')
      && s'.upto >= s.upto && (s'.upto >= target || s'.upto >= g.n - 1)
      && (s'.upto == s.upto || s'.upto <= target)
      && (forall k :: k in s'.inflight ==> k in s.inflight || s.upto < k <= s'.upto)
      && s'.resident == s.resident && s'.last == s.last
      && s'.prefetchOps == s.prefetchOps && s'.evictOps == s.evictOps && s'.waitOps == s.waitOps
    decreases target - s.upto
  {
    hide Inv;
    if s.upto + 1 <= target && s.upto + 1 < g.n {
      var k := s.upto + 1;
      if k >= g.w {
        SubmitKeeps(g, s, k);
        SubmitUptoKeeps(g, SubmitLayer(g, s, k).(upto := k), target);
      } else {
        PassKeeps(g, s, k);
        SubmitUptoKeeps(g, s.(upto := k), target);
      }
    }
  }

  // ---- the synchronous read ------------------------------------------------

  lemma IdSetSplit(ids: seq<SlabId>, m: nat)
    requires m <= |ids|
    ensures IdSet(ids) == IdSet(ids[..m]) + IdSet(ids[m..])
  {
    assert ids == ids[..m] + ids[m..];
  }

  lemma {:induction false} ReapTagged(s: State, ids: seq<SlabId>)
    requires s.ring == Tagged(0, ids)
    ensures ReapMany(s, |ids|) == s.(ring := [], filled := s.filled + IdSet(ids))
    decreases |ids|
  {
    if ids == [] {
      assert s.filled + IdSet(ids) == s.filled;
    } else {
      assert s.ring[1..] == Tagged(0, ids[1..]);
      ReapTagged(Reap(s), ids[1..]);
      IdSetSplit(ids, 1);
      assert s.filled + {ids[0]} + IdSet(ids[1..]) == s.filled + IdSet(ids);
    }
  }

  /** Queueing and reaping one chunk on an empty ring. */
  lemma ChunkFills(s: State, ids: seq<SlabId>)
    requires s.ring == []
    ensures ReadChunk(s, ids) == s.(filled := s.filled + IdSet(ids))
  {
    var s1 := Submit(s, 0, ids);
    assert s1.ring == Tagged(0, ids);
    ReapTagged(s1, ids);
    assert s1.filled + IdSet(ids) == s.filled + IdSet(ids);
  }

  /** On an empty ring the token-blind read fills exactly its own slices. */
  lemma {:induction false} SlabReadFills(s: State, ids: seq<SlabId>)
    requires s.ring == []
    ensures SlabRead(s, ids) == s.(filled := s.filled + IdSet(ids))
    decreases |ids|
  {
    if ids == [] {
      assert s.filled + IdSet(ids) == s.filled;
    } else {
      var m := ChunkLength(ids);
      var s2 := ReadChunk(s, ids[..m]);
      ChunkFills(s, ids[..m]);
      SlabReadFills(s2, ids[m..]);
      IdSetSplit(ids, m);
      assert s2.filled + IdSet(ids[m..]) == s.filled + IdSet(ids);
    }
  }

  /** A refill outside the ring's traffic makes layer k resident with every slab
      the refill covers. */
  lemma PrefetchFills(g: Layout, s: State, k: int)
    requires k in g.layers && !s.Resident(k) && 0 <= k < |s.resident|
    requires s.ring == [] || !g.Async() || Slices(g, k) == []
    ensures PrefetchLayer(g, s, k) ==
      s.(prefetchOps := s.prefetchOps + 1, filled := s.filled + Refilled(g, k), resident := s.resident[k := true])
  {
    var s1 := s.(prefetchOps := s.prefetchOps + 1);
    if g.Async() && Slices(g, k) != [] {
      var ids := Slices(g, k);
      assert PrefetchLayer(g, s, k) == SlabRead(s1, ids).SetResident(k, true);
      SlabReadFills(s1, ids);
    }
  }

  // ---- making a layer resident and releasing it ------------------------------

  /** More filled slabs and a new resident layer: what a refill or a completed
      wait does to the rest of the invariant. */
  lemma GainKeeps(g: Layout, s: State, s': State, k: int)
    requires Inv(g, s) && k in g.layers && !s.Resident(k)
    requires s'.resident == s.resident[k := true] && s'.upto == s.upto && s'.last == s.last
    requires RingInv(g, s') && k !in s'.inflight && s'.inflight.Keys <= s.inflight.Keys
    requires forall j :: j in s.inflight && j > s.last ==> j == k || j in s'.inflight
    requires s.filled <= s'.filled && (forall id :: id in Refilled(g, k) ==> id in s'.filled)
    requires forall id :: id in s'.filled ==> id in s.filled || id in Refilled(g, id.layer)
    requires s'.evictOps == s.evictOps && s'.prefetchOps + s'.waitOps == s.prefetchOps + s.waitOps + 1
    requires !g.Async() ==> s'.waitOps == 0
    ensures Inv(g, s')
  {
    CountUpdate(s.resident, k, true);
  }

  /** RingInv reads neither the residency table nor the counters. */
  lemma RingFrame(g: Layout, s: State, s': State)
    requires RingInv(g, s) && s'.ring == s.ring && s'.inflight == s.inflight && s'.upto == s.upto
    requires s.filled <= s'.filled
    ensures RingInv(g, s')
  {
    forall k ensures Pending(s'.ring, k) == InFlight(s', k) {
      assert Pending(s.ring, k) == InFlight(s, k);
    }
    forall k | k in s'.inflight ensures Accounted(g, s', k) {
      assert Accounted(g, s, k);
    }
  }

  lemma PrefetchKeeps(g: Layout, s: State, k: int)
    requires Inv(g, s) && k in g.layers && !s.Resident(k) && k !in s.inflight
    requires s.ring == [] || !g.Async() || Slices(g, k) == []
    ensures Inv(g, PrefetchLayer(g, s, k))
  {
    var s' := PrefetchLayer(g, s, k);
    PrefetchFills(g, s, k);
    forall id | id in Refilled(g, k) ensures id.layer == k {}
    RingFrame(g, s, s');
    GainKeeps(g, s, s', k);
  }

  /** What waiting for layer k does, in the terms GainKeeps asks for. */
  lemma AwaitLands(g: Layout, s: State, k: int)
    requires RingInv(g, s) && k in s.inflight
    ensures var a := Await(s.(waitOps := s.waitOps + 1), k);
      && RingInv(g, a) && g.Async()
      && a == s.(waitOps := s.waitOps + 1, ring := a.ring, inflight := a.inflight, filled := a.filled)
      && a.inflight.Keys <= s.inflight.Keys - {k}
      && (forall j :: j in s.inflight && j > k ==> j in a.inflight)
      && s.filled <= a.filled && (forall id :: id in Refilled(g, k) ==> id in a.filled)
      && (forall id :: id in a.filled ==> id in s.filled || id in Refilled(g, id.layer))
  {
    var s1 := s.(waitOps := s.waitOps + 1);
    RingFrame(g, s, s1);
    AwaitKeeps(g, s1, k);
    assert Pending(s.ring, k) == s.inflight[k];
    PendingPositive(s.ring, k);
    assert Refilled(g, k) == IdSet(Slices(g, k));
    var a := Await(s1, k);
    forall id | id in a.filled && id !in s.filled ensures id in Refilled(g, id.layer) {
      assert id in Slices(g, id.layer);
    }
  }

  lemma InFlightIs(g: Layout, s: State, k: int)
    requires Inv(g, s) && k in s.inflight
    ensures RingInv(g, s) && k in g.layers && !s.Resident(k) && 0 <= k < |s.resident|
  {
  }

  lemma AwaitMakesResident(g: Layout, s: State, k: int)
    requires Inv(g, s) && k in s.inflight && k == s.last + 1
    ensures var s' := EnsureLayer(g, s, k);
      && Inv(g, s')
      && s'.resident == s.resident[k := true]
      && s'.inflight.Keys <= s.inflight.Keys - {k}
      && s'.upto == s.upto && s'.last == s.last && s'.evictOps == s.evictOps
  {
    InFlightIs(g, s, k);
    AwaitLands(g, s, k);
    hide Inv, RingInv, Await, Refilled;
    var a := Await(s.(waitOps := s.waitOps + 1), k);
    var s' := a.(resident := a.resident[k := true]);
    assert s' == EnsureLayer(g, s, k);
    RingFrame(g, a, s');
    GainKeeps(g, s, s', k);
  }

  /** ensure_layer for the layer about to be computed. The synchronous ring read
      is never reached: a layer with ring slices is resident or in flight. */
  lemma EnsureKeeps(g: Layout, s: State, k: int)
    requires Inv(g, s) && g.w <= k <= s.upto && k == s.last + 1
    ensures var s' := EnsureLayer(g, s, k);
      && Inv(g, s')
      && s'.resident == (if k in g.layers then s.resident[k := true] else s.resident)
      && s'.inflight.Keys <= s.inflight.Keys - {k}
      && s'.upto == s.upto && s'.last == s.last && s'.evictOps == s.evictOps
  {
    if s.Resident(k) {
    } else if k in s.inflight {
      AwaitMakesResident(g, s, k);
    } else if k in g.layers {
      assert !g.Async() || Slices(g, k) == [];
      PrefetchKeeps(g, s, k);
      PrefetchFills(g, s, k);
    }
  }

  lemma EvictAccounts(g: Layout, s: State)
    requires RingInv(g, s) && s.last !in s.inflight
    ensures forall j :: j in s.inflight ==> Accounted(g, s.(filled := s.filled - Slabs(g, s.last)), j)
  {
    forall j | j in s.inflight ensures Accounted(g, s.(filled := s.filled - Slabs(g, s.last)), j) {
      assert Accounted(g, s, j);
    }
  }

  /** Releasing the layer just computed: no read is in flight towards it. */
  lemma EvictKeeps(g: Layout, s: State)
    requires Inv(g, s) && g.w <= s.last && s.Resident(s.last)
    ensures var s' := EvictLayer(g, s, s.last);
      && Inv(g, s')
      && s'.ring == s.ring && s'.inflight == s.inflight
      && s'.resident == s.resident[s.last := false]
      && s'.upto == s.upto && s'.last == s.last
  {
    var k := s.last;
    var s' := EvictLayer(g, s, k);
    forall i | 0 <= i < |s.ring| ensures s.ring[i].dst !in Slabs(g, k) {
      assert Sound(g, s.ring[i]);
      PendingPositive(s.ring, s.ring[i].token);
      assert Pending(s.ring, s.ring[i].token) == InFlight(s, s.ring[i].token);
    }
    assert s'.ring == s.ring;
    EvictAccounts(g, s);
    CountUpdate(s.resident, k, false);
  }

  lemma NewPassKeeps(g: Layout, s: State, layer: int)
    requires Inv(g, s) && 0 <= layer
    ensures var s' := NewPass(g, s).(last := layer);
      && Inv(g, s')
      && s'.inflight == map[] && s'.ring == [] && s'.resident == s.resident && s'.upto == g.w - 1
  {
    if g.uring {
      RingFrame(g, s, s.(last := -1));
      DrainLoopKeeps(g, s.(last := -1));
    }
  }
}
