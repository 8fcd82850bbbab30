/** The pager over whole runs: any sequence of boundary calls, and complete
    forward passes. */
module PagerRuns {
  import opened PagerModel
  import opened PagerProofs
  import Collections

  lemma InvValid(g: Layout, s: State)
    requires Inv(g, s)
    ensures g.Valid() && |s.resident| == g.n && forall k :: s.Resident(k) ==> k in g.layers
  {
  }

  /** The ring has something to read of layer k: slabs and a ring, and some slab tensor
      whose length is positive and fits 32 bits. */
  predicate RingReads(g: Layout, k: int) {
    && g.useSlab && g.uring && k in g.layers
    && exists i :: 0 <= i < |g.layers[k]| && g.layers[k][i].slab && 0 < g.layers[k][i].byteSize <= 0xFFFF_FFFF
  }

  lemma RingReadsIs(g: Layout, k: int)
    ensures RingReads(g, k) <==> g.Async() && Slices(g, k) != []
  {
    if k in g.layers {
      var ts := g.layers[k];
      if i :| 0 <= i < |ts| && ts[i].slab && 0 < ts[i].byteSize <= 0xFFFF_FFFF {
        assert RingReadable(ts[i]);
        assert SlabId(k, i) in Slices(g, k);
      }
      if Slices(g, k) != [] {
        var id := Slices(g, k)[0];
        assert id in Slices(g, k) && RingReadable(ts[id.index]);
      }
    }
  }

  /** Layers brought in so far, read ahead of their turn or waited for. */
  function BroughtIn(s: State): nat { s.prefetchOps + s.waitOps }

  lemma BroughtInIs(g: Layout, s: State)
    requires Inv(g, s)
    ensures BroughtIn(s) == s.evictOps + CountResident(s.resident)
  {
  }

  lemma InFlightTail(g: Layout, s: State, k: int)
    requires Inv(g, s) && k in s.inflight
    ensures g.w <= k < g.n && RingReads(g, k)
  {
    assert Pending(s.ring, k) == InFlight(s, k);
    PendingPositive(s.ring, k);
    var r :| r in s.ring && r.token == k;
    assert Sound(g, r);
    RingReadsIs(g, k);
  }

  lemma QueuedIs(g: Layout, s: State, k: int)
    requires Inv(g, s) && g.w <= k <= s.upto && s.last < k && RingReads(g, k)
    ensures s.Resident(k) || k in s.inflight
  {
    RingReadsIs(g, k);
  }

  lemma UptoWithin(g: Layout, s: State)
    requires Inv(g, s)
    ensures s.upto < g.n
  {
  }

  lemma EnsureNextKeeps(g: Layout, s: State)
    requires Inv(g, s) && Prefix(g, s) && 0 <= s.last < g.n
    requires s.upto >= s.last + 1 || s.upto == g.n - 1
    ensures var next := s.last + 1; var s' := EnsureNext(g, s, next);
      && Inv(g, s')
      && (next in g.layers ==> s'.Resident(next))
      && (forall k :: s'.Resident(k) <==> s.Resident(k) || (k == next && k in g.layers))
      && s'.inflight.Keys <= s.inflight.Keys - {next}
      && s'.upto == s.upto && s'.last == s.last
  {
    InvValid(g, s);
    hide Inv, EnsureLayer;
    if g.w <= s.last + 1 < g.n {
      EnsureKeeps(g, s, s.last + 1);
    }
  }

  /** It brings the layer in unless it is there. */
  lemma EnsureNextCosts(g: Layout, s: State)
    requires Inv(g, s) && Prefix(g, s) && 0 <= s.last < g.n
    requires s.upto >= s.last + 1 || s.upto == g.n - 1
    ensures var next := s.last + 1; var s' := EnsureNext(g, s, next);
      && s'.evictOps == s.evictOps
      && BroughtIn(s') == BroughtIn(s) + (if next in g.layers && !s.Resident(next) then 1 else 0)
  {
    InvValid(g, s);
    hide Inv, EnsureLayer, BroughtIn, CountResident;
    var next := s.last + 1;
    if g.w <= next < g.n {
      EnsureKeeps(g, s, next);
      BroughtInIs(g, s);
      BroughtInIs(g, EnsureNext(g, s, next));
      CountUpdate(s.resident, next, true);
      assert s.resident[next] ==> s.resident[next := true] == s.resident;
    }
  }

  lemma WaitsOnce(g: Layout, s: State, k: int)
    requires Inv(g, s) && k in s.inflight
    ensures EnsureLayer(g, s, k).waitOps == s.waitOps + 1 && !s.Resident(k)
  {
    InFlightIs(g, s, k);
    AwaitLands(g, s, k);
  }

  lemma ReadsAtOnce(g: Layout, s: State, k: int)
    requires Inv(g, s) && k !in s.inflight && !s.Resident(k) && !RingReads(g, k)
    ensures EnsureLayer(g, s, k).waitOps == s.waitOps
  {
    InvValid(g, s);
    RingReadsIs(g, k);
    hide Inv, RingReads;
    if k in g.layers {
      PrefetchFills(g, s, k);
    }
  }

  lemma NotAgain(g: Layout, s: State, k: int)
    requires s.Resident(k)
    ensures EnsureLayer(g, s, k) == s
  {
  }

  lemma InLayers(g: Layout, k: int)
    requires RingReads(g, k)
    ensures k in g.layers
  {
  }

  /** It waits for what the ring reads, and reads anything else then and there. */
  lemma EnsureNextWaits(g: Layout, s: State)
    requires Inv(g, s) && Prefix(g, s) && 0 <= s.last < g.n
    requires s.upto >= s.last + 1 || s.upto == g.n - 1
    ensures var next := s.last + 1; var s' := EnsureNext(g, s, next);
      s'.waitOps == s.waitOps + (if g.w <= next && RingReads(g, next) && !s.Resident(next) then 1 else 0)
  {
    hide Inv, RingReads, EnsureLayer, Prefix;
    InvValid(g, s);
    UptoWithin(g, s);
    var next := s.last + 1;
    if RingReads(g, next) {
      InLayers(g, next);
    }
    if next in s.inflight {
      InFlightTail(g, s, next);
      WaitsOnce(g, s, next);
    } else if s.Resident(next) {
      NotAgain(g, s, next);
    } else if g.w <= next < g.n {
      if RingReads(g, next) {
        QueuedIs(g, s, next);
      } else {
        ReadsAtOnce(g, s, next);
      }
    }
  }

  lemma ReleaseKeeps(g: Layout, s: State)
    requires Inv(g, s) && 0 <= s.last < g.n
    ensures var s' := Release(g, s, s.last);
      && Inv(g, s')
      && (forall k :: s'.Resident(k) <==> s.Resident(k) && (k != s.last || k < g.w))
      && s'.inflight == s.inflight
      && s'.upto == s.upto && s'.last == s.last && BroughtIn(s') == BroughtIn(s) && s'.waitOps == s.waitOps
      && s'.evictOps == s.evictOps + (if g.w <= s.last && s.Resident(s.last) then 1 else 0)
  {
    InvValid(g, s);
    if g.w <= s.last && s.Resident(s.last) {
      EvictKeeps(g, s);
    }
  }

  lemma AdvanceKeeps(g: Layout, s: State)
    requires Inv(g, s) && Prefix(g, s) && 0 <= s.last < g.n
    ensures var l := s.last; var s' := Advance(g, s, l);
      && Inv(g, s') && Prefix(g, s')
      && s'.last == l
      && (forall k :: s'.Resident(k) <==> (s.Resident(k) || (k == l + 1 && k in g.layers)) && (k != l || k < g.w))
      && (forall k :: k in s'.inflight ==> k != l + 1 && (k in s.inflight || s.upto < k <= l + g.Ahead()))
      && (s'.upto >= l + g.Ahead() || s'.upto == g.n - 1)
      && BroughtIn(s') == BroughtIn(s) + (if l + 1 in g.layers && !s.Resident(l + 1) then 1 else 0)
      && s'.evictOps == s.evictOps + (if g.w <= l && s.Resident(l) then 1 else 0)
      && s'.waitOps == s.waitOps + (if g.w <= l + 1 && RingReads(g, l + 1) && !s.Resident(l + 1) then 1 else 0)
  {
    hide Inv, RingReads, SubmitUpto, EnsureNext, Release;
    var l := s.last;
    SubmitUptoKeeps(g, s, l + g.Ahead());
    var s1 := SubmitUpto(g, s, l + g.Ahead());
    UptoWithin(g, s1);
    assert forall k :: s1.Resident(k) == s.Resident(k);
    EnsureNextKeeps(g, s1);
    EnsureNextCosts(g, s1);
    EnsureNextWaits(g, s1);
    ReleaseKeeps(g, EnsureNext(g, s1, l + 1));
  }

  lemma BoundaryKeeps(g: Layout, s: State, layer: int)
    requires Inv(g, s) && Prefix(g, s)
    ensures Inv(g, OnBoundary(g, s, layer)) && Prefix(g, OnBoundary(g, s, layer))
    ensures 0 <= layer && layer + 1 in g.layers ==> OnBoundary(g, s, layer).Resident(layer + 1)
  {
    InvValid(g, s);
    hide Inv;
    if g.layers != map[] && layer >= 0 {
      var s1 := (if layer <= s.last then NewPass(g, s) else s).(last := layer);
      if layer <= s.last {
        NewPassKeeps(g, s, layer);
      } else {
        LaterLast(g, s, layer);
      }
      if layer < g.n {
        AdvanceKeeps(g, s1);
      }
    }
  }

  lemma {:induction false} FillFromKeeps(g: Layout, s: State, k: nat)
    requires Inv(g, s) && s.ring == [] && s.inflight == map[] && k <= g.w
    requires forall j :: 0 <= j < k && j in g.layers ==> s.Resident(j)
    requires forall j :: s.Resident(j) ==> j < k
    ensures var s' := FillFrom(g, s, k);
      && Inv(g, s') && Prefix(g, s')
      && s'.ring == [] && s'.inflight == map[] && s'.last == s.last && s'.upto == s.upto
      && (forall j :: s'.Resident(j) ==> j < g.w)
    decreases g.w - k
  {
    if k >= g.w {
    } else {
      if k in g.layers {
        PrefetchKeeps(g, s, k);
        PrefetchFills(g, s, k);
      }
      forall j | PrefetchLayer(g, s, k).Resident(j) ensures j < k + 1 {
        assert j == k || s.Resident(j);
      }
      FillFromKeeps(g, PrefetchLayer(g, s, k), k + 1);
    }
  }

  lemma {:induction false} CountNone(b: seq<bool>)
    requires forall i :: 0 <= i < |b| ==> !b[i]
    ensures CountResident(b) == 0
  {
    if b == [] {
    } else {
      CountNone(b[1..]);
    }
  }

  ghost predicate TailEmpty(g: Layout, s: State) {
    s.inflight == map[] && forall k :: s.Resident(k) ==> k < g.w
  }

  /** fill_resident_layers: the whole prefix is resident, nothing is in flight. */
  lemma FillKeeps(g: Layout)
    requires g.Valid()
    ensures Inv(g, Filled(g)) && Prefix(g, Filled(g)) && TailEmpty(g, Filled(g))
    ensures Filled(g).last == -1 && Filled(g).upto == -1
  {
    CountNone(Initial(g).resident);
    var s := Initial(g);
    assert Shape(g, s);
    assert Contents(g, s);
    assert RingInv(g, s);
    assert Disjoint(g, s);
    assert Queued(g, s);
    assert Counted(g, s);
    assert Inv(g, s);
    assert forall j :: s.Resident(j) ==> j < 0;
    FillFromKeeps(g, Initial(g), 0);
  }

  lemma {:induction false} RunKeeps(g: Layout, s: State, bs: seq<int>)
    requires Inv(g, s) && Prefix(g, s)
    ensures Inv(g, Run(g, s, bs)) && Prefix(g, Run(g, s, bs))
    decreases |bs|
  {
    if bs == [] {
    } else {
      RunKeeps(g, s, bs[..|bs| - 1]);
      BoundaryKeeps(g, Run(g, s, bs[..|bs| - 1]), bs[|bs| - 1]);
    }
  }

  // ---- any sequence of boundary calls ----------------------------------------

  /** The async protocol: the ring's outstanding completions are the in-flight
      table, token by token; no layer is both in flight and resident; and no
      outstanding read has had its slab released under it. */
  lemma RingMatchesTable(g: Layout, bs: seq<int>)
    requires g.Valid()
    ensures var s := Run(g, Filled(g), bs);
      && (forall k :: Pending(s.ring, k) == if k in s.inflight then s.inflight[k] else 0)
      && (forall k :: k in s.inflight ==> s.inflight[k] > 0 && g.w <= k < g.n && !s.Resident(k))
      && (forall r :: r in s.ring ==> r.clean && r.dst.layer == r.token && !s.Resident(r.dst.layer))
  {
    FillKeeps(g);
    RunKeeps(g, Filled(g), bs);
    var s := Run(g, Filled(g), bs);
    forall k ensures Pending(s.ring, k) == if k in s.inflight then s.inflight[k] else 0 {
      assert Pending(s.ring, k) == InFlight(s, k);
    }
    forall r | r in s.ring ensures !s.Resident(r.dst.layer) {
      assert Sound(g, r);
      PendingPositive(s.ring, r.token);
    }
  }

  /** A slab tensor too long for a 32-bit read, in a layer the ring can read
      something of: the refill skips it and still marks the layer resident. */
  predicate Skips(g: Layout, k: int) {
    && RingReads(g, k)
    && (exists i :: 0 <= i < |g.layers[k]| && g.layers[k][i].slab && g.layers[k][i].byteSize > 0xFFFF_FFFF)
  }

  lemma SkipsExactly(g: Layout, k: int)
    ensures Slabs(g, k) <= Refilled(g, k) <==> !Skips(g, k)
  {
    RingReadsIs(g, k);
    if RingReads(g, k) {
      var ts, ids := g.layers[k], Slices(g, k);
      if i :| 0 <= i < |ts| && ts[i].slab && ts[i].byteSize > 0xFFFF_FFFF {
        assert SlabId(k, i) in Slabs(g, k) && SlabId(k, i) !in ids;
      } else {
        forall id | id in Slabs(g, k) ensures id in ids {
          assert RingReadable(ts[id.index]);
        }
      }
    }
  }

  /** Slab contents: every slab of a resident layer holds its file bytes exactly
      when the layer has no tensor the ring must skip. */
  lemma ResidentHoldsFile(g: Layout, bs: seq<int>, k: int)
    requires g.Valid() && Run(g, Filled(g), bs).Resident(k)
    ensures Slabs(g, k) <= Run(g, Filled(g), bs).filled <==> !Skips(g, k)
    ensures k in g.layers
    ensures (forall i: nat :: i < |g.layers[k]| && g.layers[k][i].slab && g.layers[k][i].byteSize > 0 ==>
      SlabId(k, i) in Run(g, Filled(g), bs).filled) <==> !Skips(g, k)
  {
    FillKeeps(g);
    RunKeeps(g, Filled(g), bs);
    SkipsExactly(g, k);
    var s := Run(g, Filled(g), bs);
    forall id | id in Slabs(g, k) ensures id.layer == k {}
    assert forall id :: id in Slabs(g, k) && id in s.filled ==> id in Refilled(g, k);
    assert forall id :: id in Refilled(g, k) ==> id in s.filled;
    InvValid(g, s);
    forall i: nat | i < |g.layers[k]|
      ensures SlabId(k, i) in Slabs(g, k) <==> g.layers[k][i].slab && g.layers[k][i].byteSize > 0 {
    }
  }

  /** Such a layer: one byte next to a tensor one past the 32-bit range. After filling
      it is resident, and the long tensor's slab was never read. */
  lemma LongTensorUnread(g: Layout)
    requires g == Layout(map[0 := [StreamTensor("a", 1, true, true), StreamTensor("b", UINT32_MAX + 1, true, true)]],
                            1, 1, 3, true, true)
    ensures g.Valid() && Filled(g).Resident(0)
    ensures SlabId(0, 1) in Slabs(g, 0) && SlabId(0, 1) !in Filled(g).filled
  {
    var ts := g.layers[0];
    assert RingReadable(ts[0]) && !RingReadable(ts[1]);
    assert SlabId(0, 0) in Slices(g, 0) && SlabId(0, 1) !in Slices(g, 0);
    PrefetchFills(g, Initial(g), 0);
    assert Filled(g) == FillFrom(g, PrefetchLayer(g, Initial(g), 0), 1) == PrefetchLayer(g, Initial(g), 0);
    assert Filled(g).filled == {} + Refilled(g, 0);
  }

  /** Residency before compute. */
  lemma NextIsResident(g: Layout, bs: seq<int>, layer: nat)
    requires g.Valid()
    ensures var s := Run(g, Filled(g), bs + [layer]);
      && (layer + 1 in g.layers ==> s.Resident(layer + 1))
      && (forall k :: 0 <= k < g.w && k in g.layers ==> s.Resident(k))
  {
    FillKeeps(g);
    RunKeeps(g, Filled(g), bs);
    assert (bs + [layer])[..|bs|] == bs;
    BoundaryKeeps(g, Run(g, Filled(g), bs), layer);
  }

  /** Every layer brought in is still resident or was released once. */
  lemma TrafficBalances(g: Layout, bs: seq<int>)
    requires g.Valid()
    ensures var s := Run(g, Filled(g), bs);
      && s.prefetchOps + s.waitOps - s.evictOps == CountResident(s.resident)
      && (!g.Async() ==> s.prefetchOps - s.evictOps == CountResident(s.resident))
  {
    FillKeeps(g);
    RunKeeps(g, Filled(g), bs);
  }

  // ---- complete passes -------------------------------------------------------

  function Pass(m: nat): (p: seq<int>)
    ensures |p| == m
  {
    seq(m, i => i)
  }

  /** The reads ahead of layer l: what the ring can read of the next layers, up to the
      configured distance. The very next layer is no longer awaited, and so a distance
      of one or less leaves nothing in flight. */
  predicate ReadAhead(g: Layout, l: int, k: int) {
    RingReads(g, k) && g.w <= k < g.n && l + 2 <= k <= l + g.ahead
  }

  /** After boundary l of a pass the streamed tail is layer l + 1, resident, and
      the reads ahead are in flight. */
  ghost predicate Window(g: Layout, s: State, l: int) {
    && s.last == l
    && (s.upto >= l + g.Ahead() || s.upto == g.n - 1)
    && (forall k :: g.w <= k ==> (s.Resident(k) <==> k == l + 1 && k in g.layers))
    && (forall k :: k in s.inflight <==> ReadAhead(g, l, k))
  }

  lemma LaterLast(g: Layout, s: State, layer: int)
    requires Inv(g, s) && s.last < layer
    ensures Inv(g, s.(last := layer)) && -1 <= s.upto
  {
    RingFrame(g, s, s.(last := layer));
  }

  /** The tail layers with tensors, up to layer l. */
  function TailUpto(g: Layout, l: int): set<int> {
    set k | k in g.layers && g.w <= k <= l
  }

  lemma TailNext(g: Layout, l: int)
    ensures |TailUpto(g, l)| == |TailUpto(g, l - 1)| + (if l in g.layers && g.w <= l then 1 else 0)
  {
    if l in g.layers && g.w <= l {
      assert TailUpto(g, l) == TailUpto(g, l - 1) + {l};
    } else {
      assert TailUpto(g, l) == TailUpto(g, l - 1);
    }
  }

  /** Of those, the layers the ring reads. */
  function RingTail(g: Layout, l: int): set<int> {
    set k | k in TailUpto(g, l) && RingReads(g, k)
  }

  lemma RingTailNext(g: Layout, l: int)
    ensures |RingTail(g, l)| == |RingTail(g, l - 1)| + (if g.w <= l && RingReads(g, l) then 1 else 0)
  {
    if g.w <= l && RingReads(g, l) {
      assert RingTail(g, l) == RingTail(g, l - 1) + {l};
    } else {
      assert RingTail(g, l) == RingTail(g, l - 1);
    }
  }

  /** Boundaries 0..l have brought in every tail layer up to l + 1 once, waiting for
      those the ring reads, and released every one up to l once. */
  ghost predicate Spent(g: Layout, s0: State, s: State, l: int) {
    && BroughtIn(s) == BroughtIn(s0) + |TailUpto(g, l + 1)|
    && s.evictOps == s0.evictOps + |TailUpto(g, l)|
    && s.waitOps == s0.waitOps + |RingTail(g, l + 1)|
  }

  lemma WindowSlides(g: Layout, s: State, s1: State, l: nat)
    requires Inv(g, s1) && Prefix(g, s1) && 1 <= g.w && l < g.n && s1.last == l && s1.resident == s.resident
    requires forall k :: g.w <= k ==> (s.Resident(k) <==> l > 0 && k == l && k in g.layers)
    requires forall k :: k in s1.inflight ==> l < k <= l + g.Ahead()
    requires l == 0 || s1.upto >= l || s1.upto == g.n - 1
    ensures Window(g, Advance(g, s1, l), l)
    ensures BroughtIn(Advance(g, s1, l)) == BroughtIn(s1) + (if l + 1 in g.layers && g.w <= l + 1 then 1 else 0)
    ensures Advance(g, s1, l).evictOps == s1.evictOps + (if l in g.layers && g.w <= l then 1 else 0)
    ensures Advance(g, s1, l).waitOps == s1.waitOps + (if g.w <= l + 1 && RingReads(g, l + 1) then 1 else 0)
  {
    hide Inv, Advance, Slices, RingReads;
    AdvanceKeeps(g, s1);
    var s' := Advance(g, s1, l);
    InvValid(g, s1);
    UptoWithin(g, s');
    assert forall k :: s1.Resident(k) == s.Resident(k);
    forall k ensures k in s'.inflight <==> ReadAhead(g, l, k) {
      if k in s'.inflight {
        InFlightTail(g, s', k);
      } else if ReadAhead(g, l, k) {
        QueuedIs(g, s', k);
      }
    }
  }

  lemma BoundaryWindow(g: Layout, s: State, l: nat)
    requires Inv(g, s) && Prefix(g, s) && 1 <= g.w && l < g.n && g.layers != map[]
    requires if l == 0 then TailEmpty(g, s) else Window(g, s, l - 1)
    ensures Window(g, OnBoundary(g, s, l), l)
    ensures BroughtIn(OnBoundary(g, s, l)) == BroughtIn(s) + (if l + 1 in g.layers && g.w <= l + 1 then 1 else 0)
    ensures OnBoundary(g, s, l).evictOps == s.evictOps + (if l in g.layers && g.w <= l then 1 else 0)
    ensures OnBoundary(g, s, l).waitOps == s.waitOps + (if g.w <= l + 1 && RingReads(g, l + 1) then 1 else 0)
  {
    hide Inv, Advance, RingReads;
    var s1 := (if l <= s.last then NewPass(g, s) else s).(last := l);
    if l <= s.last {
      NewPassKeeps(g, s, l);
    } else {
      LaterLast(g, s, l);
    }
    WindowSlides(g, s, s1, l);
    assert OnBoundary(g, s, l) == Advance(g, s1, l);
  }

  /** Layer 0 is in the prefix. */
  lemma NoTail(g: Layout)
    requires 1 <= g.w
    ensures TailUpto(g, -1) == TailUpto(g, 0) == {} && RingTail(g, 0) == {}
  {
  }

  lemma {:induction false} PassWindow(g: Layout, s: State, l: nat)
    requires Inv(g, s) && Prefix(g, s) && TailEmpty(g, s) && 1 <= g.w && l < g.n && g.layers != map[]
    ensures Window(g, Run(g, s, Pass(l + 1)), l)
    ensures Spent(g, s, Run(g, s, Pass(l + 1)), l)
    decreases l
  {
    hide Inv, OnBoundary, Window, TailEmpty, TailUpto, RingTail, RingReads, Prefix;
    var p := Pass(l + 1);
    assert p[..l] == Pass(l);
    RunKeeps(g, s, Pass(l));
    TailNext(g, l);
    TailNext(g, l + 1);
    RingTailNext(g, l + 1);
    if l == 0 {
      assert Pass(0) == [];
      NoTail(g);
    } else {
      PassWindow(g, s, l - 1);
    }
    BoundaryWindow(g, Run(g, s, Pass(l)), l);
  }

  /** m complete passes. */
  function Passes(n: nat, m: nat): seq<int> {
    if m == 0 then [] else Passes(n, m - 1) + Pass(n)
  }

  lemma {:induction false} RunAppend(g: Layout, s: State, a: seq<int>, b: seq<int>)
    ensures Run(g, s, a + b) == Run(g, Run(g, s, a), b)
    decreases |b|
  {
    if b == [] {
      assert a + b == a;
    } else {
      var i := |b| - 1;
      assert (a + b)[..|a + b| - 1] == a + b[..i];
      RunAppend(g, s, a, b[..i]);
    }
  }

  lemma RunNone(g: Layout, s: State)
    ensures Run(g, s, []) == s
  {
  }

  lemma LayersNonEmpty(g: Layout)
    requires g.Valid() && g.layers != map[]
    ensures g.n >= 1
  {
    var k := Collections.Member(g.layers.Keys);
  }

  /** After the last boundary of a pass the window is past the last layer. */
  lemma WindowCloses(g: Layout, s: State)
    requires Inv(g, s) && Window(g, s, g.n - 1)
    ensures TailEmpty(g, s)
  {
    hide Inv;
    InvValid(g, s);
    forall k ensures k !in s.inflight {
      if k in s.inflight {
        InFlightTail(g, s, k);
      }
    }
    Collections.EmptyMap(s.inflight);
  }

  lemma {:induction false} NoLayers(g: Layout, s: State, bs: seq<int>)
    requires g.layers == map[]
    ensures Run(g, s, bs) == s
    decreases |bs|
  {
    if bs == [] {
    } else {
      NoLayers(g, s, bs[..|bs| - 1]);
    }
  }

  lemma {:induction false} PassesEndEmpty(g: Layout, m: nat)
    requires g.Valid() && 1 <= g.w
    ensures Inv(g, Run(g, Filled(g), Passes(g.n, m))) && Prefix(g, Run(g, Filled(g), Passes(g.n, m)))
    ensures TailEmpty(g, Run(g, Filled(g), Passes(g.n, m)))
  {
    hide Inv, Filled, Run, Prefix, OnBoundary;
    FillKeeps(g);
    RunKeeps(g, Filled(g), Passes(g.n, m));
    if m == 0 {
      RunNone(g, Filled(g));
    } else {
      PassesEndEmpty(g, m - 1);
      var s := Run(g, Filled(g), Passes(g.n, m - 1));
      RunAppend(g, Filled(g), Passes(g.n, m - 1), Pass(g.n));
      if g.layers == map[] {
        NoLayers(g, s, Pass(g.n));
      } else {
        LayersNonEmpty(g);
        PassWindow(g, s, g.n - 1);
        RunKeeps(g, s, Pass(g.n));
        WindowCloses(g, Run(g, s, Pass(g.n)));
      }
    }
  }

  /** The whole prefix. */
  function PrefixLayers(g: Layout, k: nat): set<int> {
    set j | j in g.layers && k <= j < g.w
  }

  /** Filling reads every prefix layer with tensors once. */
  lemma {:induction false} FillFromCosts(g: Layout, s: State, k: nat)
    requires s.ring == [] && k <= g.w <= |s.resident|
    requires forall j :: k <= j < g.w ==> !s.Resident(j)
    ensures BroughtIn(FillFrom(g, s, k)) == BroughtIn(s) + |PrefixLayers(g, k)|
    ensures FillFrom(g, s, k).evictOps == s.evictOps && FillFrom(g, s, k).waitOps == s.waitOps
    decreases g.w - k
  {
    hide Slices, Refilled;
    if k >= g.w {
      assert PrefixLayers(g, k) == {};
    } else {
      if k in g.layers {
        PrefetchFills(g, s, k);
        assert PrefixLayers(g, k) == {k} + PrefixLayers(g, k + 1);
      } else {
        assert PrefixLayers(g, k) == PrefixLayers(g, k + 1);
      }
      var s1 := PrefetchLayer(g, s, k);
      assert k in g.layers ==> s1.resident == s.resident[k := true];
      forall j | k + 1 <= j < g.w ensures !s1.Resident(j) {
        assert !s.Resident(j);
      }
      FillFromCosts(g, PrefetchLayer(g, s, k), k + 1);
    }
  }

  lemma NoneUpto(g: Layout)
    requires g.layers == map[]
    ensures TailUpto(g, g.n) == {} && RingTail(g, g.n) == {}
  {
  }

  lemma NothingLast(g: Layout)
    requires g.Valid()
    ensures TailUpto(g, g.n) == TailUpto(g, g.n - 1) && RingTail(g, g.n) == RingTail(g, g.n - 1)
  {
  }

  /** The cost of a pass: filling reads every prefix layer with tensors once, and each
      of m complete passes brings in and releases every tail layer with tensors once,
      in order, as `Spent` says for its parts, and waits for those the ring reads. */
  lemma {:induction false} PassesCost(g: Layout, m: nat)
    requires g.Valid() && 1 <= g.w
    ensures var s := Run(g, Filled(g), Passes(g.n, m));
      && s.evictOps == m * |TailUpto(g, g.n)|
      && BroughtIn(s) == |PrefixLayers(g, 0)| + m * |TailUpto(g, g.n)|
      && s.waitOps == m * |RingTail(g, g.n)|
  {
    hide Inv, Run, OnBoundary, TailEmpty, TailUpto, RingTail, RingReads, Prefix;
    if m == 0 {
      RunNone(g, Filled(g));
      FillFromCosts(g, Initial(g), 0);
    } else {
      PassesCost(g, m - 1);
      PassesEndEmpty(g, m - 1);
      var s := Run(g, Filled(g), Passes(g.n, m - 1));
      RunAppend(g, Filled(g), Passes(g.n, m - 1), Pass(g.n));
      if g.layers == map[] {
        NoLayers(g, s, Pass(g.n));
        NoneUpto(g);
      } else {
        LayersNonEmpty(g);
        PassWindow(g, s, g.n - 1);
        NothingLast(g);
      }
      assert m * |TailUpto(g, g.n)| == (m - 1) * |TailUpto(g, g.n)| + |TailUpto(g, g.n)|;
      assert m * |RingTail(g, g.n)| == (m - 1) * |RingTail(g, g.n)| + |RingTail(g, g.n)|;
    }
  }

  /** The sliding window over whole runs: m complete passes and then boundaries
      0..l leave, beyond the prefix, exactly layer l + 1 resident and exactly the
      reads ahead of it in flight, having brought in every tail layer up to l + 1 and
      released every one up to l once more; a complete pass leaves nothing. The reads
      ahead reach as far as the configured distance, and there are none when it is one
      or less. */
  lemma SlidingWindow(g: Layout, m: nat, l: nat)
    requires g.Valid() && 1 <= g.w && l < g.n && g.layers != map[]
    ensures var s := Run(g, Filled(g), Passes(g.n, m) + Pass(l + 1));
      && (forall k :: g.w <= k ==> (s.Resident(k) <==> k == l + 1 && k in g.layers))
      && (forall k :: k in s.inflight <==> RingReads(g, k) && g.w <= k < g.n && l + 2 <= k <= l + g.ahead)
      && (g.ahead <= 1 ==> s.inflight == map[])
      && Spent(g, Run(g, Filled(g), Passes(g.n, m)), s, l)
    ensures TailEmpty(g, Run(g, Filled(g), Passes(g.n, m)))
  {
    hide Inv, Filled, OnBoundary, Spent, RingReads;
    PassesEndEmpty(g, m);
    var s0 := Run(g, Filled(g), Passes(g.n, m));
    RunAppend(g, Filled(g), Passes(g.n, m), Pass(l + 1));
    PassWindow(g, s0, l);
    if g.ahead <= 1 {
      var s := Run(g, s0, Pass(l + 1));
      forall k ensures k !in s.inflight {
        assert k in s.inflight <==> ReadAhead(g, l, k);
      }
      Collections.EmptyMap(s.inflight);
    }
  }
}
