/** The slices the byte ceiling drops: the least recently used, across tensors; and
    exactly when no pin is among them. */
module Ceiling {
  import opened Experts
  import opened CacheState
  import opened Ranking

  /** A loaded slice of a mapped tensor, pinned or not. */
  predicate Droppable(ts: Tensors, s: Slice) {
    s.tensor < |ts| && s.id < |ts[s.tensor].loaded| && ts[s.tensor].mapped && ts[s.tensor].loaded[s.id]
  }

  /** The tick a slice was last selected at. */
  function Tick(ts: Tensors, s: Slice): nat {
    if s.tensor < |ts| && s.id < |ts[s.tensor].lastUsed| then ts[s.tensor].lastUsed[s.id] else 0
  }

  function BytesAt(ts: Tensors, s: Slice): nat {
    if s.tensor < |ts| then ts[s.tensor].sliceBytes else 0
  }

  ghost predicate Distinct<T>(s: seq<T>) {
    forall a, b :: 0 <= a < b < |s| ==> s[a] != s[b]
  }

  ghost predicate Enumerates(ts: Tensors, slices: seq<Slice>) {
    Distinct(slices) && forall s :: s in slices <==> Droppable(ts, s)
  }

  /** Sorted from the cold end. */
  ghost predicate ColdFirst(ts: Tensors, slices: seq<Slice>) {
    forall a, b :: 0 <= a <= b < |slices| ==> Tick(ts, slices[a]) <= Tick(ts, slices[b])
  }

  method CollectTensor(ts: Tensors, ti: nat) returns (slices: seq<Slice>)
    requires AllValid(ts) && ti < |ts|
    ensures forall s :: s in slices <==> s.tensor == ti && Droppable(ts, s)
    ensures Distinct(slices)
  {
    slices := [];
    if !ts[ti].mapped {
      return;
    }
    for i := 0 to ts[ti].size
      invariant forall s :: s in slices <==> s.tensor == ti && s.id < i && Droppable(ts, s)
      invariant Distinct(slices)
    {
      if ts[ti].loaded[i] {
        assert Slice(ti, i) !in slices;
        slices := slices + [Slice(ti, i)];
      }
    }
  }

  method Collect(ts: Tensors) returns (slices: seq<Slice>)
    requires AllValid(ts)
    ensures Enumerates(ts, slices)
  {
    slices := [];
    for ti := 0 to |ts|
      invariant forall s :: s in slices <==> s.tensor < ti && Droppable(ts, s)
      invariant Distinct(slices)
    {
      var more := CollectTensor(ts, ti);
      forall a, b | 0 <= a < |slices| && 0 <= b < |more| ensures slices[a] != more[b] {
        assert slices[a] in slices && more[b] in more;
      }
      slices := slices + more;
    }
  }

  /** A permutation keeps the elements and their distinctness. */
  lemma Rearranged<T>(s: seq<T>, order: seq<nat>, r: seq<T>)
    requires IsPermutation(order, |s|) && |r| == |s| && Distinct(s)
    requires forall a :: 0 <= a < |s| ==> r[a] == s[order[a]]
    ensures Distinct(r) && forall x :: x in r <==> x in s
  {
    hide Below;
    PermutationCovers(order, |s|);
    forall a, b | 0 <= a < b < |r| ensures r[a] != r[b] {
      assert order[a] != order[b];
    }
    forall i | 0 <= i < |s| ensures s[i] in r {
      assert i in Elements(order);
      var a :| 0 <= a < |order| && order[a] == i;
      assert r[a] == s[i];
    }
  }

  method SortByRecency(ts: Tensors, slices: seq<Slice>) returns (sorted: seq<Slice>)
    requires Enumerates(ts, slices)
    ensures Enumerates(ts, sorted) && ColdFirst(ts, sorted)
  {
    var age := seq(|slices|, a requires 0 <= a < |slices| => -(Tick(ts, slices[a]) as real));
    var order := SortDescending(age);
    sorted := seq(|order|, a requires 0 <= a < |order| => slices[order[a]]);
    Rearranged(slices, order, sorted);
    forall a, b | 0 <= a <= b < |sorted| ensures Tick(ts, sorted[a]) <= Tick(ts, sorted[b]) {
      assert a < b ==> age[order[a]] >= age[order[b]];
    }
  }

  /** The tensors with some slices dropped. */
  function Without(ts: Tensors, gone: seq<Slice>): (r: Tensors)
    requires AllValid(ts)
    ensures |r| == |ts| && AllValid(r)
    ensures forall i :: 0 <= i < |ts| ==> r[i] == ts[i].(loaded := r[i].loaded)
    ensures forall i, id :: 0 <= i < |ts| && 0 <= id < ts[i].size ==>
      (r[i].loaded[id] <==> ts[i].loaded[id] && Slice(i, id) !in gone)
  {
    seq(|ts|, i requires 0 <= i < |ts| =>
      ts[i].(loaded := seq(ts[i].size, id requires 0 <= id < ts[i].size =>
        ts[i].loaded[id] && Slice(i, id) !in gone)))
  }

  /** The ceiling enforced: the k coldest of all droppable slices are gone, none
      when already under it and never one too many, and what remains is under it
      unless the unmapped bytes alone are over. */
  ghost predicate CappedBy(ts: Tensors, ts': Tensors, sorted: seq<Slice>, k: nat, ceiling: nat) {
    && AllValid(ts) && Enumerates(ts, sorted) && ColdFirst(ts, sorted)
    && k <= |sorted| && ts' == Without(ts, sorted[..k])
    && (ceiling == 0 || LoadedBytes(ts) <= ceiling ==> k == 0)
    && (k > 0 ==> LoadedBytes(ts') + BytesAt(ts, sorted[k - 1]) > ceiling)
    && (ceiling > 0 ==> (LoadedBytes(ts') <= ceiling <==> UnmappedBytes(ts) <= ceiling))
    && (ceiling > 0 ==> LoadedBytes(ts') <= ceiling || k == |sorted|)
  }

  ghost predicate Capped(ts: Tensors, ts': Tensors, ceiling: nat) {
    exists sorted, k :: CappedBy(ts, ts', sorted, k, ceiling)
  }

  lemma CappedShrinks(ts: Tensors, ts': Tensors, sorted: seq<Slice>, k: nat, ceiling: nat)
    requires CappedBy(ts, ts', sorted, k, ceiling)
    ensures |ts'| == |ts| && AllValid(ts')
    ensures forall i :: 0 <= i < |ts| ==> ts'[i] == ts[i].(loaded := ts'[i].loaded)
    ensures forall i, id :: 0 <= i < |ts| && 0 <= id < ts[i].size && ts'[i].loaded[id] ==> ts[i].loaded[id]
  {
  }

  lemma WithoutNone(ts: Tensors)
    requires AllValid(ts)
    ensures Without(ts, []) == ts
  {
    forall i | 0 <= i < |ts| ensures Without(ts, [])[i] == ts[i] {
      assert Without(ts, [])[i].loaded == ts[i].loaded;
    }
  }

  /** Listed once, a slice is still loaded when only those before it are gone. */
  lemma StillDroppable(ts: Tensors, slices: seq<Slice>, r: nat)
    requires AllValid(ts) && Enumerates(ts, slices) && r < |slices|
    ensures Droppable(ts, slices[r]) && Droppable(Without(ts, slices[..r]), slices[r])
  {
    assert slices[r] in slices;
  }

  lemma WithoutOne(ts: Tensors, gone: seq<Slice>, s: Slice)
    requires AllValid(ts) && s.tensor < |ts| && s.id < ts[s.tensor].size
    ensures var r := Without(ts, gone);
      Without(ts, gone + [s]) == r[s.tensor := r[s.tensor].(loaded := r[s.tensor].loaded[s.id := false])]
  {
    var r := Without(ts, gone);
    var r' := Without(ts, gone + [s]);
    forall i | 0 <= i < |ts| ensures r'[i] == r[s.tensor := r[s.tensor].(loaded := r[s.tensor].loaded[s.id := false])][i] {
      assert r'[i].loaded == if i == s.tensor then r[i].loaded[s.id := false] else r[i].loaded;
    }
  }

  /** Once every droppable slice is gone, only unmapped bytes remain. */
  lemma AllGone(ts: Tensors, slices: seq<Slice>)
    requires AllValid(ts) && Enumerates(ts, slices)
    ensures LoadedBytes(Without(ts, slices)) == UnmappedBytes(Without(ts, slices))
  {
    var r := Without(ts, slices);
    forall i, id | 0 <= i < |r| && r[i].mapped && 0 <= id < |r[i].loaded| ensures !r[i].loaded[id] {
      assert Droppable(ts, Slice(i, id)) <==> ts[i].loaded[id];
    }
    UnmappedIsFloor(r);
  }

  /** Enforcement leaves unmapped tensors alone. */
  lemma UnmappedStay(ts: Tensors, slices: seq<Slice>, k: nat)
    requires AllValid(ts) && Enumerates(ts, slices) && k <= |slices|
    ensures UnmappedBytes(Without(ts, slices[..k])) == UnmappedBytes(ts)
  {
    var r := Without(ts, slices[..k]);
    forall i: nat | i < |ts| && !ts[i].mapped ensures r[i].loaded == ts[i].loaded {
      forall id: nat | id < ts[i].size ensures Slice(i, id) !in slices[..k] {
        assert !Droppable(ts, Slice(i, id));
      }
    }
    UnmappedSame(ts, r);
  }

  lemma InPrefix<T>(s: seq<T>, k: nat, b: nat)
    requires k <= |s| && b < |s|
    ensures b < k ==> s[b] in s[..k]
  {
    if b < k {
      assert s[..k][b] == s[b];
    }
  }

  /** No dropped slice was selected later than a surviving one. */
  lemma DropsLeastRecent(ts: Tensors, sorted: seq<Slice>, k: nat, gone: Slice, kept: Slice)
    requires AllValid(ts) && Enumerates(ts, sorted) && ColdFirst(ts, sorted) && k <= |sorted|
    requires gone in sorted[..k] && Droppable(Without(ts, sorted[..k]), kept)
    ensures Tick(ts, gone) <= Tick(ts, kept)
  {
    assert Droppable(ts, kept);
    var a :| 0 <= a < k && sorted[..k][a] == gone;
    var b :| 0 <= b < |sorted| && sorted[b] == kept;
    InPrefix(sorted, k, b);
  }

  /** By the history of selections: no slice that was dropped had been selected later
      than any slice of a mapped tensor that stays, of whichever tensor. */
  ghost predicate DroppedOldest(ts: Tensors, ts': Tensors, history: seq<Slice>) {
    && AllValid(ts) && AllValid(ts') && |ts'| == |ts|
    && forall i: nat, v: nat, j: nat, c: nat ::
         i < |ts| && v < ts[i].size && ts[i].loaded[v] && !(v < ts'[i].size && ts'[i].loaded[v])
         && j < |ts| && ts[j].mapped && c < ts'[j].size && ts'[j].loaded[c] ==>
           LastTouch(history, Slice(i, v)) <= LastTouch(history, Slice(j, c))
  }

  lemma CeilingDropsOldest(ts: Tensors, sorted: seq<Slice>, k: nat, history: seq<Slice>)
    requires AllValid(ts) && Enumerates(ts, sorted) && ColdFirst(ts, sorted) && k <= |sorted| && Clocked(ts, history)
    ensures DroppedOldest(ts, Without(ts, sorted[..k]), history)
  {
    var r := Without(ts, sorted[..k]);
    forall i: nat, v: nat, j: nat, c: nat |
      i < |ts| && v < ts[i].size && ts[i].loaded[v] && !r[i].loaded[v] && j < |ts| && ts[j].mapped && c < ts[j].size
      && r[j].loaded[c]
      ensures LastTouch(history, Slice(i, v)) <= LastTouch(history, Slice(j, c))
    {
      DropsLeastRecent(ts, sorted, k, Slice(i, v), Slice(j, c));
      assert ts[i].lastUsed[v] == LastTouch(history, Slice(i, v)) && ts[j].lastUsed[c] == LastTouch(history, Slice(j, c));
    }
  }

  // ---- when the pins are spared -----------------------------------------------------

  // Slices go from the cold end, pinned or not, so what matters is whether the slices
  // colder than the coldest pin are enough.

  /** A pinned slice the ceiling could drop. */
  predicate PinnedSlice(ts: Tensors, s: Slice) {
    Droppable(ts, s) && s.id < |ts[s.tensor].pinned| && ts[s.tensor].pinned[s.id]
  }

  /** Every pinned slice that was loaded still is. */
  ghost predicate SparesPins(ts: Tensors, ts': Tensors) {
    |ts'| == |ts| && AllValid(ts) && AllValid(ts')
    && forall i, id :: 0 <= i < |ts| && 0 <= id < ts[i].size && ts[i].pinned[id] && ts[i].loaded[id] ==>
         id < ts'[i].size && ts'[i].loaded[id]
  }

  ghost predicate ColdestPin(ts: Tensors, p: Slice) {
    PinnedSlice(ts, p) && forall q :: PinnedSlice(ts, q) ==> Tick(ts, p) <= Tick(ts, q)
  }

  /** The slices colder than a tick and, if `ties`, the unpinned ones of that tick. */
  predicate Colder(ts: Tensors, s: Slice, tick: nat, ties: bool) {
    Droppable(ts, s) && (Tick(ts, s) < tick || (ties && Tick(ts, s) == tick && !PinnedSlice(ts, s)))
  }

  /** The tensors without those slices. */
  function Cut(ts: Tensors, tick: nat, ties: bool): (r: Tensors)
    requires AllValid(ts)
    ensures |r| == |ts| && AllValid(r)
    ensures forall i :: 0 <= i < |ts| ==> r[i] == ts[i].(loaded := r[i].loaded)
    ensures forall i, id :: 0 <= i < |ts| && 0 <= id < ts[i].size ==>
      (r[i].loaded[id] <==> ts[i].loaded[id] && !Colder(ts, Slice(i, id), tick, ties))
  {
    seq(|ts|, i requires 0 <= i < |ts| =>
      ts[i].(loaded := seq(ts[i].size, id requires 0 <= id < ts[i].size =>
        ts[i].loaded[id] && !Colder(ts, Slice(i, id), tick, ties))))
  }

  // ---- bytes along the order -----------------------------------------------------

  /** What is left once the first j slices are gone. */
  function After(ts: Tensors, sorted: seq<Slice>, j: nat): nat
    requires AllValid(ts) && j <= |sorted|
  {
    LoadedBytes(Without(ts, sorted[..j]))
  }

  lemma AfterFalls(ts: Tensors, sorted: seq<Slice>, j: nat, k: nat)
    requires AllValid(ts) && j <= k <= |sorted|
    ensures After(ts, sorted, k) <= After(ts, sorted, j)
  {
    forall s | s in sorted[..j] ensures s in sorted[..k] {
      var a :| 0 <= a < j && sorted[..j][a] == s;
      InPrefix(sorted, k, a);
    }
    FewerBytes(Without(ts, sorted[..j]), Without(ts, sorted[..k]));
  }

  lemma AfterNext(ts: Tensors, sorted: seq<Slice>, j: nat)
    requires AllValid(ts) && Enumerates(ts, sorted) && j < |sorted|
    ensures After(ts, sorted, j + 1) + BytesAt(ts, sorted[j]) == After(ts, sorted, j)
  {
    hide LoadedBytes, Without;
    var s := sorted[j];
    StillDroppable(ts, sorted, j);
    WithoutOne(ts, sorted[..j], s);
    assert sorted[..j + 1] == sorted[..j] + [s];
    SliceMoves(Without(ts, sorted[..j]), s.tensor, s.id, false);
  }

  /** Enforcement stops within the first m slices exactly when dropping those is
      enough, or there are no more. */
  lemma StopsWithin(ts: Tensors, ts': Tensors, sorted: seq<Slice>, k: nat, ceiling: nat, m: nat)
    requires CappedBy(ts, ts', sorted, k, ceiling) && ceiling > 0 && m <= |sorted|
    ensures k <= m <==> After(ts, sorted, m) <= ceiling || m == |sorted|
  {
    hide LoadedBytes, Without, Enumerates, UnmappedBytes, ColdFirst;
    if k <= m {
      AfterFalls(ts, sorted, k, m);
    } else {
      AfterNext(ts, sorted, k - 1);
      AfterFalls(ts, sorted, m, k - 1);
    }
  }

  // ---- the coldest pin --------------------------------------------------------------

  /** Nothing among the first m slices is pinned, and the next one is. */
  ghost predicate FirstPin(ts: Tensors, sorted: seq<Slice>, m: nat) {
    && m < |sorted| && PinnedSlice(ts, sorted[m])
    && forall a :: 0 <= a < m ==> !PinnedSlice(ts, sorted[a])
  }

  lemma FindFirstPin(ts: Tensors, sorted: seq<Slice>, p: Slice) returns (m: nat)
    requires Enumerates(ts, sorted) && PinnedSlice(ts, p)
    ensures FirstPin(ts, sorted, m)
  {
    m := 0;
    var b :| 0 <= b < |sorted| && sorted[b] == p;
    while m < |sorted| && !PinnedSlice(ts, sorted[m])
      invariant m <= b && forall a :: 0 <= a < m ==> !PinnedSlice(ts, sorted[a])
    {
      m := m + 1;
    }
  }

  lemma InFront(ts: Tensors, sorted: seq<Slice>, k: nat)
    requires Enumerates(ts, sorted) && k <= |sorted|
    ensures forall s :: s in sorted[..k] ==> Droppable(ts, s)
    ensures (forall a :: 0 <= a < k ==> !PinnedSlice(ts, sorted[a])) ==> forall s :: s in sorted[..k] ==> !PinnedSlice(ts, s)
  {
    forall s | s in sorted[..k]
      ensures Droppable(ts, s) && exists a :: 0 <= a < k && sorted[a] == s
    {
      var a :| 0 <= a < k && sorted[..k][a] == s;
      assert sorted[a] == s && s in sorted;
    }
  }

  lemma SparedWithout(ts: Tensors, gone: seq<Slice>)
    requires AllValid(ts) && forall s :: s in gone ==> Droppable(ts, s) && !PinnedSlice(ts, s)
    ensures SparesPins(ts, Without(ts, gone))
  {
  }

  /** The pins are spared exactly when enforcement stops before the first of them. */
  lemma SparedBefore(ts: Tensors, ts': Tensors, sorted: seq<Slice>, k: nat, ceiling: nat, m: nat)
    requires CappedBy(ts, ts', sorted, k, ceiling) && FirstPin(ts, sorted, m)
    ensures SparesPins(ts, ts') <==> k <= m
  {
    InFront(ts, sorted, k);
    if k <= m {
      SparedWithout(ts, sorted[..k]);
    } else {
      var s := sorted[m];
      InPrefix(sorted, k, m);
      assert !ts'[s.tensor].loaded[s.id];
    }
  }

  /** The first pin in the order has the tick of the coldest; before it come all
      colder slices and nothing but unpinned slices of that tick besides. */
  lemma BeforeFirstPin(ts: Tensors, sorted: seq<Slice>, m: nat, p: Slice, s: Slice)
    requires AllValid(ts) && Enumerates(ts, sorted) && ColdFirst(ts, sorted) && FirstPin(ts, sorted, m) && ColdestPin(ts, p)
    ensures Tick(ts, sorted[m]) == Tick(ts, p)
    ensures Colder(ts, s, Tick(ts, p), false) ==> s in sorted[..m]
    ensures s in sorted[..m] ==> Colder(ts, s, Tick(ts, p), true)
  {
    var b :| 0 <= b < |sorted| && sorted[b] == p;
    assert m <= b;
    if Colder(ts, s, Tick(ts, p), false) {
      var a :| 0 <= a < |sorted| && sorted[a] == s;
      InPrefix(sorted, m, a);
    }
    if s in sorted[..m] {
      var a :| 0 <= a < m && sorted[..m][a] == s;
      assert sorted[a] == s && s in sorted;
    }
  }

  lemma CutsBound(ts: Tensors, sorted: seq<Slice>, m: nat, p: Slice)
    requires AllValid(ts) && Enumerates(ts, sorted) && ColdFirst(ts, sorted) && FirstPin(ts, sorted, m) && ColdestPin(ts, p)
    ensures var c := Tick(ts, p);
      LoadedBytes(Cut(ts, c, true)) <= After(ts, sorted, m) <= LoadedBytes(Cut(ts, c, false))
  {
    hide Enumerates, ColdFirst, ColdestPin, Cut, Without, Colder, LoadedBytes;
    var c, r := Tick(ts, p), Without(ts, sorted[..m]);
    forall i, id | 0 <= i < |ts| && 0 <= id < ts[i].size
      ensures Cut(ts, c, true)[i].loaded[id] ==> r[i].loaded[id]
      ensures r[i].loaded[id] ==> Cut(ts, c, false)[i].loaded[id]
    {
      BeforeFirstPin(ts, sorted, m, p, Slice(i, id));
    }
    FewerBytes(r, Cut(ts, c, true));
    FewerBytes(Cut(ts, c, false), r);
  }

  /** Nonzero ticks belong to one slice each. */
  ghost predicate TicksDistinct(ts: Tensors) {
    forall a, b :: Droppable(ts, a) && Droppable(ts, b) && Tick(ts, a) == Tick(ts, b) > 0 ==> a == b
  }

  lemma ClockedDistinct(ts: Tensors, history: seq<Slice>)
    requires AllValid(ts) && Clocked(ts, history)
    ensures TicksDistinct(ts)
  {
    forall a, b | Droppable(ts, a) && Droppable(ts, b) && Tick(ts, a) == Tick(ts, b) > 0 ensures a == b {
      assert Tick(ts, a) == LastTouch(history, a) && Tick(ts, b) == LastTouch(history, b);
    }
  }

  lemma NoTies(ts: Tensors, p: Slice)
    requires AllValid(ts) && TicksDistinct(ts) && PinnedSlice(ts, p) && Tick(ts, p) > 0
    ensures Cut(ts, Tick(ts, p), true) == Cut(ts, Tick(ts, p), false)
  {
    var c := Tick(ts, p);
    forall s ensures Colder(ts, s, c, true) == Colder(ts, s, c, false) {
      if Droppable(ts, s) && Tick(ts, s) == c {
        assert s == p;
      }
    }
    forall i | 0 <= i < |ts| ensures Cut(ts, c, true)[i] == Cut(ts, c, false)[i] {
      assert Cut(ts, c, true)[i].loaded == Cut(ts, c, false)[i].loaded;
    }
  }

  lemma SomeColdest(ts: Tensors, sorted: seq<Slice>, q: Slice)
    requires AllValid(ts) && Enumerates(ts, sorted) && ColdFirst(ts, sorted) && PinnedSlice(ts, q)
    ensures exists p :: ColdestPin(ts, p)
  {
    var m := FindFirstPin(ts, sorted, q);
    forall s | PinnedSlice(ts, s) ensures Tick(ts, sorted[m]) <= Tick(ts, s) {
      var b :| 0 <= b < |sorted| && sorted[b] == s;
      assert m <= b;
    }
    assert ColdestPin(ts, sorted[m]);
  }

  /** Exactly when an enforcement spares every pin. Without a ceiling or a loaded pin
      it does. Otherwise it does if dropping the slices colder than the coldest pin
      is enough, and only if dropping the unpinned slices of that tick as well is.
      A pin that was ever selected shares its tick with no slice, so that the two
      agree; only among never selected slices does the sort decide. */
  ghost predicate SparesExactly(ts: Tensors, ts': Tensors, ceiling: nat)
    requires AllValid(ts)
  {
    && (ceiling == 0 || (forall s :: !PinnedSlice(ts, s)) ==> SparesPins(ts, ts'))
    && ((exists s :: PinnedSlice(ts, s)) ==> exists p :: ColdestPin(ts, p))
    && (ceiling > 0 ==> forall p :: ColdestPin(ts, p) ==>
          && (LoadedBytes(Cut(ts, Tick(ts, p), false)) <= ceiling ==> SparesPins(ts, ts'))
          && (SparesPins(ts, ts') ==> LoadedBytes(Cut(ts, Tick(ts, p), true)) <= ceiling)
          && (Tick(ts, p) > 0 ==> (SparesPins(ts, ts') <==> LoadedBytes(Cut(ts, Tick(ts, p), false)) <= ceiling)))
  }

  lemma NoPinSpared(ts: Tensors, ts': Tensors, sorted: seq<Slice>, k: nat, ceiling: nat)
    requires CappedBy(ts, ts', sorted, k, ceiling) && forall s :: !PinnedSlice(ts, s)
    ensures SparesPins(ts, ts')
  {
    InFront(ts, sorted, k);
    SparedWithout(ts, sorted[..k]);
  }

  lemma PinDecides(ts: Tensors, ts': Tensors, sorted: seq<Slice>, k: nat, ceiling: nat, p: Slice)
    requires CappedBy(ts, ts', sorted, k, ceiling) && ceiling > 0 && ColdestPin(ts, p)
    ensures LoadedBytes(Cut(ts, Tick(ts, p), false)) <= ceiling ==> SparesPins(ts, ts')
    ensures SparesPins(ts, ts') ==> LoadedBytes(Cut(ts, Tick(ts, p), true)) <= ceiling
  {
    hide LoadedBytes, Cut, UnmappedBytes, Without, SparesPins, Colder;
    var m := FindFirstPin(ts, sorted, p);
    SparedBefore(ts, ts', sorted, k, ceiling, m);
    StopsWithin(ts, ts', sorted, k, ceiling, m);
    CutsBound(ts, sorted, m, p);
  }

  lemma NothingDropped(ts: Tensors, ts': Tensors, sorted: seq<Slice>, k: nat)
    requires CappedBy(ts, ts', sorted, k, 0)
    ensures SparesPins(ts, ts')
  {
    assert sorted[..0] == [];
    WithoutNone(ts);
  }

  lemma CeilingSparesExactly(ts: Tensors, ts': Tensors, sorted: seq<Slice>, k: nat, ceiling: nat)
    requires CappedBy(ts, ts', sorted, k, ceiling) && TicksDistinct(ts)
    ensures SparesExactly(ts, ts', ceiling)
  {
    hide LoadedBytes, Cut, UnmappedBytes, SparesPins, Without, Enumerates, ColdFirst, PinnedSlice, TicksDistinct, BytesAt;
    if ceiling == 0 {
      NothingDropped(ts, ts', sorted, k);
    } else if forall s :: !PinnedSlice(ts, s) {
      NoPinSpared(ts, ts', sorted, k, ceiling);
    }
    if q :| PinnedSlice(ts, q) {
      SomeColdest(ts, sorted, q);
    }
    if ceiling > 0 {
      forall p | ColdestPin(ts, p)
        ensures LoadedBytes(Cut(ts, Tick(ts, p), false)) <= ceiling ==> SparesPins(ts, ts')
        ensures SparesPins(ts, ts') ==> LoadedBytes(Cut(ts, Tick(ts, p), true)) <= ceiling
        ensures Tick(ts, p) > 0 ==> Cut(ts, Tick(ts, p), true) == Cut(ts, Tick(ts, p), false)
      {
        PinDecides(ts, ts', sorted, k, ceiling, p);
        if Tick(ts, p) > 0 {
          NoTies(ts, p);
        }
      }
    }
  }

  /** When the ceiling is out of reach, nothing that could be dropped is left. */
  lemma OutOfReachDropsAll(ts: Tensors, ts': Tensors, sorted: seq<Slice>, k: nat, ceiling: nat, s: Slice)
    requires CappedBy(ts, ts', sorted, k, ceiling) && ceiling > 0 && UnmappedBytes(ts) > ceiling
    ensures !Droppable(ts', s)
  {
    hide LoadedBytes, UnmappedBytes;
    assert k == |sorted|;
    if Droppable(ts, s) {
      var b :| 0 <= b < |sorted| && sorted[b] == s;
      InPrefix(sorted, k, b);
    }
  }

  // ---- never selected slices --------------------------------------------------------

  ghost predicate TiesOrdered(ts: Tensors, r: seq<Slice>, pinsFirst: bool) {
    forall a, b ::
      0 <= a < b < |r| && Tick(ts, r[a]) == Tick(ts, r[b]) && PinnedSlice(ts, r[a]) != PinnedSlice(ts, r[b]) ==>
        PinnedSlice(ts, r[a]) == pinsFirst
  }

  lemma Shuffled(ts: Tensors, sorted: seq<Slice>, order: seq<nat>, r: seq<Slice>)
    requires Enumerates(ts, sorted) && IsPermutation(order, |sorted|) && |r| == |sorted|
    requires forall a :: 0 <= a < |sorted| ==> r[a] == sorted[order[a]]
    ensures Enumerates(ts, r)
  {
    Rearranged(sorted, order, r);
  }

  /** Any order of the same slices from the cold end, with the pins of a tick put
      first or last among its slices. */
  lemma TieOrder(ts: Tensors, sorted: seq<Slice>, pinsFirst: bool) returns (r: seq<Slice>)
    requires Enumerates(ts, sorted)
    ensures Enumerates(ts, r) && ColdFirst(ts, r)
    ensures TiesOrdered(ts, r, pinsFirst)
  {
    hide Enumerates, PinnedSlice, Tick;
    var n := |sorted|;
    var key := seq(n, a requires 0 <= a < n =>
      -((2 * Tick(ts, sorted[a]) + (if PinnedSlice(ts, sorted[a]) == pinsFirst then 0 else 1)) as real));
    var order := Rank(key);
    r := seq(n, a requires 0 <= a < n => sorted[order[a]]);
    Shuffled(ts, sorted, order, r);
    forall a, b | 0 <= a < b < n
      ensures Tick(ts, r[a]) <= Tick(ts, r[b])
      ensures Tick(ts, r[a]) == Tick(ts, r[b]) && PinnedSlice(ts, r[a]) != PinnedSlice(ts, r[b]) ==> PinnedSlice(ts, r[a]) == pinsFirst
    {
      assert key[order[a]] >= key[order[b]];
    }
  }

  lemma TiedSlice(ts: Tensors, r: seq<Slice>, m: nat, p: Slice, pinsFirst: bool, s: Slice)
    requires AllValid(ts) && Enumerates(ts, r) && ColdFirst(ts, r) && FirstPin(ts, r, m) && ColdestPin(ts, p)
    requires TiesOrdered(ts, r, pinsFirst)
    ensures Droppable(ts, s) && Tick(ts, s) == Tick(ts, p) && !PinnedSlice(ts, s) ==> (s in r[..m] <==> !pinsFirst)
  {
    BeforeFirstPin(ts, r, m, p, s);
    if Droppable(ts, s) && Tick(ts, s) == Tick(ts, p) && !PinnedSlice(ts, s) {
      var a :| 0 <= a < |r| && r[a] == s;
      InPrefix(r, m, a);
      if s in r[..m] {
        var b :| 0 <= b < m && r[..m][b] == s;
        assert r[b] == s;
      }
    }
  }

  /** In such an order the slices before the first pin are one of the two cuts. */
  lemma TieCut(ts: Tensors, r: seq<Slice>, m: nat, p: Slice, pinsFirst: bool)
    requires AllValid(ts) && Enumerates(ts, r) && ColdFirst(ts, r) && FirstPin(ts, r, m) && ColdestPin(ts, p)
    requires TiesOrdered(ts, r, pinsFirst)
    ensures Without(ts, r[..m]) == Cut(ts, Tick(ts, p), !pinsFirst)
  {
    var c := Tick(ts, p);
    var w, x := Without(ts, r[..m]), Cut(ts, c, !pinsFirst);
    forall i, id | 0 <= i < |ts| && 0 <= id < ts[i].size ensures w[i].loaded[id] == x[i].loaded[id] {
      BeforeFirstPin(ts, r, m, p, Slice(i, id));
      TiedSlice(ts, r, m, p, pinsFirst, Slice(i, id));
    }
    forall i | 0 <= i < |ts| ensures w[i] == x[i] {
      assert w[i].loaded == x[i].loaded;
    }
  }

  /** Along any order there is a place where enforcement stops. */
  lemma StopExists(ts: Tensors, sorted: seq<Slice>, ceiling: nat) returns (k: nat)
    requires AllValid(ts) && Enumerates(ts, sorted) && ColdFirst(ts, sorted) && ceiling > 0
    ensures k <= |sorted| && CappedBy(ts, Without(ts, sorted[..k]), sorted, k, ceiling)
  {
    hide LoadedBytes, Without, UnmappedBytes, Enumerates, ColdFirst;
    k := 0;
    assert sorted[..0] == [];
    WithoutNone(ts);
    while k < |sorted| && After(ts, sorted, k) > ceiling
      invariant k <= |sorted| && (LoadedBytes(ts) <= ceiling ==> k == 0)
      invariant k > 0 ==> After(ts, sorted, k) + BytesAt(ts, sorted[k - 1]) > ceiling
    {
      AfterNext(ts, sorted, k);
      k := k + 1;
    }
    UnmappedStay(ts, sorted, k);
    UnmappedIsFloor(Without(ts, sorted[..k]));
    if k == |sorted| {
      assert sorted[..k] == sorted;
      AllGone(ts, sorted);
    }
  }

  /** Every enforcement that could take place, whatever the order of ties. */
  ghost predicate AlwaysSpares(ts: Tensors, ceiling: nat) {
    forall ts', sorted, k :: CappedBy(ts, ts', sorted, k, ceiling) ==> SparesPins(ts, ts')
  }

  ghost predicate CanSpare(ts: Tensors, ceiling: nat) {
    exists ts', sorted, k :: CappedBy(ts, ts', sorted, k, ceiling) && SparesPins(ts, ts')
  }

  lemma InOrder(ts: Tensors, sorted: seq<Slice>, ceiling: nat, p: Slice, pinsFirst: bool)
    returns (ts': Tensors, r: seq<Slice>, k: nat)
    requires AllValid(ts) && Enumerates(ts, sorted) && ColdestPin(ts, p) && ceiling > 0
    ensures CappedBy(ts, ts', r, k, ceiling)
    ensures SparesPins(ts, ts') <==> LoadedBytes(Cut(ts, Tick(ts, p), !pinsFirst)) <= ceiling
  {
    hide LoadedBytes, Without, Cut, Enumerates, ColdFirst, UnmappedBytes, SparesPins;
    r := TieOrder(ts, sorted, pinsFirst);
    k := StopExists(ts, r, ceiling);
    ts' := Without(ts, r[..k]);
    var m := FindFirstPin(ts, r, p);
    TieCut(ts, r, m, p, pinsFirst);
    SparedBefore(ts, ts', r, k, ceiling, m);
    StopsWithin(ts, ts', r, k, ceiling, m);
  }

  /** The two cuts are tight: one decides whether every order of ties spares the
      pins, the other whether some order does. */
  lemma TiesDecide(ts: Tensors, sorted: seq<Slice>, ceiling: nat, p: Slice)
    requires AllValid(ts) && Enumerates(ts, sorted) && ColdestPin(ts, p) && ceiling > 0
    ensures AlwaysSpares(ts, ceiling) <==> LoadedBytes(Cut(ts, Tick(ts, p), false)) <= ceiling
    ensures CanSpare(ts, ceiling) <==> LoadedBytes(Cut(ts, Tick(ts, p), true)) <= ceiling
  {
    hide LoadedBytes, Cut, CappedBy, SparesPins, ColdestPin, Enumerates;
    var ts1, r1, k1 := InOrder(ts, sorted, ceiling, p, true);
    var ts2, r2, k2 := InOrder(ts, sorted, ceiling, p, false);
    forall ts', r, k | CappedBy(ts, ts', r, k, ceiling)
      ensures LoadedBytes(Cut(ts, Tick(ts, p), false)) <= ceiling ==> SparesPins(ts, ts')
      ensures SparesPins(ts, ts') ==> LoadedBytes(Cut(ts, Tick(ts, p), true)) <= ceiling
    {
      PinDecides(ts, ts', r, k, ceiling, p);
    }
  }
}
