/** The per-tensor state of the expert cache and the totals kept over it. */
module Experts {
  const HIT_DECAY := 0.95     // kHitDecay_
  const HOT_PROTECT := 1.0    // kHotProtect_

  /** A fused expert tensor. `size` is num_experts; `trans` is row-major. */
  datatype ExpertTensor = ExpertTensor(
    name: string,
    layer: int,
    size: nat,
    sliceBytes: nat,        // per_expert_bytes
    mapped: bool,           // mmap_base != nullptr
    loaded: seq<bool>,
    totalHits: seq<nat>,
    windowHits: seq<real>,
    pinned: seq<bool>,
    lastUsed: seq<nat>,
    trans: seq<nat>,
    budget: int)
  {
    ghost predicate Valid() {
      && size >= 2 && sliceBytes >= 1
      && |loaded| == |totalHits| == |windowHits| == |pinned| == |lastUsed| == size
      && |trans| == size * size
    }
  }

  type Tensors = seq<ExpertTensor>

  ghost predicate AllValid(ts: Tensors) {
    forall i :: 0 <= i < |ts| ==> ts[i].Valid()
  }

  /** True bits of a flag vector. */
  function Ones(b: seq<bool>): (c: nat)
    ensures c <= |b|
  {
    if b == [] then 0 else Ones(b[..|b| - 1]) + (if b[|b| - 1] then 1 else 0)
  }

  lemma {:induction false} OnesUpdate(b: seq<bool>, i: nat, v: bool)
    requires i < |b|
    ensures Ones(b[i := v]) == Ones(b) - (if b[i] then 1 else 0) + (if v then 1 else 0)
  {
    var n := |b| - 1;
    if i < n {
      assert b[i := v][..n] == b[..n][i := v];
      OnesUpdate(b[..n], i, v);
    } else {
      assert b[i := v][..n] == b[..n];
    }
  }

  function TensorBytes(t: ExpertTensor): nat { t.sliceBytes * Ones(t.loaded) }

  /** What expert_resident_bytes_ stands for. */
  function LoadedBytes(ts: Tensors): nat {
    if ts == [] then 0 else LoadedBytes(ts[..|ts| - 1]) + TensorBytes(ts[|ts| - 1])
  }

  lemma {:induction false} BytesUpdate(ts: Tensors, i: nat, t: ExpertTensor)
    requires i < |ts|
    ensures LoadedBytes(ts[i := t]) == LoadedBytes(ts) - TensorBytes(ts[i]) + TensorBytes(t)
    ensures LoadedBytes(ts) >= TensorBytes(ts[i])
    decreases |ts|
  {
    var n := |ts| - 1;
    if i < n {
      assert ts[i := t][..n] == ts[..n][i := t];
      BytesUpdate(ts[..n], i, t);
    } else {
      assert ts[i := t][..n] == ts[..n];
    }
  }

  lemma Distribute(a: nat, c: nat)
    ensures a * (c + 1) == a * c + a && a * c >= 0
  {
  }

  lemma {:induction false} SomeOne(b: seq<bool>, i: nat)
    requires i < |b| && b[i]
    ensures Ones(b) >= 1
  {
    OnesUpdate(b, i, false);
  }

  lemma TensorMoves(t: ExpertTensor, id: nat, v: bool)
    requires id < |t.loaded| && t.loaded[id] != v
    ensures var b := TensorBytes(t.(loaded := t.loaded[id := v]));
      b == if v then TensorBytes(t) + t.sliceBytes else TensorBytes(t) - t.sliceBytes
    ensures !v ==> TensorBytes(t) >= t.sliceBytes
  {
    OnesUpdate(t.loaded, id, v);
    if v {
      Distribute(t.sliceBytes, Ones(t.loaded));
    } else {
      SomeOne(t.loaded, id);
      Distribute(t.sliceBytes, Ones(t.loaded) - 1);
    }
  }

  /** Loading or dropping one slice moves the ledger by exactly that slice, and
      there is always that much in it to drop. */
  lemma SliceMoves(ts: Tensors, i: nat, id: nat, v: bool)
    requires i < |ts| && id < |ts[i].loaded| && ts[i].loaded[id] != v
    ensures var t' := ts[i].(loaded := ts[i].loaded[id := v]);
      LoadedBytes(ts[i := t']) == if v then LoadedBytes(ts) + ts[i].sliceBytes else LoadedBytes(ts) - ts[i].sliceBytes
    ensures !v ==> LoadedBytes(ts) >= ts[i].sliceBytes
  {
    hide LoadedBytes, TensorBytes;
    BytesUpdate(ts, i, ts[i].(loaded := ts[i].loaded[id := v]));
    TensorMoves(ts[i], id, v);
  }

  /** A change that leaves `loaded` alone leaves the ledger alone. */
  lemma BytesSame(ts: Tensors, i: nat, t: ExpertTensor)
    requires i < |ts| && t.sliceBytes == ts[i].sliceBytes && t.loaded == ts[i].loaded
    ensures LoadedBytes(ts[i := t]) == LoadedBytes(ts)
  {
    BytesUpdate(ts, i, t);
  }

  lemma {:induction false} OnesMonotone(a: seq<bool>, b: seq<bool>)
    requires |a| == |b| && forall i :: 0 <= i < |a| && a[i] ==> b[i]
    ensures Ones(a) <= Ones(b)
  {
    if a == [] {
    } else {
      OnesMonotone(a[..|a| - 1], b[..|b| - 1]);
    }
  }

  lemma MoreSlices(bytes: nat, a: nat, b: nat)
    requires a <= b
    ensures bytes * a <= bytes * b
  {
  }

  /** Fewer slices, fewer bytes. */
  lemma {:induction false} FewerBytes(ts: Tensors, ts': Tensors)
    requires |ts'| == |ts|
    requires forall i :: 0 <= i < |ts| ==> ts'[i].sliceBytes == ts[i].sliceBytes && |ts'[i].loaded| == |ts[i].loaded|
    requires forall i, id :: 0 <= i < |ts| && 0 <= id < |ts[i].loaded| && ts'[i].loaded[id] ==> ts[i].loaded[id]
    ensures LoadedBytes(ts') <= LoadedBytes(ts)
    decreases |ts|
  {
    if ts == [] {
    } else {
      var n := |ts| - 1;
      assert forall i :: 0 <= i < n ==> ts[..n][i] == ts[i] && ts'[..n][i] == ts'[i];
      FewerBytes(ts[..n], ts'[..n]);
      OnesMonotone(ts'[n].loaded, ts[n].loaded);
      MoreSlices(ts[n].sliceBytes, Ones(ts'[n].loaded), Ones(ts[n].loaded));
    }
  }

  function PinCount(ts: Tensors): nat {
    if ts == [] then 0 else PinCount(ts[..|ts| - 1]) + Ones(ts[|ts| - 1].pinned)
  }

  lemma {:induction false} PinUpdate(ts: Tensors, i: nat, t: ExpertTensor)
    requires i < |ts|
    ensures PinCount(ts[i := t]) == PinCount(ts) - Ones(ts[i].pinned) + Ones(t.pinned)
    decreases |ts|
  {
    var n := |ts| - 1;
    if i < n {
      assert ts[i := t][..n] == ts[..n][i := t];
      PinUpdate(ts[..n], i, t);
    } else {
      assert ts[i := t][..n] == ts[..n];
    }
  }

  // ---- the recency clock -----------------------------------------------------

  /** A slice: a tensor by its position, and an expert. */
  datatype Slice = Slice(tensor: nat, id: nat)

  /** The tick of the last selection of s in a history of selections; 0 if none. */
  function LastTouch(history: seq<Slice>, s: Slice): (tick: nat)
    ensures tick <= |history|
    ensures tick > 0 ==> history[tick - 1] == s
  {
    if history == [] then 0
    else if history[|history| - 1] == s then |history|
    else LastTouch(history[..|history| - 1], s)
  }

  /** last_used of every slice is the tick of its last selection. */
  ghost predicate Clocked(ts: Tensors, history: seq<Slice>) {
    forall i, id :: 0 <= i < |ts| && 0 <= id < |ts[i].lastUsed| ==> ts[i].lastUsed[id] == LastTouch(history, Slice(i, id))
  }

  /** It really is the last one. */
  lemma {:induction false} LastTouchIsLast(history: seq<Slice>, s: Slice, k: nat)
    requires k < |history| && history[k] == s
    ensures k + 1 <= LastTouch(history, s)
  {
    if history[|history| - 1] == s {
    } else {
      LastTouchIsLast(history[..|history| - 1], s, k);
    }
  }

  /** Ticks are bounded by the clock, distinct for distinct slices, and ordered as
      the slices' last selections were. */
  lemma TicksFollowSelections(ts: Tensors, history: seq<Slice>, a: Slice, b: Slice)
    requires Clocked(ts, history) && a != b
    requires a.tensor < |ts| && a.id < |ts[a.tensor].lastUsed| && b.tensor < |ts| && b.id < |ts[b.tensor].lastUsed|
    ensures var ta, tb := ts[a.tensor].lastUsed[a.id], ts[b.tensor].lastUsed[b.id];
      && ta <= |history|
      && (ta > 0 ==> ta != tb)
      && (ta < tb <==> exists k {:trigger history[k]} ::
            0 <= k < |history| && history[k] == b && forall j :: k <= j < |history| ==> history[j] != a)
  {
    var ta, tb := LastTouch(history, a), LastTouch(history, b);
    if ta < tb {
      assert history[tb - 1] == b;
      forall j | tb - 1 <= j < |history| ensures history[j] != a {
        if history[j] == a {
          LastTouchIsLast(history, a, j);
        }
      }
    } else {
      forall k | 0 <= k < |history| && history[k] == b ensures exists j :: k <= j < |history| && history[j] == a {
        LastTouchIsLast(history, b, k);
        assert history[ta - 1] == a;
      }
    }
  }

  // ---- hotness ---------------------------------------------------------------

  /** window_hits after k runtime hits. */
  function Hotness(k: nat): real {
    if k == 0 then 0.0 else Hotness(k - 1) * HIT_DECAY + 1.0
  }

  function Power(k: nat): real { if k == 0 then 1.0 else Power(k - 1) * HIT_DECAY }

  lemma {:induction false} PowerFalls(k: nat)
    ensures 0.0 < Power(k) <= 1.0
    ensures k > 0 ==> Power(k) < Power(k - 1)
  {
    if k == 0 {
    } else {
      PowerFalls(k - 1);
    }
  }

  /** The closed form of the decayed count. */
  lemma {:induction false} HotnessClosedForm(k: nat)
    ensures Hotness(k) == 20.0 * (1.0 - Power(k))
    ensures Hotness(k) < 20.0
  {
    if k == 0 {
    } else {
      HotnessClosedForm(k - 1);
    }
    PowerFalls(k);
  }

  lemma {:induction false} PowerGap(a: nat, b: nat)
    requires a < b
    ensures Power(b) < Power(a)
  {
    PowerFalls(b);
    if a == b - 1 {
    } else {
      PowerGap(a, b - 1);
    }
  }

  /** Ranking by window_hits is ranking by runtime hits. */
  lemma {:induction false} HotnessOrder(a: nat, b: nat)
    ensures Hotness(a) < Hotness(b) <==> a < b
    decreases a + b
  {
    HotnessClosedForm(a);
    HotnessClosedForm(b);
    if a < b {
      PowerGap(a, b);
    } else if b < a {
      PowerGap(b, a);
    }
  }

  /** Eviction's hot protection covers exactly the experts hit at least twice. */
  lemma HotMeansTwice(k: nat)
    ensures Hotness(k) > HOT_PROTECT <==> k >= 2
    ensures Hotness(k) > 0.0 <==> k >= 1
  {
    HotnessOrder(1, k);
    HotnessOrder(0, k);
    assert Hotness(1) == 1.0 by {
      assert Hotness(0) == 0.0;
    }
  }
}
