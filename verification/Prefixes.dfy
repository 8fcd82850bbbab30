/** Choosing the resident prefix by real layer bytes, and splitting a hybrid
    model's budget between the pager and the experts. */
module Prefixes {
  import opened PagerModel

  function BytesOf(ts: seq<StreamTensor>): (b: nat)
  {
    if ts == [] then 0 else BytesOf(ts[..|ts| - 1]) + ts[|ts| - 1].byteSize
  }

  function LayerBytes(layers: map<int, seq<StreamTensor>>, k: int): nat {
    if k in layers then BytesOf(layers[k]) else 0
  }

  /** Bytes of layers [0, m). */
  function PrefixBytes(layers: map<int, seq<StreamTensor>>, m: nat): nat {
    if m == 0 then 0 else PrefixBytes(layers, m - 1) + LayerBytes(layers, m - 1)
  }

  lemma {:induction false} PrefixMonotone(layers: map<int, seq<StreamTensor>>, a: nat, b: nat)
    requires a <= b
    ensures PrefixBytes(layers, a) <= PrefixBytes(layers, b)
    decreases b
  {
    if a >= b {
    } else {
      PrefixMonotone(layers, a, b - 1);
    }
  }

  /** w is the largest prefix of at least one layer that fits the budget; no
      budget means every layer. */
  ghost predicate LargestFit(layers: map<int, seq<StreamTensor>>, n: nat, budget: nat, w: nat) {
    && 1 <= w <= n
    && (budget == 0 ==> w == n)
    && (budget > 0 && w > 1 ==> PrefixBytes(layers, w) <= budget)
    && (forall v {:trigger PrefixBytes(layers, v)} :: w < v <= n ==> PrefixBytes(layers, v) > budget)
  }

  method SumBytes(ts: seq<StreamTensor>) returns (b: nat)
    ensures b == BytesOf(ts)
  {
    b := 0;
    for i := 0 to |ts|
      invariant b == BytesOf(ts[..i])
    {
      assert ts[..i + 1][..i] == ts[..i];
      b := b + ts[i].byteSize;
    }
    assert ts[..|ts|] == ts;
  }

  /** The walk of fill_resident_layers. */
  method ResidentPrefix(layers: map<int, seq<StreamTensor>>, n: nat, budget: nat) returns (w: nat)
    requires n >= 1
    ensures LargestFit(layers, n, budget, w)
  {
    var used := 0;
    var count: int := 0;
    for l := 0 to n
      invariant count == l && used == PrefixBytes(layers, l)
      invariant budget > 0 && count > 1 ==> used <= budget
    {
      var layerBytes := 0;
      if l in layers {
        layerBytes := SumBytes(layers[l]);
      }
      if budget > 0 && count > 0 && used + layerBytes > budget {
        forall v | count < v <= n ensures PrefixBytes(layers, v) > budget {
          PrefixMonotone(layers, l + 1, v);
        }
        break;
      }
      used := used + layerBytes;
      count := count + 1;
    }
    if count < 1 {
      count := 1;   // the first forward pass needs layer 0
    }
    if count > n {
      count := n;
    }
    w := count;
  }

  /** Two prefixes that are both largest are the same prefix. */
  lemma LargestFitUnique(layers: map<int, seq<StreamTensor>>, n: nat, budget: nat, w: nat, w': nat)
    requires LargestFit(layers, n, budget, w) && LargestFit(layers, n, budget, w')
    ensures w == w'
  {
    assert PrefixBytes(layers, w) >= 0 && PrefixBytes(layers, w') >= 0;
  }

  /** alloc_slab for every tensor that lacks one; `failed` are the mappings the
      kernel refuses. */
  function WithSlabs(layers: map<int, seq<StreamTensor>>, failed: set<SlabId>): (r: map<int, seq<StreamTensor>>)
    ensures r.Keys == layers.Keys
    ensures forall k :: k in layers ==> |r[k]| == |layers[k]|
  {
    map k | k in layers ::
      seq(|layers[k]|, i requires 0 <= i < |layers[k]| =>
        var t := layers[k][i];
        if t.slab || t.byteSize == 0 then t else t.(slab := SlabId(k, i) !in failed))
  }

  /** Allocation gives a slab to every tensor with bytes whose mapping is not refused,
      takes none away, and changes nothing else. */
  lemma SlabsAllocated(layers: map<int, seq<StreamTensor>>, failed: set<SlabId>, k: int, i: nat)
    requires k in layers && i < |layers[k]|
    ensures var t, t' := layers[k][i], WithSlabs(layers, failed)[k][i];
      && t' == StreamTensor(t.name, t.byteSize, t'.slab, t.mapped)
      && (t'.slab <==> t.slab || (t.byteSize > 0 && SlabId(k, i) !in failed))
  {
  }

  lemma {:induction false} SameBytes(a: seq<StreamTensor>, b: seq<StreamTensor>)
    requires |a| == |b| && forall i :: 0 <= i < |a| ==> a[i].byteSize == b[i].byteSize
    ensures BytesOf(a) == BytesOf(b)
    decreases |a|
  {
    if a == [] {
    } else {
      SameBytes(a[..|a| - 1], b[..|b| - 1]);
    }
  }

  lemma {:induction false} SlabsKeepBytes(layers: map<int, seq<StreamTensor>>, failed: set<SlabId>, m: nat)
    ensures PrefixBytes(WithSlabs(layers, failed), m) == PrefixBytes(layers, m)
  {
    if m == 0 {
    } else {
      SlabsKeepBytes(layers, failed, m - 1);
      if m - 1 in layers {
        SameBytes(WithSlabs(layers, failed)[m - 1], layers[m - 1]);
      }
    }
  }

  datatype Budgets = Budgets(pager: nat, experts: nat)

  /** The split of fill_resident_layers: only a hybrid model with a budget gives
      the experts a ceiling. */
  function Split(budget: nat, hybrid: bool): Budgets {
    if hybrid && budget > 0 then Budgets(budget - budget / 2, budget / 2) else Budgets(budget, 0)
  }

  /** An even split, the odd byte to the pager; otherwise the pager has it all and the
      experts have no ceiling. */
  lemma SplitExact(budget: nat, hybrid: bool)
    ensures var s := Split(budget, hybrid);
      && s.pager + s.experts == budget
      && (hybrid ==> s.experts <= s.pager <= s.experts + 1)
      && (!hybrid ==> s.experts == 0)
  {
  }

  /** The halves add up to the configured budget, so once layer 0 fits its half
      the prefix and any expert residency under the ceiling fit together. */
  lemma HybridWithinBudget(layers: map<int, seq<StreamTensor>>, n: nat, budget: nat, w: nat, expertBytes: nat)
    requires budget > 0 && LargestFit(layers, n, Split(budget, true).pager, w)
    requires LayerBytes(layers, 0) <= Split(budget, true).pager
    requires expertBytes <= Split(budget, true).experts
    ensures Split(budget, true).pager + Split(budget, true).experts == budget
    ensures PrefixBytes(layers, w) + expertBytes <= budget
  {
    if w == 1 {
      assert PrefixBytes(layers, 1) == PrefixBytes(layers, 0) + LayerBytes(layers, 0);
    }
  }

  /** Private slabs survive only when the model fits the budget, and then a model
      without experts keeps every layer: its streamed tail is empty. */
  lemma SlabsLeaveNoTail(layers: map<int, seq<StreamTensor>>, n: nat, budget: nat, w: nat)
    requires LargestFit(layers, n, Split(budget, false).pager, w)
    requires budget == 0 || PrefixBytes(layers, n) <= budget
    ensures w == n
  {
  }
}
