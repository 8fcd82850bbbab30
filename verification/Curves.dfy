/** tomoe_probe: strided energy buckets and the oracle and global capture curves. */
module Curves {
  import opened Ranking

  function Sum(w: seq<real>, n: nat): real
    requires n <= |w|
  {
    if n == 0 then 0.0 else Sum(w, n - 1) + w[n - 1]
  }

  function Squares(row: seq<real>): (s: seq<real>)
    ensures |s| == |row| && NonNegative(s)
  {
    seq(|row|, i requires 0 <= i < |row| => row[i] * row[i])
  }

  /** Energy of the pathways among the first n that fall in bucket e. */
  function Bucket(sq: seq<real>, count: nat, e: nat, n: nat): real
    requires count > 0 && n <= |sq|
  {
    if n == 0 then 0.0 else Bucket(sq, count, e, n - 1) + (if (n - 1) % count == e then sq[n - 1] else 0.0)
  }

  function Energies(row: seq<real>, count: nat): (es: seq<real>)
    requires count > 0
    ensures |es| == count
  {
    seq(count, e requires 0 <= e < count => Bucket(Squares(row), count, e, |row|))
  }

  lemma NoMultiple(d: int, q: int, count: nat)
    requires count > 0 && d == q * count
    ensures !(0 < d < count)
  {
    if q >= 1 {
      assert q * count >= count;
    } else {
      assert q * count <= 0;
    }
  }

  lemma NextResidue(i: nat, j: nat, count: nat)
    requires count > 0 && i < j < i + count
    ensures j % count != i % count
  {
    if j % count == i % count {
      assert j - i == (j / count - i / count) * count;
      NoMultiple(j - i, j / count - i / count, count);
    }
  }

  /** Between two stops of the stride no pathway belongs to the bucket. */
  lemma {:induction false} StrideGap(sq: seq<real>, count: nat, e: nat, i: nat, n: nat)
    requires count > 0 && e < count && i % count == e && i < n <= |sq| && n <= i + count
    ensures Bucket(sq, count, e, n) == Bucket(sq, count, e, i) + sq[i]
    decreases n
  {
    if n <= i + 1 {
    } else {
      StrideGap(sq, count, e, i, n - 1);
      NextResidue(i, n - 1, count);
    }
  }

  lemma {:induction false} BeforeStride(sq: seq<real>, count: nat, e: nat, n: nat)
    requires count > 0 && e < count && n <= e && n <= |sq|
    ensures Bucket(sq, count, e, n) == 0.0
  {
    if n == 0 {
    } else {
      BeforeStride(sq, count, e, n - 1);
    }
  }

  function Capped(i: nat, n: nat): nat { if i < n then i else n }

  lemma Residue(q: nat, r: nat, count: nat)
    requires r < count
    ensures (q * count + r) % count == r
  {
    var x := q * count + r;
    assert x == (x / count) * count + x % count;
    assert x % count - r == (q - x / count) * count;
    NoMultiple(x % count - r, q - x / count, count);
    NoMultiple(r - x % count, x / count - q, count);
  }

  lemma SameResidue(i: nat, count: nat)
    requires count > 0
    ensures (i + count) % count == i % count
  {
    assert i + count == (i / count + 1) * count + i % count;
    Residue(i / count + 1, i % count, count);
  }

  method StridedSum(row: seq<real>, count: nat, e: nat) returns (acc: real)
    requires e < count
    ensures acc == Bucket(Squares(row), count, e, |row|)
  {
    hide Bucket;
    ghost var sq := Squares(row);
    acc := 0.0;
    var i := e;
    BeforeStride(sq, count, e, Capped(e, |row|));
    assert e % count == e;
    while i < |row|
      invariant i % count == e && i >= e
      invariant acc == Bucket(sq, count, e, Capped(i, |row|))
    {
      StrideGap(sq, count, e, i, Capped(i + count, |row|));
      SameResidue(i, count);
      acc := acc + row[i] * row[i];
      i := i + count;
    }
  }

  /** The strided loops of probe_eval. */
  method ComputeEnergies(row: seq<real>, count: nat) returns (es: seq<real>)
    requires count > 0
    ensures es == Energies(row, count)
  {
    es := [];
    for e := 0 to count
      invariant |es| == e && forall b :: 0 <= b < e ==> es[b] == Bucket(Squares(row), count, b, |row|)
    {
      var acc := StridedSum(row, count, e);
      es := es + [acc];
    }
  }

  /** Energy in the first b buckets. */
  function BucketSum(sq: seq<real>, count: nat, n: nat, b: nat): real
    requires count > 0 && n <= |sq|
  {
    if b == 0 then 0.0 else BucketSum(sq, count, n, b - 1) + Bucket(sq, count, b - 1, n)
  }

  /** One pathway lands in exactly one bucket. */
  lemma {:induction false} BucketsStep(sq: seq<real>, count: nat, n: nat, b: nat)
    requires count > 0 && n < |sq| && b <= count
    ensures BucketSum(sq, count, n + 1, b) == BucketSum(sq, count, n, b) + (if n % count < b then sq[n] else 0.0)
    decreases b
  {
    if b == 0 {
    } else {
      BucketsStep(sq, count, n, b - 1);
    }
  }

  lemma {:induction false} BucketsEmpty(sq: seq<real>, count: nat, b: nat)
    requires count > 0
    ensures BucketSum(sq, count, 0, b) == 0.0
  {
    if b == 0 {
    } else {
      BucketsEmpty(sq, count, b - 1);
    }
  }

  lemma {:induction false} BucketsTile(sq: seq<real>, count: nat, n: nat)
    requires count > 0 && n <= |sq|
    ensures BucketSum(sq, count, n, count) == Sum(sq, n)
  {
    if n == 0 {
      BucketsEmpty(sq, count, count);
    } else {
      BucketsTile(sq, count, n - 1);
      BucketsStep(sq, count, n - 1, count);
    }
  }

  lemma {:induction false} SumOfBuckets(row: seq<real>, count: nat, b: nat)
    requires count > 0 && b <= count
    ensures Sum(Energies(row, count), b) == BucketSum(Squares(row), count, |row|, b)
  {
    if b == 0 {
    } else {
      SumOfBuckets(row, count, b - 1);
    }
  }

  lemma {:induction false} BucketNonNegative(sq: seq<real>, count: nat, e: nat, n: nat)
    requires count > 0 && n <= |sq| && NonNegative(sq)
    ensures Bucket(sq, count, e, n) >= 0.0
  {
    if n == 0 {
    } else {
      BucketNonNegative(sq, count, e, n - 1);
    }
  }

  /** The buckets conserve the row's energy, whether or not they divide it evenly. */
  lemma BucketsConserve(row: seq<real>, count: nat)
    requires count > 0
    ensures Sum(Energies(row, count), count) == Sum(Squares(row), |row|)
    ensures NonNegative(Energies(row, count))
  {
    SumOfBuckets(row, count, count);
    BucketsTile(Squares(row), count, |row|);
    forall e | 0 <= e < count ensures Bucket(Squares(row), count, e, |row|) >= 0.0 {
      BucketNonNegative(Squares(row), count, e, |row|);
    }
  }

  /** The pathways of bucket e: every count-th one, from the e-th on. */
  function Stride(count: nat, e: nat, n: nat): (S: set<nat>)
    requires count > 0
    ensures forall i: nat :: i in S <==> i < n && i % count == e
  {
    set i: nat | i < n && i % count == e
  }

  lemma {:induction false} BucketIsStride(sq: seq<real>, count: nat, e: nat, n: nat)
    requires count > 0 && n <= |sq|
    ensures Bucket(sq, count, e, n) == Mass(sq, Stride(count, e, |sq|), n)
  {
    if n == 0 {
    } else {
      BucketIsStride(sq, count, e, n - 1);
    }
  }

  /** A bucket's energy is that of the pathways of its stride. */
  lemma EnergyOfStride(row: seq<real>, count: nat, e: nat)
    requires e < count
    ensures Energies(row, count)[e] == Mass(Squares(row), Stride(count, e, |row|), |row|)
  {
    hide Mass, Bucket, Squares, Stride;
    BucketIsStride(Squares(row), count, e, |row|);
  }

  function Scaled(row: seq<real>, c: real): (r: seq<real>)
    ensures |r| == |row| && forall i :: 0 <= i < |row| ==> r[i] == c * row[i]
  {
    seq(|row|, i requires 0 <= i < |row| => c * row[i])
  }

  lemma TimesAdds(f: real, x: real, y: real)
    ensures Times(f, x + y) == Times(f, x) + Times(f, y) && Times(f, 0.0) == 0.0
  {
  }

  lemma SquareOfProduct(c: real, x: real)
    ensures (c * x) * (c * x) == Times(c * c, x * x)
  {
  }

  lemma SquareScales(row: seq<real>, c: real, i: nat)
    requires i < |row|
    ensures Squares(Scaled(row, c))[i] == Times(c * c, Squares(row)[i])
  {
    hide Times;
    var x, y := row[i], Scaled(row, c)[i];
    assert y == c * x;
    assert Squares(Scaled(row, c))[i] == y * y && Squares(row)[i] == x * x;
    SquareOfProduct(c, x);
  }

  lemma {:induction false} BucketScales(sq: seq<real>, sq': seq<real>, f: real, count: nat, e: nat, n: nat)
    requires count > 0 && n <= |sq| == |sq'| && forall i :: 0 <= i < |sq| ==> sq'[i] == Times(f, sq[i])
    ensures Bucket(sq', count, e, n) == Times(f, Bucket(sq, count, e, n))
  {
    hide Times;
    if n == 0 {
      TimesAdds(f, 0.0, 0.0);
    } else {
      BucketScales(sq, sq', f, count, e, n - 1);
      TimesAdds(f, Bucket(sq, count, e, n - 1), sq[n - 1]);
    }
  }

  /** Energy grows as the square of the activations, bucket by bucket, whatever their
      sign; */
  lemma EnergyIsQuadratic(row: seq<real>, c: real, count: nat, e: nat)
    requires e < count
    ensures Energies(Scaled(row, c), count)[e] == Times(c * c, Energies(row, count)[e])
  {
    hide Bucket, Times;
    var sq, sq' := Squares(row), Squares(Scaled(row, c));
    forall i | 0 <= i < |row| ensures sq'[i] == Times(c * c, sq[i]) {
      SquareScales(row, c, i);
    }
    BucketScales(sq, sq', c * c, count, e, |row|);
  }

  /** and one activation of one has energy one. */
  lemma UnitEnergy()
    ensures Energies([1.0], 1) == [1.0]
  {
    var sq := Squares([1.0]);
    assert Bucket(sq, 1, 0, 1) == Bucket(sq, 1, 0, 0) + sq[0];
  }

  // ---- capture curves --------------------------------------------------------

  function Ratio(a: real, t: real): real
    requires t > 0.0
  {
    a / t
  }

  /** Share of a token's energy in the first k items of an order. */
  function Capture(row: seq<real>, order: seq<nat>, k: nat): real
    requires IsPermutation(order, |row|) && k <= |row| && Total(row) > 0.0
  {
    Ratio(PrefixMass(row, order, k), Total(row))
  }

  /** The share of the token's energy that the first k items hold. */
  lemma CaptureIsShare(row: seq<real>, order: seq<nat>, k: nat)
    requires IsPermutation(order, |row|) && k <= |row| && Total(row) > 0.0
    ensures Capture(row, order, k) * Total(row) == Mass(row, Elements(order[..k]), |row|)
  {
    hide Mass, Below, PrefixMass;
    PrefixIsSet(row, order, k);
    assert Ratio(PrefixMass(row, order, k), Total(row)) * Total(row) == PrefixMass(row, order, k);
  }

  /** Every token's own best k, summed over the tokens with energy. */
  function Oracle(te: seq<seq<real>>, k: nat): real
    requires forall j :: 0 <= j < |te| ==> k <= |te[j]|
  {
    if te == [] then 0.0
    else
      var row := te[|te| - 1];
      Oracle(te[..|te| - 1], k) + (if Total(row) > 0.0 then Capture(row, Rank(row), k) else 0.0)
  }

  /** One fixed order for all tokens. */
  function Global(te: seq<seq<real>>, order: seq<nat>, k: nat): real
    requires forall j :: 0 <= j < |te| ==> IsPermutation(order, |te[j]|) && k <= |te[j]|
  {
    if te == [] then 0.0
    else
      var row := te[|te| - 1];
      Global(te[..|te| - 1], order, k) + (if Total(row) > 0.0 then Capture(row, order, k) else 0.0)
  }

  function Tokens(te: seq<seq<real>>): nat {
    if te == [] then 0 else Tokens(te[..|te| - 1]) + (if Total(te[|te| - 1]) > 0.0 then 1 else 0)
  }

  ghost predicate Table(te: seq<seq<real>>, count: nat) {
    forall j :: 0 <= j < |te| ==> |te[j]| == count && NonNegative(te[j])
  }

  /** The curves add up over the tokens, those without energy counting for nothing. */
  lemma {:induction false} CurvesAddUp(a: seq<seq<real>>, b: seq<seq<real>>, count: nat, order: seq<nat>, k: nat)
    requires Table(a, count) && Table(b, count) && IsPermutation(order, count) && k <= count
    ensures Oracle(a + b, k) == Oracle(a, k) + Oracle(b, k)
    ensures Global(a + b, order, k) == Global(a, order, k) + Global(b, order, k)
    ensures Tokens(a + b) == Tokens(a) + Tokens(b)
    decreases |b|
  {
    hide Rank, Capture, Mass, Below;
    if b == [] {
      assert a + b == a;
    } else {
      var n := |b| - 1;
      CurvesAddUp(a, b[..n], count, order, k);
      assert (a + b)[..|a + b| - 1] == a + b[..n];
    }
  }

  /** One token alone: its own best k, and the first k of the fixed order. */
  lemma OneTokenCurves(row: seq<real>, order: seq<nat>, k: nat)
    requires NonNegative(row) && IsPermutation(order, |row|) && k <= |row|
    ensures Total(row) > 0.0 ==>
      && Oracle([row], k) == Capture(row, Rank(row), k) && Global([row], order, k) == Capture(row, order, k)
      && Tokens([row]) == 1
    ensures Total(row) <= 0.0 ==> Oracle([row], k) == Global([row], order, k) == 0.0 && Tokens([row]) == 0
  {
    hide Rank, Capture, Mass, Below;
    assert [row][..0] == [];
    assert Oracle([], k) == 0.0 && Global([], order, k) == 0.0 && Tokens([]) == 0;
  }

  lemma RatioOrder(a: real, b: real, t: real)
    requires a <= b && t > 0.0
    ensures Ratio(a, t) <= Ratio(b, t)
  {
    assert b / t - a / t == (b - a) / t;
  }

  lemma RatioSum(a: real, x: real, t: real)
    requires t > 0.0
    ensures Ratio(a + x, t) == Ratio(a, t) + x / t
    ensures Ratio(0.0, t) == 0.0
  {
  }

  /** Per-token routing captures at least what any one order does, at every k; and
      keeping everything captures everything. */
  lemma {:induction false} OracleDominates(te: seq<seq<real>>, count: nat, order: seq<nat>, k: nat)
    requires Table(te, count) && IsPermutation(order, count) && k <= count
    ensures Global(te, order, k) <= Oracle(te, k)
    ensures k == count ==> Global(te, order, k) == Oracle(te, k) == Tokens(te) as real
  {
    hide Rank, Mass, Below;
    if te == [] {
    } else {
      var n := |te| - 1;
      var row := te[n];
      OracleDominates(te[..n], count, order, k);
      if Total(row) > 0.0 {
        TopBeats(row, Rank(row), order, k);
        RatioOrder(PrefixMass(row, order, k), PrefixMass(row, Rank(row), k), Total(row));
        if k == count {
          FullPrefix(row, order);
          FullPrefix(row, Rank(row));
        }
      }
    }
  }

  /** The average over a layer's tokens, those without energy included. */
  function Mean(x: real, n: nat): real {
    if n == 0 then 0.0 else x / n as real
  }

  lemma MeanIs(x: real, n: nat)
    requires n > 0
    ensures Mean(x, n) * n as real == x
  {
  }

  lemma MeanOrder(a: real, b: real, n: nat)
    requires a <= b
    ensures Mean(a, n) <= Mean(b, n)
  {
    if n > 0 {
      RatioOrder(a, b, n as real);
    }
  }

  /** A token's own order captures what any ranking of it does. */
  lemma OracleStep(row: seq<real>, ord: seq<nat>, k: nat)
    requires NonNegative(row) && Total(row) > 0.0 && IsRanking(ord, row) && k <= |row|
    ensures Capture(row, ord, k) == Capture(row, Rank(row), k)
  {
    hide Rank, Mass, Below, PrefixMass;
    TopMassOf(row, ord, k);
  }

  /** What a token's top buckets capture, added to the layer's sums. */
  method AddShares(row: seq<real>, tot: real, ord: seq<nat>, order: seq<nat>, top: nat, o0: real, g0: real)
    returns (o: real, g: real)
    requires NonNegative(row) && tot == Total(row) > 0.0 && IsRanking(ord, row) && IsPermutation(order, |row|) && top <= |row|
    ensures o == o0 + Capture(row, Rank(row), top) && g == g0 + Capture(row, order, top)
  {
    hide Rank, Mass, Below, Ratio;
    o, g := o0, g0;
    RatioSum(0.0, 0.0, tot);
    for r := 0 to top
      invariant o == o0 + Ratio(PrefixMass(row, ord, r), tot)
    {
      RatioSum(PrefixMass(row, ord, r), row[ord[r]], tot);
      o := o + row[ord[r]] / tot;
    }
    for r := 0 to top
      invariant g == g0 + Ratio(PrefixMass(row, order, r), tot)
    {
      RatioSum(PrefixMass(row, order, r), row[order[r]], tot);
      g := g + row[order[r]] / tot;
    }
    OracleStep(row, ord, top);
  }

  method AddToken(row: seq<real>, tot: real, ord: seq<nat>, order: seq<nat>, oracle0: seq<real>, global0: seq<real>)
    returns (oracle: seq<real>, global: seq<real>)
    requires NonNegative(row) && tot == Total(row) > 0.0 && |oracle0| == |global0| == |row| + 1
    requires IsRanking(ord, row) && IsPermutation(order, |row|)
    ensures |oracle| == |global| == |row| + 1
    ensures oracle[0] == oracle0[0] && global[0] == global0[0]
    ensures forall k :: 1 <= k <= |row| ==>
      oracle[k] == oracle0[k] + Capture(row, Rank(row), k) && global[k] == global0[k] + Capture(row, order, k)
  {
    hide Rank, Mass, Below, Ratio, TopMass;
    oracle, global := oracle0, global0;
    var oc, gc := 0.0, 0.0;
    RatioSum(0.0, 0.0, tot);
    for r := 0 to |row|
      invariant |oracle| == |global| == |row| + 1
      invariant oc == Ratio(PrefixMass(row, ord, r), tot) && gc == Ratio(PrefixMass(row, order, r), tot)
      invariant forall k :: 0 <= k <= |row| ==>
        oracle[k] == oracle0[k] + (if 1 <= k <= r then Capture(row, Rank(row), k) else 0.0)
      invariant forall k :: 0 <= k <= |row| ==>
        global[k] == global0[k] + (if 1 <= k <= r then Capture(row, order, k) else 0.0)
    {
      RatioSum(PrefixMass(row, ord, r), row[ord[r]], tot);
      RatioSum(PrefixMass(row, order, r), row[order[r]], tot);
      oc := oc + row[ord[r]] / tot;
      gc := gc + row[order[r]] / tot;
      OracleStep(row, ord, r + 1);
      assert gc == Capture(row, order, r + 1);
      oracle := oracle[r + 1 := oracle[r + 1] + oc];
      global := global[r + 1 := global[r + 1] + gc];
    }
  }

  method SumRow(row: seq<real>) returns (tot: real)
    ensures tot == Total(row)
  {
    tot := 0.0;
    for e := 0 to |row|
      invariant tot == Mass(row, Below(|row|), e)
    {
      tot := tot + row[e];
    }
  }

  /** A bucket's energy over all tokens. */
  function ColumnSum(te: seq<seq<real>>, e: nat): real
    requires forall j :: 0 <= j < |te| ==> e < |te[j]|
  {
    if te == [] then 0.0 else ColumnSum(te[..|te| - 1], e) + te[|te| - 1][e]
  }

  function ColumnSums(te: seq<seq<real>>, count: nat): (r: seq<real>)
    requires forall j :: 0 <= j < |te| ==> |te[j]| == count
    ensures |r| == count
  {
    seq(count, e requires 0 <= e < count => ColumnSum(te, e))
  }

  /** What a set of buckets holds over all tokens. */
  function TableMass(te: seq<seq<real>>, S: set<nat>, n: nat): real
    requires forall j :: 0 <= j < |te| ==> n <= |te[j]|
  {
    if te == [] then 0.0 else TableMass(te[..|te| - 1], S, n) + Mass(te[|te| - 1], S, n)
  }

  lemma {:induction false} NoMass(w: seq<real>, S: set<nat>, n: nat)
    requires n <= |w| && forall i :: 0 <= i < |w| ==> w[i] == 0.0
    ensures Mass(w, S, n) == 0.0
  {
    if n == 0 {
    } else {
      NoMass(w, S, n - 1);
    }
  }

  lemma {:induction false} MassesAdd(u: seq<real>, v: seq<real>, w: seq<real>, S: set<nat>, n: nat)
    requires |u| == |v| == |w| >= n && forall i :: 0 <= i < |w| ==> w[i] == u[i] + v[i]
    ensures Mass(w, S, n) == Mass(u, S, n) + Mass(v, S, n)
  {
    if n == 0 {
    } else {
      MassesAdd(u, v, w, S, n - 1);
    }
  }

  /** The aggregate weighs a set of buckets as the tokens together do. */
  lemma {:induction false} AggregateIsTable(te: seq<seq<real>>, count: nat, S: set<nat>)
    requires forall j :: 0 <= j < |te| ==> |te[j]| == count
    ensures Mass(ColumnSums(te, count), S, count) == TableMass(te, S, count)
  {
    hide Mass;
    if te == [] {
      NoMass(ColumnSums(te, count), S, count);
    } else {
      var n := |te| - 1;
      AggregateIsTable(te[..n], count, S);
      MassesAdd(ColumnSums(te[..n], count), te[n], ColumnSums(te, count), S, count);
    }
  }

  lemma {:induction false} ColumnNonNegative(te: seq<seq<real>>, count: nat, e: nat)
    requires Table(te, count) && e < count
    ensures ColumnSum(te, e) >= 0.0
  {
    if te == [] {
    } else {
      ColumnNonNegative(te[..|te| - 1], count, e);
    }
  }

  /** So the fixed order is the best there is: no k buckets hold more energy over all
      tokens together than the first k of it. */
  lemma FixedOrderIsBest(te: seq<seq<real>>, count: nat, order: seq<nat>, k: nat, S: set<nat>)
    requires Table(te, count) && IsPermutation(order, count) && IsRanking(order, ColumnSums(te, count))
    requires k <= count && S <= Below(count) && |S| <= k
    ensures TableMass(te, S, count) <= TableMass(te, Elements(order[..k]), count)
  {
    hide Mass, Below, PrefixMass, TableMass, ColumnSum;
    var agg := ColumnSums(te, count);
    forall e: nat | e < count ensures agg[e] >= 0.0 {
      ColumnNonNegative(te, count, e);
    }
    TopIsHeaviest(agg, order, S, k);
    PrefixIsSet(agg, order, k);
    AggregateIsTable(te, count, S);
    AggregateIsTable(te, count, Elements(order[..k]));
  }

  method Aggregate(te: seq<seq<real>>, count: nat) returns (agg: seq<real>)
    requires Table(te, count)
    ensures agg == ColumnSums(te, count)
  {
    agg := seq(count, _ => 0.0);
    for j := 0 to |te|
      invariant |agg| == count && forall e :: 0 <= e < count ==> agg[e] == ColumnSum(te[..j], e)
    {
      assert te[..j + 1][..j] == te[..j];
      for e := 0 to count
        invariant |agg| == count
        invariant forall b :: 0 <= b < count ==> agg[b] == ColumnSum(te[..j], b) + (if b < e then te[j][b] else 0.0)
      {
        agg := agg[e := agg[e] + te[j][e]];
      }
    }
    assert te[..|te|] == te;
  }

  /** One more token of a layer. */
  lemma TokenAdds(te: seq<seq<real>>, count: nat, order: seq<nat>, j: nat, k: nat)
    requires Table(te, count) && IsPermutation(order, count) && j < |te| && k <= count
    ensures var row, on := te[j], Total(te[j]) > 0.0;
      && Oracle(te[..j + 1], k) == Oracle(te[..j], k) + (if on then Capture(row, Rank(row), k) else 0.0)
      && Global(te[..j + 1], order, k) == Global(te[..j], order, k) + (if on then Capture(row, order, k) else 0.0)
      && Tokens(te[..j + 1]) == Tokens(te[..j]) + (if on then 1 else 0)
  {
    hide Rank, Capture, Mass, Below;
    assert te[..j + 1][..j] == te[..j];
  }

  lemma NoTokens(order: seq<nat>, k: nat)
    ensures Oracle([], k) == Global([], order, k) == 0.0 && Tokens([]) == 0
  {
  }

  /** One layer of report(): add its tokens to the running curves, and average what
      the top buckets capture, token by token and in one order for all. */
  method AddLayer(te: seq<seq<real>>, count: nat, topk: nat, oracle0: seq<real>, global0: seq<real>)
    returns (oracle: seq<real>, global: seq<real>, tokens: nat, oracleK: real, globalK: real, ghost order: seq<nat>)
    requires Table(te, count) && |oracle0| == |global0| == count + 1
    ensures |oracle| == |global| == count + 1 && tokens == Tokens(te)
    ensures IsPermutation(order, count) && IsRanking(order, ColumnSums(te, count))
    ensures oracle[0] == oracle0[0] && global[0] == global0[0]
    ensures forall k :: 1 <= k <= count ==>
      oracle[k] == oracle0[k] + Oracle(te, k) && global[k] == global0[k] + Global(te, order, k)
    ensures oracleK == Mean(Oracle(te, Capped(topk, count)), |te|)
    ensures globalK == Mean(Global(te, order, Capped(topk, count)), |te|) <= oracleK
  {
    hide Oracle, Global, Tokens, Rank, Mass, Below, PrefixMass, Capture, ColumnSums, Descending;
    var top := Capped(topk, count);
    var agg := Aggregate(te, count);
    var fixedOrder := SortDescending(agg);
    order := fixedOrder;
    oracle, global, tokens := oracle0, global0, 0;
    var o, g := 0.0, 0.0;
    assert te[..0] == [];
    NoTokens(fixedOrder, 0);
    forall k: nat ensures Oracle([], k) == Global([], fixedOrder, k) == 0.0 && Tokens([]) == 0 {
      NoTokens(fixedOrder, k);
    }
    for j := 0 to |te|
      invariant |oracle| == |global| == count + 1 && tokens == Tokens(te[..j])
      invariant oracle[0] == oracle0[0] && global[0] == global0[0]
      invariant forall k :: 1 <= k <= count ==>
        oracle[k] == oracle0[k] + Oracle(te[..j], k) && global[k] == global0[k] + Global(te[..j], fixedOrder, k)
      invariant o == Oracle(te[..j], top) && g == Global(te[..j], fixedOrder, top)
    {
      forall k: nat | k <= count
        ensures var row, on := te[j], Total(te[j]) > 0.0;
          && Oracle(te[..j + 1], k) == Oracle(te[..j], k) + (if on then Capture(row, Rank(row), k) else 0.0)
          && Global(te[..j + 1], fixedOrder, k) == Global(te[..j], fixedOrder, k) + (if on then Capture(row, fixedOrder, k) else 0.0)
          && Tokens(te[..j + 1]) == Tokens(te[..j]) + (if on then 1 else 0)
      {
        TokenAdds(te, count, fixedOrder, j, k);
      }
      var row := te[j];
      var tot := SumRow(row);
      if tot <= 0.0 {
        continue;
      }
      var ord := SortDescending(row);
      o, g := AddShares(row, tot, ord, fixedOrder, top, o, g);
      oracle, global := AddToken(row, tot, ord, fixedOrder, oracle, global);
      tokens := tokens + 1;
    }
    assert te[..|te|] == te;
    OracleDominates(te, count, fixedOrder, top);
    MeanOrder(g, o, |te|);
    oracleK, globalK := Mean(o, |te|), Mean(g, |te|);
  }

  /** The oracle curve of several layers. */
  function OracleOf(layers: seq<seq<seq<real>>>, count: nat, k: nat): real
    requires forall l :: 0 <= l < |layers| ==> Table(layers[l], count)
    requires k <= count
  {
    if layers == [] then 0.0
    else
      var n := |layers| - 1;
      assert Table(layers[n], count);
      OracleOf(layers[..n], count, k) + Oracle(layers[n], k)
  }

  /** The global curve of several layers, each with its own fixed order. */
  function GlobalOf(layers: seq<seq<seq<real>>>, orders: seq<seq<nat>>, count: nat, k: nat): real
    requires |orders| == |layers| && k <= count
    requires forall l :: 0 <= l < |layers| ==> Table(layers[l], count) && IsPermutation(orders[l], count)
  {
    if layers == [] then 0.0
    else
      var n := |layers| - 1;
      assert Table(layers[n], count);
      GlobalOf(layers[..n], orders[..n], count, k) + Global(layers[n], orders[n], k)
  }

  function TokensOf(layers: seq<seq<seq<real>>>): nat {
    if layers == [] then 0 else TokensOf(layers[..|layers| - 1]) + Tokens(layers[|layers| - 1])
  }

  /** The sweep adds up over the layers. */
  lemma {:induction false} LayersAddUp(a: seq<seq<seq<real>>>, b: seq<seq<seq<real>>>, oa: seq<seq<nat>>, ob: seq<seq<nat>>,
                                       count: nat, k: nat)
    requires |oa| == |a| && |ob| == |b| && k <= count
    requires forall l :: 0 <= l < |a| ==> Table(a[l], count) && IsPermutation(oa[l], count)
    requires forall l :: 0 <= l < |b| ==> Table(b[l], count) && IsPermutation(ob[l], count)
    ensures forall l :: 0 <= l < |a + b| ==> Table((a + b)[l], count) && IsPermutation((oa + ob)[l], count)
    ensures OracleOf(a + b, count, k) == OracleOf(a, count, k) + OracleOf(b, count, k)
    ensures GlobalOf(a + b, oa + ob, count, k) == GlobalOf(a, oa, count, k) + GlobalOf(b, ob, count, k)
    ensures TokensOf(a + b) == TokensOf(a) + TokensOf(b)
    decreases |b|
  {
    hide Oracle, Global, Tokens, Table, IsPermutation;
    if b == [] {
      assert a + b == a && oa + ob == oa;
    } else {
      var n := |b| - 1;
      LayersAddUp(a, b[..n], oa, ob[..n], count, k);
      assert (a + b)[..|a + b| - 1] == a + b[..n] && (oa + ob)[..|a + b| - 1] == oa + ob[..n];
    }
  }

  /** One layer alone. */
  lemma OneLayerCurves(te: seq<seq<real>>, order: seq<nat>, count: nat, k: nat)
    requires Table(te, count) && IsPermutation(order, count) && k <= count
    ensures OracleOf([te], count, k) == Oracle(te, k) && GlobalOf([te], [order], count, k) == Global(te, order, k)
    ensures TokensOf([te]) == Tokens(te)
  {
    hide Oracle, Global, Tokens, Table, IsPermutation;
    assert [te][..0] == [] && [order][..0] == [];
    assert OracleOf([], count, k) == 0.0 && GlobalOf([], [], count, k) == 0.0 && TokensOf([]) == 0;
  }

  /** The fixed order of every layer ranks that layer's aggregate. */
  ghost predicate LayerOrders(layers: seq<seq<seq<real>>>, orders: seq<seq<nat>>, count: nat) {
    && |orders| == |layers|
    && forall l :: 0 <= l < |layers| ==>
         Table(layers[l], count) && IsPermutation(orders[l], count) && IsRanking(orders[l], ColumnSums(layers[l], count))
  }

  /** The oracle curve is never below the global one, and both end at the number
      of tokens counted. */
  lemma {:induction false} OracleDominatesAll(layers: seq<seq<seq<real>>>, orders: seq<seq<nat>>, count: nat, k: nat)
    requires LayerOrders(layers, orders, count) && k <= count
    ensures GlobalOf(layers, orders, count, k) <= OracleOf(layers, count, k)
    ensures k == count ==> GlobalOf(layers, orders, count, k) == OracleOf(layers, count, k) == TokensOf(layers) as real
    decreases |layers|
  {
    hide Oracle, Global, Tokens, Table;
    if layers == [] {
    } else {
      var n := |layers| - 1;
      OracleDominatesAll(layers[..n], orders[..n], count, k);
      OracleDominates(layers[n], count, orders[n], k);
    }
  }

  /** report()'s sweep over all layers. */
  method Sweep(layers: seq<seq<seq<real>>>, count: nat, topk: nat)
    returns (oracle: seq<real>, global: seq<real>, tokens: nat, ghost orders: seq<seq<nat>>)
    requires forall l :: 0 <= l < |layers| ==> Table(layers[l], count)
    ensures LayerOrders(layers, orders, count)
    ensures |oracle| == |global| == count + 1 && oracle[0] == global[0] == 0.0
    ensures forall k :: 1 <= k <= count ==>
      oracle[k] == OracleOf(layers, count, k) && global[k] == GlobalOf(layers, orders, count, k)
    ensures forall k :: 0 <= k <= count ==> global[k] <= oracle[k]
    ensures count > 0 ==> oracle[count] == global[count] == tokens as real
    ensures tokens == TokensOf(layers)
  {
    hide Oracle, Global, Tokens, Table, ColumnSums, IsRanking;
    oracle, global := seq(count + 1, _ => 0.0), seq(count + 1, _ => 0.0);
    tokens, orders := 0, [];
    for l := 0 to |layers|
      invariant |oracle| == |global| == count + 1 && oracle[0] == global[0] == 0.0
      invariant LayerOrders(layers[..l], orders, count)
      invariant forall k :: 1 <= k <= count ==>
        oracle[k] == OracleOf(layers[..l], count, k) && global[k] == GlobalOf(layers[..l], orders, count, k)
      invariant tokens == TokensOf(layers[..l])
    {
      assert layers[..l + 1][..l] == layers[..l];
      var more: nat;
      ghost var order: seq<nat>;
      var oracleK, globalK;
      oracle, global, more, oracleK, globalK, order := AddLayer(layers[l], count, topk, oracle, global);
      tokens := tokens + more;
      assert (orders + [order])[..l] == orders;
      orders := orders + [order];
    }
    assert layers[..|layers|] == layers;
    forall k | 0 <= k <= count
      ensures k >= 1 ==> global[k] <= oracle[k] && (k == count ==> oracle[k] == global[k] == tokens as real)
    {
      OracleDominatesAll(layers, orders, count, k);
    }
  }
}
