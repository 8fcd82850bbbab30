/** The block retention of examples/block_probe.cpp, at any group size. */
module Probes {
  import opened Ranking

  // ---- block granularity -----------------------------------------------------

  function SliceSum(g: seq<real>, lo: nat, hi: nat): real
    requires lo <= hi <= |g|
  {
    if lo == hi then 0.0 else SliceSum(g, lo, hi - 1) + g[hi - 1]
  }

  function BlockCount(n: nat, grp: nat): nat
    requires grp > 0
  {
    (n + grp - 1) / grp
  }

  function BlockEnd(n: nat, grp: nat, b: nat): (e: nat)
    ensures e <= n
  {
    if (b + 1) * grp <= n then (b + 1) * grp else n
  }

  lemma DivMul(a: nat, grp: nat)
    requires grp > 0
    ensures (a / grp) * grp <= a < (a / grp) * grp + grp
  {
    assert a == (a / grp) * grp + a % grp;
  }

  lemma AddOne(b: nat, grp: nat)
    ensures (b + 1) * grp == b * grp + grp && b * grp >= 0
  {
  }

  lemma Multiples(a: nat, b: nat, grp: nat)
    requires a <= b
    ensures a * grp <= b * grp
  {
  }

  lemma BlockStart(n: nat, grp: nat, b: nat)
    requires grp > 0 && b < BlockCount(n, grp)
    ensures b * grp < n && b * grp <= BlockEnd(n, grp, b)
  {
    var nb := BlockCount(n, grp);
    DivMul(n + grp - 1, grp);
    Multiples(b + 1, nb, grp);
    AddOne(b, grp);
  }

  function Block(g: seq<real>, grp: nat, b: nat): real
    requires grp > 0 && b < BlockCount(|g|, grp)
  {
    BlockStart(|g|, grp, b);
    SliceSum(g, b * grp, BlockEnd(|g|, grp, b))
  }

  /** Scores summed over blocks of `grp` consecutive pathways. */
  function Blocks(g: seq<real>, grp: nat): (bs: seq<real>)
    requires grp > 0
    ensures |bs| == BlockCount(|g|, grp)
  {
    seq(BlockCount(|g|, grp), b requires 0 <= b < BlockCount(|g|, grp) => Block(g, grp, b))
  }

  /** How many of m groups a fraction p keeps: truncated, at least one. */
  function Kept(p: real, m: nat): (k: nat)
    requires p >= 0.0
    ensures k <= m
  {
    var t := (p * m as real).Floor;
    var k := if t < 1 then 1 else t;
    if k > m then m else k
  }

  function Retention(g: seq<real>, grp: nat, p: real): real
    requires grp > 0 && p >= 0.0
  {
    if Total(g) <= 0.0 then 0.0
    else TopMass(Blocks(g, grp), Kept(p, BlockCount(|g|, grp))) / Total(g)
  }

  method SumTop(w: seq<real>, k: nat) returns (run: real)
    requires NonNegative(w) && k <= |w|
    ensures run == TopMass(w, k)
  {
    var order := SortDescending(w);
    run := 0.0;
    for i := 0 to k
      invariant run == PrefixMass(w, order, i)
    {
      run := run + w[order[i]];
    }
    TopMassOf(w, order, k);
  }

  lemma MassNone(g: seq<real>)
    ensures Mass(g, Below(|g|), 0) == 0.0
  {
  }

  lemma MassNext(g: seq<real>, i: nat)
    requires i < |g|
    ensures Mass(g, Below(|g|), i + 1) == Mass(g, Below(|g|), i) + g[i]
  {
  }

  /** The part of a block among the first i pathways. */
  function PartialBlock(g: seq<real>, grp: nat, b: nat, i: nat): real
    requires grp > 0 && i <= |g|
  {
    var lo, hi := b * grp, BlockEnd(|g|, grp, b);
    if i <= lo then 0.0 else SliceSum(g, lo, if i < hi then i else hi)
  }

  function PartialBlocks(g: seq<real>, grp: nat, i: nat): (bs: seq<real>)
    requires grp > 0 && i <= |g|
    ensures |bs| == BlockCount(|g|, grp)
  {
    seq(BlockCount(|g|, grp), b requires 0 <= b < BlockCount(|g|, grp) => PartialBlock(g, grp, b, i))
  }

  lemma StartBlocks(g: seq<real>, grp: nat)
    requires grp > 0
    ensures PartialBlocks(g, grp, 0) == seq(BlockCount(|g|, grp), _ => 0.0)
  {
    forall b | 0 <= b < BlockCount(|g|, grp) ensures PartialBlock(g, grp, b, 0) == 0.0 {
      assert b * grp >= 0;
    }
  }

  lemma InBlock(n: nat, grp: nat, i: nat)
    requires grp > 0 && i < n
    ensures i / grp < BlockCount(n, grp)
    ensures (i / grp) * grp <= i < (i / grp + 1) * grp
  {
    var q := i / grp;
    assert i == q * grp + i % grp;
    assert (q + 1) * grp == q * grp + grp;
    var nb := BlockCount(n, grp);
    assert n + grp - 1 == nb * grp + (n + grp - 1) % grp;
    if nb <= q {
      Multiples(nb, q, grp);
    }
  }

  lemma PartialInside(g: seq<real>, lo: nat, i: nat)
    requires lo <= i < |g|
    ensures SliceSum(g, lo, i + 1) == (if i <= lo then 0.0 else SliceSum(g, lo, i)) + g[i]
  {
  }

  lemma PartialStep(g: seq<real>, grp: nat, b: nat, i: nat)
    requires grp > 0 && i < |g|
    ensures PartialBlock(g, grp, b, i + 1) == PartialBlock(g, grp, b, i) + (if b == i / grp then g[i] else 0.0)
  {
    hide BlockCount, SliceSum;
    InBlock(|g|, grp, i);
    var q := i / grp;
    if b < q {
      Multiples(b + 1, q, grp);
      assert BlockEnd(|g|, grp, b) <= i;
    } else if b > q {
      Multiples(q + 1, b, grp);
      assert i + 1 <= b * grp;
    } else {
      assert b * grp <= i < BlockEnd(|g|, grp, b);
      PartialInside(g, b * grp, i);
    }
  }

  /** One more score goes to one block. */
  lemma PartialNext(g: seq<real>, grp: nat, i: nat)
    requires grp > 0 && i < |g|
    ensures i / grp < BlockCount(|g|, grp)
    ensures var bs := PartialBlocks(g, grp, i);
      PartialBlocks(g, grp, i + 1) == bs[i / grp := bs[i / grp] + g[i]]
  {
    hide PartialBlock, BlockCount;
    InBlock(|g|, grp, i);
    forall b | 0 <= b < BlockCount(|g|, grp)
      ensures PartialBlock(g, grp, b, i + 1) == PartialBlock(g, grp, b, i) + (if b == i / grp then g[i] else 0.0)
    {
      PartialStep(g, grp, b, i);
    }
  }

  lemma WholeOfBlocks(g: seq<real>, grp: nat)
    requires grp > 0
    ensures PartialBlocks(g, grp, |g|) == Blocks(g, grp)
  {
    forall b | 0 <= b < BlockCount(|g|, grp) ensures PartialBlock(g, grp, b, |g|) == Block(g, grp, b) {
      BlockStart(|g|, grp, b);
    }
  }

  method SumBlocks(g: seq<real>, grp: nat) returns (bs: seq<real>, tot: real)
    requires grp > 0
    ensures bs == Blocks(g, grp) && tot == Total(g)
  {
    hide PartialBlocks, BlockCount, Mass, Below, Blocks;
    var n := |g|;
    bs := seq(BlockCount(n, grp), _ => 0.0);
    tot := 0.0;
    StartBlocks(g, grp);
    MassNone(g);
    for i := 0 to n
      invariant tot == Mass(g, Below(n), i) && bs == PartialBlocks(g, grp, i)
    {
      PartialNext(g, grp, i);
      MassNext(g, i);
      bs := bs[i / grp := bs[i / grp] + g[i]];
      tot := tot + g[i];
    }
    WholeOfBlocks(g, grp);
  }

  lemma {:induction false} SliceNonNegative(g: seq<real>, lo: nat, hi: nat)
    requires NonNegative(g) && lo <= hi <= |g|
    ensures SliceSum(g, lo, hi) >= 0.0
    decreases hi
  {
    if lo >= hi {
    } else {
      SliceNonNegative(g, lo, hi - 1);
    }
  }

  lemma BlocksNonNegative(g: seq<real>, grp: nat)
    requires NonNegative(g) && grp > 0
    ensures NonNegative(Blocks(g, grp))
  {
    forall b | 0 <= b < BlockCount(|g|, grp) ensures Block(g, grp, b) >= 0.0 {
      BlockStart(|g|, grp, b);
      SliceNonNegative(g, b * grp, BlockEnd(|g|, grp, b));
    }
  }

  /** retention(): bucket, sort, accumulate. */
  method ComputeRetention(g: seq<real>, grp: nat, p: real) returns (r: real)
    requires grp > 0 && p >= 0.0 && NonNegative(g)
    ensures r == Retention(g, grp, p)
  {
    hide Blocks, TopMass, Mass, Below, PrefixMass;
    var bs, tot := SumBlocks(g, grp);
    if tot <= 0.0 {
      return 0.0;
    }
    BlocksNonNegative(g, grp);
    var nb := |bs|;
    var k := (p * nb as real).Floor;
    if k < 1 {
      k := 1;
    }
    var stop := if k < nb then k else nb;
    assert stop == Kept(p, nb);
    var run := SumTop(bs, stop);
    assert run == TopMass(Blocks(g, grp), Kept(p, BlockCount(|g|, grp)));
    r := run / tot;
  }

  /** The pathways of a set of blocks. */
  function Members(B: set<nat>, grp: nat, n: nat): (S: set<nat>)
    requires grp > 0
    ensures forall i: nat :: i in S <==> i < n && i / grp in B
  {
    set i: nat | i < n && i / grp in B
  }

  /** Where block b starts, the end of the scores for all later blocks. */
  function Edge(n: nat, grp: nat, b: nat): (e: nat)
    ensures e <= n
  {
    if b * grp <= n then b * grp else n
  }

  lemma Quotient(b: nat, grp: nat, j: nat)
    requires grp > 0 && j < grp
    ensures (b * grp + j) / grp == b
  {
    var i := b * grp + j;
    var q := i / grp;
    assert i == q * grp + i % grp;
    if q < b {
      Multiples(q + 1, b, grp);
    } else if b < q {
      Multiples(b + 1, q, grp);
    }
  }

  lemma {:induction false} BlockCarry(g: seq<real>, grp: nat, B: set<nat>, b: nat, j: nat)
    requires grp > 0 && j <= grp && b * grp + j <= |g|
    ensures var S := Members(B, grp, |g|); var lo := b * grp;
      && Mass(g, S, lo + j) == Mass(g, S, lo) + (if b in B then SliceSum(g, lo, lo + j) else 0.0)
      && Count(S, lo + j) == Count(S, lo) + (if b in B then j else 0)
    decreases j
  {
    if j == 0 {
    } else {
      BlockCarry(g, grp, B, b, j - 1);
      Quotient(b, grp, j - 1);
    }
  }

  /** Weight carries over from blocks to pathways, and a block has at most grp
      pathways; the last one may be short. */
  lemma {:induction false} MembersCarry(g: seq<real>, grp: nat, B: set<nat>, b: nat)
    requires grp > 0 && b <= BlockCount(|g|, grp)
    ensures Mass(g, Members(B, grp, |g|), Edge(|g|, grp, b)) == Mass(Blocks(g, grp), B, b)
    ensures Count(Members(B, grp, |g|), Edge(|g|, grp, b)) <= Count(B, b) * grp
  {
    if b == 0 {
    } else {
      MembersCarry(g, grp, B, b - 1);
      BlockStart(|g|, grp, b - 1);
      AddOne(b - 1, grp);
      BlockCarry(g, grp, B, b - 1, Edge(|g|, grp, b) - (b - 1) * grp);
      AddOne(Count(B, b - 1), grp);
    }
  }

  /** The last block ends where the scores do. */
  lemma LastEdge(n: nat, grp: nat)
    requires grp > 0
    ensures Edge(n, grp, BlockCount(n, grp)) == n
  {
    DivMul(n + grp - 1, grp);
  }

  lemma WholeBlocks(n: nat, grp: nat)
    requires grp > 0 && n % grp == 0
    ensures BlockCount(n, grp) * grp == n
  {
    var q := n / grp;
    assert n == q * grp;
    assert n + grp - 1 == q * grp + (grp - 1);
    var nb := BlockCount(n, grp);
    assert n + grp - 1 == nb * grp + (n + grp - 1) % grp;
    if nb < q {
      Multiples(nb + 1, q, grp);
    } else if q < nb {
      Multiples(q + 1, nb, grp);
    }
  }

  lemma FloorScale(x: real, t: int, grp: nat)
    requires t as real <= x
    ensures t * grp <= Times(x, grp as real).Floor
  {
    assert (t * grp) as real == t as real * grp as real;
    assert t as real * grp as real <= x * grp as real;
  }

  lemma Cast(a: nat, b: nat)
    ensures (a * b) as real == a as real * b as real
  {
  }

  lemma Associate(p: real, a: real, b: real)
    ensures p * (a * b) == (p * a) * b
  {
  }

  lemma ScaledProduct(p: real, nb: nat, grp: nat)
    ensures p * (nb * grp) as real == Times(p * nb as real, grp as real)
  {
    Cast(nb, grp);
    Associate(p, nb as real, grp as real);
  }

  lemma ScaledFloor(p: real, nb: nat, grp: nat)
    requires p >= 0.0
    ensures (p * nb as real).Floor * grp <= (p * (nb * grp) as real).Floor
  {
    hide Times;
    var x := p * nb as real;
    ScaledProduct(p, nb, grp);
    FloorScale(x, x.Floor, grp);
  }

  /** Keeping whole blocks keeps at most as many pathways' worth. */
  lemma KeptScales(p: real, nb: nat, grp: nat)
    requires p >= 0.0 && grp > 0 && (p * nb as real).Floor >= 1
    ensures Kept(p, nb) * grp <= Kept(p, nb * grp)
  {
    var t := (p * nb as real).Floor;
    var u := (p * (nb * grp) as real).Floor;
    ScaledFloor(p, nb, grp);
    Multiples(1, t, grp);
    if t <= nb {
      Multiples(t, nb, grp);
    } else {
      Multiples(nb, t, grp);
    }
  }

  /** The blocks kept span no more pathways than are kept one by one, or every
      pathway is kept. */
  predicate Covered(n: nat, grp: nat, p: real)
    requires grp > 0 && p >= 0.0
  {
    Kept(p, BlockCount(n, grp)) * grp <= Kept(p, n) || Kept(p, n) == n
  }

  lemma CountOf(S: set<nat>, n: nat)
    requires S <= Below(n)
    ensures Count(S, n) == |S|
  {
    hide Below, Count;
    CountIsSize(S, n);
    assert S * Below(n) == S;
  }

  /** The pathways of some blocks weigh what the blocks do, at most grp to a block. */
  lemma MembersWeigh(g: seq<real>, grp: nat, B: set<nat>)
    requires grp > 0 && B <= Below(BlockCount(|g|, grp))
    ensures var S := Members(B, grp, |g|);
      && S <= Below(|g|) && |S| <= |B| * grp
      && Mass(g, S, |g|) == Mass(Blocks(g, grp), B, BlockCount(|g|, grp))
  {
    hide Below, Mass, Count, Blocks, BlockCount;
    var n, nb := |g|, BlockCount(|g|, grp);
    MembersCarry(g, grp, B, nb);
    LastEdge(n, grp);
    CountOf(B, nb);
    CountOf(Members(B, grp, n), n);
  }

  lemma InRange(order: seq<nat>, n: nat, k: nat)
    requires IsPermutation(order, n) && k <= n
    ensures Elements(order[..k]) <= Below(n)
  {
  }

  /** How many groups are kept: the whole part of the fraction, but at least one and no
      more than there are. */
  lemma KeptIs(p: real, m: nat)
    requires p >= 0.0 && m > 0
    ensures var k := Kept(p, m);
      1 <= k <= m && (k > 1 ==> k as real <= p * m as real) && (k < m ==> p * m as real < k as real + 1.0)
  {
  }

  lemma Undivide(a: real, t: real)
    requires t > 0.0
    ensures a / t * t == a
  {
  }

  /** What retention measures: no choice of that many blocks holds a larger share of
      the total than it says, whatever the blocks. */
  lemma RetentionIsMost(g: seq<real>, grp: nat, p: real, B: set<nat>)
    requires grp > 0 && p >= 0.0 && NonNegative(g) && Total(g) > 0.0
    requires B <= Below(BlockCount(|g|, grp)) && |B| <= Kept(p, BlockCount(|g|, grp))
    ensures Mass(g, Members(B, grp, |g|), |g|) <= Retention(g, grp, p) * Total(g)
  {
    hide Below, Mass, Rank, PrefixMass, Kept, Blocks, Members, BlockCount;
    var bs, k := Blocks(g, grp), Kept(p, BlockCount(|g|, grp));
    BlocksNonNegative(g, grp);
    MembersWeigh(g, grp, B);
    TopIsHeaviest(bs, Rank(bs), B, k);
    Undivide(TopMass(bs, k), Total(g));
  }

  /** And some choice of exactly that many holds that share. */
  lemma RetentionIsReached(g: seq<real>, grp: nat, p: real) returns (B: set<nat>)
    requires grp > 0 && p >= 0.0 && NonNegative(g) && Total(g) > 0.0
    ensures B <= Below(BlockCount(|g|, grp)) && |B| == Kept(p, BlockCount(|g|, grp))
    ensures Mass(g, Members(B, grp, |g|), |g|) == Retention(g, grp, p) * Total(g)
  {
    hide Below, Mass, Rank, PrefixMass, Kept, Blocks, Members, BlockCount;
    var nb, bs := BlockCount(|g|, grp), Blocks(g, grp);
    var k, order := Kept(p, nb), Rank(bs);
    B := Elements(order[..k]);
    InRange(order, nb, k);
    PrefixIsSet(bs, order, k);
    PrefixSize(order, nb, k);
    MembersWeigh(g, grp, B);
    Undivide(TopMass(bs, k), Total(g));
  }

  /** Then pathway granularity retains at least as much as block granularity. */
  lemma BlocksRetainLess(g: seq<real>, grp: nat, p: real)
    requires grp > 0 && p >= 0.0 && NonNegative(g) && Covered(|g|, grp, p)
    ensures TopMass(Blocks(g, grp), Kept(p, BlockCount(|g|, grp))) <= TopMass(g, Kept(p, |g|))
  {
    hide Below, Mass, Rank, PrefixMass, Kept, Blocks, Members, BlockCount;
    var n, nb, bs := |g|, BlockCount(|g|, grp), Blocks(g, grp);
    var k, order := Kept(p, nb), Rank(bs);
    var B := Elements(order[..k]);
    InRange(order, nb, k);
    PrefixIsSet(bs, order, k);
    PrefixSize(order, nb, k);
    MembersWeigh(g, grp, B);
    SubsetSize(Members(B, grp, n), Below(n));
    TopIsHeaviest(g, Rank(g), Members(B, grp, n), Kept(p, n));
  }

  lemma {:induction false} SliceOnes(g: seq<real>, lo: nat, hi: nat)
    requires lo <= hi <= |g| && forall i :: 0 <= i < |g| ==> g[i] == 1.0
    ensures SliceSum(g, lo, hi) == (hi - lo) as real
    decreases hi
  {
    if lo >= hi {
    } else {
      SliceOnes(g, lo, hi - 1);
    }
  }

  function Identity(m: nat): (order: seq<nat>)
    ensures IsPermutation(order, m) && forall i :: 0 <= i < m ==> order[i] == i
  {
    seq(m, i requires 0 <= i < m => i)
  }

  /** Uniform scores: the first k blocks weigh as much as the pathways they span. */
  lemma {:induction false} UniformPrefix(g: seq<real>, grp: nat, k: nat)
    requires grp > 0 && k <= BlockCount(|g|, grp) && forall i :: 0 <= i < |g| ==> g[i] == 1.0
    ensures PrefixMass(Blocks(g, grp), Identity(BlockCount(|g|, grp)), k) == Edge(|g|, grp, k) as real
  {
    hide BlockCount;
    if k == 0 {
    } else {
      UniformPrefix(g, grp, k - 1);
      BlockStart(|g|, grp, k - 1);
      SliceOnes(g, (k - 1) * grp, Edge(|g|, grp, k));
    }
  }

  /** Uniform scores: the blocks are in descending order as they stand. */
  lemma UniformBlocks(g: seq<real>, grp: nat)
    requires grp > 0 && forall i :: 0 <= i < |g| ==> g[i] == 1.0
    ensures IsRanking(Identity(BlockCount(|g|, grp)), Blocks(g, grp))
  {
    hide BlockCount, SliceSum;
    var n, nb := |g|, BlockCount(|g|, grp);
    forall b | 0 <= b < nb
      ensures Blocks(g, grp)[b] <= grp as real && (b < nb - 1 ==> Blocks(g, grp)[b] == grp as real)
    {
      BlockStart(n, grp, b);
      AddOne(b, grp);
      SliceOnes(g, b * grp, BlockEnd(n, grp, b));
      if b < nb - 1 {
        BlockStart(n, grp, b + 1);
      }
    }
  }

  /** Uniform scores: the top k blocks, and the top k pathways. */
  lemma UniformTop(g: seq<real>, grp: nat, k: nat)
    requires grp > 0 && k <= BlockCount(|g|, grp) && forall i :: 0 <= i < |g| ==> g[i] == 1.0
    ensures TopMass(Blocks(g, grp), k) == Edge(|g|, grp, k) as real
  {
    hide Rank, PrefixMass, Blocks, BlockCount;
    UniformBlocks(g, grp);
    BlocksNonNegative(g, grp);
    UniformPrefix(g, grp, k);
    TopMassOf(Blocks(g, grp), Identity(BlockCount(|g|, grp)), k);
  }

  lemma WholePathways(g: seq<real>)
    ensures BlockCount(|g|, 1) == |g| && Blocks(g, 1) == g
  {
    forall b | 0 <= b < |g| ensures Block(g, 1, b) == g[b] {
      assert SliceSum(g, b, b + 1) == SliceSum(g, b, b) + g[b];
    }
  }

  lemma UniformTotal(g: seq<real>)
    requires forall i :: 0 <= i < |g| ==> g[i] == 1.0
    ensures Total(g) == |g| as real
  {
    hide Rank, Mass, Below, TopMass;
    WholePathways(g);
    UniformTop(g, 1, |g|);
    TopMassOf(g, Rank(g), |g|);
    FullPrefix(g, Rank(g));
  }

  /** Uniform scores: when the blocks kept span more pathways than are kept one by
      one, they outweigh them, a short last block or not. */
  lemma UniformBreaksIt(n: nat, grp: nat, p: real) returns (g: seq<real>)
    requires grp > 0 && p >= 0.0 && !Covered(n, grp, p)
    ensures |g| == n && NonNegative(g) && Total(g) > 0.0
    ensures TopMass(Blocks(g, grp), Kept(p, BlockCount(n, grp))) > TopMass(g, Kept(p, n))
  {
    hide TopMass, Kept, BlockCount, Blocks;
    g := seq(n, _ => 1.0);
    WholePathways(g);
    UniformTotal(g);
    UniformTop(g, grp, Kept(p, BlockCount(n, grp)));
    UniformTop(g, 1, Kept(p, n));
  }

  ghost predicate NeverGains(n: nat, grp: nat, p: real)
    requires grp > 0 && p >= 0.0
  {
    forall g: seq<real> :: |g| == n && NonNegative(g) ==> Retention(g, grp, p) <= Retention(g, 1, p)
  }

  /** Dividing by a positive total keeps the order. */
  lemma Quotients(a: real, b: real, tot: real)
    ensures tot > 0.0 && a <= b ==> a / tot <= b / tot
    ensures tot > 0.0 && a < b ==> a / tot < b / tot
  {
    if tot > 0.0 {
      assert b / tot - a / tot == (b - a) / tot;
    }
  }

  /** Block retention never exceeds pathway retention, for any scores, exactly when
      the blocks kept span no more pathways than are kept one by one. */
  lemma GranularityExact(n: nat, grp: nat, p: real)
    requires grp > 0 && p >= 0.0
    ensures NeverGains(n, grp, p) <==> Covered(n, grp, p)
  {
    hide Blocks, TopMass, Mass, Below, Kept, Covered, BlockCount;
    if Covered(n, grp, p) {
      forall g: seq<real> | |g| == n && NonNegative(g) ensures Retention(g, grp, p) <= Retention(g, 1, p) {
        WholePathways(g);
        BlocksRetainLess(g, grp, p);
        Quotients(TopMass(Blocks(g, grp), Kept(p, BlockCount(n, grp))), TopMass(g, Kept(p, n)), Total(g));
      }
    } else {
      var g := UniformBreaksIt(n, grp, p);
      WholePathways(g);
      Quotients(TopMass(g, Kept(p, n)), TopMass(Blocks(g, grp), Kept(p, BlockCount(n, grp))), Total(g));
    }
  }

  lemma FloorBelow(y: real, c: nat)
    requires y < c as real
    ensures y.Floor < c
  {
    assert y.Floor as real <= y;
  }

  lemma Below1(x: real, c: real)
    requires x < 1.0 && c > 0.0
    ensures Times(x, c) < c
  {
    assert (1.0 - x) * c > 0.0;
  }

  lemma ShortOfBlock(p: real, nb: nat, grp: nat)
    requires p >= 0.0 && nb >= 1 && grp > 1 && (p * nb as real).Floor < 1
    ensures Kept(p, nb) == 1 && Kept(p, nb * grp) < grp
  {
    hide Times;
    var x, m := p * nb as real, nb * grp;
    ScaledProduct(p, nb, grp);
    Below1(x, grp as real);
    FloorBelow(p * m as real, grp);
  }

  lemma SomeBlock(n: nat, grp: nat)
    requires n > 0 && grp > 0
    ensures BlockCount(n, grp) >= 1
  {
  }

  /** For a group size that divides the pathways, that is: blocks are single
      pathways, or p keeps at least one whole block. */
  lemma DividingExact(n: nat, grp: nat, p: real)
    requires grp > 0 && n > 0 && p >= 0.0 && n % grp == 0
    ensures Covered(n, grp, p) <==> grp == 1 || (p * BlockCount(n, grp) as real).Floor >= 1
  {
    hide Kept, BlockCount;
    var nb := BlockCount(n, grp);
    WholeBlocks(n, grp);
    SomeBlock(n, grp);
    if (p * nb as real).Floor >= 1 {
      KeptScales(p, nb, grp);
    } else if grp > 1 {
      ShortOfBlock(p, nb, grp);
      Multiples(1, nb, grp);
    } else {
      assert nb == n;
    }
  }

  /** Ragged blocks: a whole block is kept, and still blocks retain more. Three
      pathways in blocks of two, half of them kept. */
  lemma RaggedGains(g: seq<real>)
    requires g == [1.0, 1.0, 1.0]
    ensures (0.5 * BlockCount(3, 2) as real).Floor >= 1
    ensures TopMass(Blocks(g, 2), Kept(0.5, BlockCount(3, 2))) == 2.0 && TopMass(g, Kept(0.5, 3)) == 1.0
  {
    hide TopMass, Blocks;
    WholePathways(g);
    UniformTop(g, 2, 1);
    UniformTop(g, 1, 1);
  }
}
