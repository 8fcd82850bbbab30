/** What the expert cache keeps: predicates over its fields, and how single
    changes to a tensor affect them. */
module CacheState {
  import opened Experts
  import opened Eviction
  import opened Routing
  import opened Budgets

  const CHURN_WINDOW: nat := 64        // kChurnWindow_
  const EVICT_LOG_MAX: nat := 8192     // kEvictLogMax_

  datatype EvictRecord = EvictRecord(slice: Slice, clock: nat, used: bool)

  function Unused(log: seq<EvictRecord>): (c: nat)
    ensures c <= |log|
  {
    if log == [] then 0 else Unused(log[..|log| - 1]) + (if log[|log| - 1].used then 0 else 1)
  }

  lemma {:induction false} UnusedTail(log: seq<EvictRecord>)
    requires log != []
    ensures Unused(log) == Unused(log[1..]) + (if log[0].used then 0 else 1)
  {
    var n := |log| - 1;
    if n == 0 {
    } else {
      UnusedTail(log[..n]);
      assert log[..n][1..] == log[1..][..n - 1];
    }
  }

  lemma {:induction false} UnusedMark(log: seq<EvictRecord>, i: nat)
    requires i < |log| && !log[i].used
    ensures Unused(log[i := log[i].(used := true)]) == Unused(log) - 1
  {
    var n := |log| - 1;
    if i < n {
      assert log[i := log[i].(used := true)][..n] == log[..n][i := log[i].(used := true)];
      UnusedMark(log[..n], i);
    } else {
      assert log[i := log[i].(used := true)][..n] == log[..n];
    }
  }

  /** The bounded log after one more eviction: the oldest record makes room. */
  function Logged(log: seq<EvictRecord>, r: EvictRecord): seq<EvictRecord> {
    (if |log| >= EVICT_LOG_MAX then log[1..] else log) + [r]
  }

  /** The log is the last 8192 evictions, in order. */
  lemma LoggedIsLatest(log: seq<EvictRecord>, r: EvictRecord)
    requires |log| <= 8192
    ensures var all := log + [r];
      Logged(log, r) == if |all| <= 8192 then all else all[|all| - 8192..]
  {
  }

  lemma UnusedLogged(log: seq<EvictRecord>, r: EvictRecord)
    ensures Unused(Logged(log, r)) <= Unused(log) + 1
  {
    if |log| >= EVICT_LOG_MAX {
      UnusedTail(log);
      assert Logged(log, r)[..|log| - 1] == log[1..];
    } else {
      assert Logged(log, r)[..|log|] == log;
    }
  }

  /** Churn accounting: every re-read that counts has its own eviction. */
  ghost predicate Churn(evictions: nat, hot: nat, reread: nat, log: seq<EvictRecord>, clock: nat) {
    && reread + Unused(log) <= evictions
    && hot <= evictions
    && |log| <= EVICT_LOG_MAX
    && forall i :: 0 <= i < |log| ==> log[i].clock <= clock
  }

  /** The churn rate the summary prints. */
  function ChurnPercent(reread: nat, evictions: nat): nat
    requires evictions > 0
  {
    (reread * 100) / evictions
  }

  lemma ChurnAtMostAll(evictions: nat, hot: nat, reread: nat, log: seq<EvictRecord>, clock: nat)
    requires Churn(evictions, hot, reread, log, clock) && evictions > 0
    ensures var p := ChurnPercent(reread, evictions);
      p <= 100 && p * evictions <= reread * 100 < (p + 1) * evictions
  {
    var p := ChurnPercent(reread, evictions);
    assert reread * 100 <= 100 * evictions;
    DivBounds(reread * 100, evictions, 101);
    DivBounds(reread * 100, evictions, p);
    DivBounds(reread * 100, evictions, p + 1);
  }

  ghost predicate TensorPins(t: ExpertTensor, ceiling: nat) {
    && t.Valid()
    && forall id :: 0 <= id < t.size ==>
        && (!t.mapped ==> t.loaded[id])
        && (ceiling == 0 && t.pinned[id] ==> t.loaded[id])
  }

  /** Pin counters count pins; unmapped tensors are never dropped from; and with
      no byte ceiling pinned slices are loaded. */
  ghost predicate PinsKept(ts: Tensors, total: nat, current: nat, ceiling: nat) {
    && total == current == PinCount(ts)
    && forall i :: 0 <= i < |ts| ==> TensorPins(ts[i], ceiling)
  }

  ghost predicate AllLearned(ts: Tensors, h: seq<Record>, os: seq<Origin>) {
    |os| == |ts| && forall i :: 0 <= i < |ts| ==> Learned(ts[i], h, os[i])
  }

  ghost predicate HasLayer(ts: Tensors, l: int) {
    exists i :: 0 <= i < |ts| && ts[i].layer == l
  }

  /** The sorted, duplicate-free list of layers that have expert tensors. */
  ghost predicate Listed(ts: Tensors, layers: seq<int>) {
    && (forall i, j :: 0 <= i < j < |layers| ==> layers[i] < layers[j])
    && (forall l :: l in layers <==> HasLayer(ts, l))
  }

  /** Selections only ever name registered tensors. */
  ghost predicate OnlyTouches(n: nat, history: seq<Slice>) {
    forall s :: s in history ==> s.tensor < n
  }

  /** The ledger is the sum of the loaded slices. */
  ghost predicate LedgerIs(ts: Tensors, resident: nat) {
    AllValid(ts) && resident == LoadedBytes(ts)
  }

  /** Recency ticks are those of the selections so far. */
  ghost predicate TicksAre(ts: Tensors, history: seq<Slice>) {
    Clocked(ts, history) && OnlyTouches(|ts|, history)
  }

  /** Statistics are those of the trace, for the layers that have tensors. */
  ghost predicate StatsAre(ts: Tensors, h: seq<Record>, os: seq<Origin>, layers: seq<int>) {
    AllLearned(ts, h, os) && Listed(ts, layers) && NoneEmpty(h)
  }

  /** Bytes no eviction can reach. */
  function UnmappedBytes(ts: Tensors): nat {
    if ts == [] then 0
    else UnmappedBytes(ts[..|ts| - 1]) + (if ts[|ts| - 1].mapped then 0 else TensorBytes(ts[|ts| - 1]))
  }

  /** What enforcement can bring residency down to. Without a ceiling there is no
      enforcement and no credit. */
  function Floor(ts: Tensors, ceiling: nat): nat {
    if ceiling == 0 then 0
    else if UnmappedBytes(ts) > ceiling then UnmappedBytes(ts) else ceiling
  }

  ghost predicate BoundedBy(ts: Tensors, ceiling: nat, resident: nat, since: nat) {
    resident <= Floor(ts, ceiling) + since
  }

  /** Only residency, pins, recency and budget may differ. */
  ghost predicate SameStats(t: ExpertTensor, t': ExpertTensor) {
    t' == t.(loaded := t'.loaded, pinned := t'.pinned, lastUsed := t'.lastUsed, budget := t'.budget)
  }

  ghost predicate AllSameStats(ts: Tensors, ts': Tensors) {
    |ts'| == |ts| && forall i :: 0 <= i < |ts| ==> SameStats(ts[i], ts'[i])
  }

  lemma LearnedSame(t: ExpertTensor, t': ExpertTensor, h: seq<Record>, o: Origin)
    requires Learned(t, h, o) && SameStats(t, t') && t'.Valid()
    ensures Learned(t', h, o)
  {
  }

  lemma StatsKept(ts: Tensors, ts': Tensors, h: seq<Record>, os: seq<Origin>, layers: seq<int>)
    requires AllSameStats(ts, ts') && AllValid(ts')
    requires StatsAre(ts, h, os, layers)
    ensures StatsAre(ts', h, os, layers)
  {
    forall i | 0 <= i < |ts| ensures Learned(ts'[i], h, os[i]) {
      LearnedSame(ts[i], ts'[i], h, os[i]);
    }
    forall l: int ensures HasLayer(ts, l) <==> HasLayer(ts', l) {
      if i :| 0 <= i < |ts| && ts[i].layer == l {
        assert ts'[i].layer == l;
      }
      if i :| 0 <= i < |ts'| && ts'[i].layer == l {
        assert ts[i].layer == l;
      }
    }
  }

  /** Slots a tensor's residents are held to. */
  function Limit(t: ExpertTensor, maxActive: int): int {
    if t.budget > 0 then t.budget else maxActive
  }

  function Positives(s: seq<nat>): nat {
    if s == [] then 0 else Positives(s[..|s| - 1]) + (if s[|s| - 1] > 0 then 1 else 0)
  }

  function Demand(t: ExpertTensor): nat {
    var d := Positives(t.totalHits);
    if d == 0 then 1 else d
  }

  function Demands(ts: Tensors): (ds: seq<nat>)
    ensures |ds| == |ts|
    ensures ts != [] ==> Sum(ds) > 0
  {
    if ts == [] then []
    else
      var ds := Demands(ts[..|ts| - 1]) + [Demand(ts[|ts| - 1])];
      assert ds[..|ds| - 1] == Demands(ts[..|ts| - 1]);
      ds
  }

  lemma {:induction false} DemandsAre(ts: Tensors)
    ensures forall i :: 0 <= i < |ts| ==> Demands(ts)[i] == Demand(ts[i])
  {
    if ts == [] {
    } else {
      DemandsAre(ts[..|ts| - 1]);
    }
  }

  function Nonzero(s: seq<nat>): (r: set<nat>)
    ensures forall i: nat :: i in r <==> i < |s| && s[i] > 0
  {
    set i: nat | i < |s| && s[i] > 0
  }

  lemma {:induction false} PositivesAre(s: seq<nat>)
    ensures Positives(s) == |Nonzero(s)|
  {
    hide Nonzero;
    if s == [] {
      assert Nonzero(s) == {};
    } else {
      var n := |s| - 1;
      PositivesAre(s[..n]);
      assert Nonzero(s) == if s[n] > 0 then Nonzero(s[..n]) + {n} else Nonzero(s[..n]);
    }
  }

  /** The experts of a tensor that have ever been selected, a prior included. */
  function Used(t: ExpertTensor): (u: set<nat>)
    ensures forall id: nat :: id in u <==> id < |t.totalHits| && t.totalHits[id] > 0
  {
    Nonzero(t.totalHits)
  }

  /** A tensor's demand is how many of its experts were ever used, or one if none. */
  lemma DemandIs(t: ExpertTensor)
    ensures Demand(t) == if Used(t) == {} then 1 else |Used(t)|
  {
    hide Nonzero;
    PositivesAre(t.totalHits);
  }

  /** Every budget is in proportion to how many experts of its tensor were used. */
  ghost predicate FairBudgets(ts: Tensors, ts': Tensors, maxActive: nat) {
    |ts'| == |ts| && forall i :: 0 <= i < |ts| ==>
      Proportional(ts'[i].budget, if Used(ts[i]) == {} then 1 else |Used(ts[i])|, maxActive, |ts|, Sum(Demands(ts)))
  }

  function Rebudgeted(ts: Tensors, maxActive: int): (r: Tensors)
    ensures |r| == |ts|
  {
    if maxActive <= 0 then ts
    else seq(|ts|, i requires 0 <= i < |ts| => ts[i].(budget := Shares(Demands(ts), maxActive)[i]))
  }

  lemma RebudgetedFairly(ts: Tensors, maxActive: nat)
    requires maxActive > 0
    ensures FairBudgets(ts, Rebudgeted(ts, maxActive), maxActive)
    ensures forall i :: 0 <= i < |ts| ==> Demands(ts)[i] == if Used(ts[i]) == {} then 1 else |Used(ts[i])|
  {
    hide Demands, Share, Sum, Proportional, Used, Demand;
    DemandsAre(ts);
    forall i | 0 <= i < |ts|
      ensures Demands(ts)[i] == if Used(ts[i]) == {} then 1 else |Used(ts[i])|
      ensures Proportional(Rebudgeted(ts, maxActive)[i].budget, Demands(ts)[i], maxActive, |ts|, Sum(Demands(ts)))
    {
      DemandIs(ts[i]);
      ShareProportional(Demands(ts)[i], maxActive, |ts|, Sum(Demands(ts)));
    }
  }

  lemma {:induction false} UnmappedSame(ts: Tensors, ts': Tensors)
    requires |ts| == |ts'|
    requires forall i :: 0 <= i < |ts| ==> ts[i].mapped == ts'[i].mapped
    requires forall i :: 0 <= i < |ts| && !ts[i].mapped ==> ts'[i].loaded == ts[i].loaded && ts'[i].sliceBytes == ts[i].sliceBytes
    ensures UnmappedBytes(ts') == UnmappedBytes(ts)
    decreases |ts|
  {
    if ts == [] {
    } else {
      var n := |ts| - 1;
      assert forall i :: 0 <= i < n ==> ts[..n][i] == ts[i] && ts'[..n][i] == ts'[i];
      UnmappedSame(ts[..n], ts'[..n]);
    }
  }

  lemma FloorSame(ts: Tensors, ts': Tensors, ceiling: nat)
    requires |ts| == |ts'|
    requires forall i :: 0 <= i < |ts| ==> ts[i].mapped == ts'[i].mapped
    requires forall i :: 0 <= i < |ts| && !ts[i].mapped ==> ts'[i].loaded == ts[i].loaded && ts'[i].sliceBytes == ts[i].sliceBytes
    ensures Floor(ts', ceiling) == Floor(ts, ceiling)
  {
    UnmappedSame(ts, ts');
  }

  lemma {:induction false} NoOnes(b: seq<bool>)
    requires forall i :: 0 <= i < |b| ==> !b[i]
    ensures Ones(b) == 0
  {
    if b == [] {
    } else {
      NoOnes(b[..|b| - 1]);
    }
  }

  lemma {:induction false} UnmappedIsFloor(ts: Tensors)
    ensures UnmappedBytes(ts) <= LoadedBytes(ts)
    ensures (forall i :: 0 <= i < |ts| && ts[i].mapped ==> forall id :: 0 <= id < |ts[i].loaded| ==> !ts[i].loaded[id])
      ==> UnmappedBytes(ts) == LoadedBytes(ts)
    ensures (forall i :: 0 <= i < |ts| ==> ts[i].mapped) ==> UnmappedBytes(ts) == 0
  {
    if ts == [] {
    } else {
      var n := |ts| - 1;
      UnmappedIsFloor(ts[..n]);
      assert forall i :: 0 <= i < n ==> ts[..n][i] == ts[i];
      if forall id :: 0 <= id < |ts[n].loaded| ==> !ts[n].loaded[id] {
        NoOnes(ts[n].loaded);
      }
    }
  }

  method CountUsed(hits: seq<nat>) returns (count: nat)
    ensures count == Positives(hits)
  {
    count := 0;
    for i := 0 to |hits|
      invariant count == Positives(hits[..i])
    {
      assert hits[..i + 1][..i] == hits[..i];
      if hits[i] > 0 {
        count := count + 1;
      }
    }
    assert hits[..|hits|] == hits;
  }

  method MeasureDemand(ts: Tensors) returns (demands: seq<nat>, total: nat)
    requires AllValid(ts)
    ensures demands == Demands(ts) && total == Sum(demands)
  {
    demands, total := [], 0;
    for i := 0 to |ts|
      invariant demands == Demands(ts[..i]) && total == Sum(demands)
    {
      var distinct := CountUsed(ts[i].totalHits);
      if distinct == 0 {
        distinct := 1;
      }
      assert ts[..i + 1][..i] == ts[..i];
      ghost var before := demands;
      demands := demands + [distinct];
      assert demands[..|before|] == before;
      total := total + distinct;
    }
    assert ts[..|ts|] == ts;
  }

  lemma ClockKept(ts: Tensors, ts': Tensors, history: seq<Slice>)
    requires TicksAre(ts, history) && |ts'| == |ts|
    requires forall i :: 0 <= i < |ts| ==> ts'[i].lastUsed == ts[i].lastUsed
    ensures TicksAre(ts', history)
  {
  }

  /** Ticks stay below a clock that has not overflowed. */
  lemma TicksBelow(ts: Tensors, ti: nat, history: seq<Slice>)
    requires TicksAre(ts, history) && ti < |ts| && |history| < UINT64_MAX
    ensures Clocked(ts, history) && forall i :: 0 <= i < |ts[ti].lastUsed| ==> ts[ti].lastUsed[i] < UINT64_MAX
  {
  }

  lemma {:induction false} SumsSame(ts: Tensors, ts': Tensors)
    requires |ts| == |ts'|
    requires forall i :: 0 <= i < |ts| ==>
      ts'[i].loaded == ts[i].loaded && ts'[i].pinned == ts[i].pinned && ts'[i].sliceBytes == ts[i].sliceBytes
    ensures LoadedBytes(ts') == LoadedBytes(ts) && PinCount(ts') == PinCount(ts)
    decreases |ts|
  {
    if ts == [] {
    } else {
      var n := |ts| - 1;
      assert forall i :: 0 <= i < n ==> ts[..n][i] == ts[i] && ts'[..n][i] == ts'[i];
      SumsSame(ts[..n], ts'[..n]);
    }
  }

  lemma {:induction false} PinsSame(ts: Tensors, ts': Tensors)
    requires |ts| == |ts'|
    requires forall i :: 0 <= i < |ts| ==> ts'[i].pinned == ts[i].pinned
    ensures PinCount(ts') == PinCount(ts)
    decreases |ts|
  {
    if ts == [] {
    } else {
      var n := |ts| - 1;
      assert forall i :: 0 <= i < n ==> ts[..n][i] == ts[i] && ts'[..n][i] == ts'[i];
      PinsSame(ts[..n], ts'[..n]);
    }
  }

  lemma LoadKeepsPins(ts: Tensors, ts': Tensors, total: nat, current: nat, ceiling: nat)
    requires PinsKept(ts, total, current, ceiling) && AllValid(ts') && |ts'| == |ts|
    requires forall i :: 0 <= i < |ts| ==> ts'[i] == ts[i].(loaded := ts'[i].loaded)
    requires forall i, id :: 0 <= i < |ts| && 0 <= id < ts[i].size && ts[i].loaded[id] ==> ts'[i].loaded[id]
    ensures PinsKept(ts', total, current, ceiling)
  {
    PinsSame(ts, ts');
  }
}
