/** The expert residency cache of SteppeLoader, method by method. */
module ExpertCache {
  import opened Experts
  import opened Eviction
  import opened Routing
  import opened Budgets
  import opened CacheState
  import opened Ceiling
  import opened Ranking
  import opened PinPasses
  import opened PinHistory
  import opened PinBounds
  import opened Learning
  import opened Serving
  import opened Registration
  import Pilot
  import Collections

  class Cache {
    const maxActive: int       // config_.max_active_experts
    const usePilot: bool
    const pilotShare: real     // config_.pilot_mass
    var tensors: Tensors
    var moeLayers: seq<int>
    var residentBytes: nat
    var byteBudget: nat        // expert_budget_bytes_
    var pinnedTotal: nat
    var pinnedCurrent: nat
    var pinHits: nat
    var warmHits: nat
    var diskMiss: nat
    var prefetchCalls: nat
    var pilotCalls: nat
    var pilotReads: nat
    var evictions: nat
    var evictHot: nat
    var evictReread: nat
    var evictLog: seq<EvictRecord>
    var fromLayer: int         // pilot_from_layer_
    var fromIds: seq<int>      // pilot_from_ids_
    var eclock: nat
    var routingRecords: nat
    var imatrixSeeded: bool    // imatrix_seeded_
    ghost var touches: seq<Slice>   // every selection, in order
    ghost var trace: seq<Record>    // every router record, in order
    ghost var origins: seq<Origin>
    ghost var pinnings: seq<seq<Pinning>>   // every pinning of every tensor, in order
    ghost var prior: Prior          // when the imatrix prior was applied
    ghost var loadedSince: nat      // bytes loaded since the ceiling was last enforced

    ghost predicate Ledger()
      reads `tensors, `residentBytes
    {
      LedgerIs(tensors, residentBytes)
    }

    ghost predicate Ticks()
      reads `tensors, `touches, `eclock
    {
      TicksAre(tensors, touches) && eclock == |touches|
    }

    /** Every tick was a selection, classified once. */
    ghost predicate Clock()
      reads `tensors, `touches, `eclock, `pinHits, `warmHits, `diskMiss
    {
      Ticks() && pinHits + warmHits + diskMiss == eclock
    }

    ghost predicate Books()
      reads `tensors, `pinnedTotal, `pinnedCurrent, `byteBudget, `evictions, `evictHot, `evictReread, `evictLog, `eclock
    {
      && PinsKept(tensors, pinnedTotal, pinnedCurrent, byteBudget)
      && Churn(evictions, evictHot, evictReread, evictLog, eclock)
    }

    ghost predicate Stats()
      reads `tensors, `trace, `origins, `fromLayer, `fromIds, `moeLayers, `routingRecords
    {
      && StatsAre(tensors, trace, origins, moeLayers)
      && Remembers(trace, fromLayer, fromIds) && routingRecords == |trace|
    }

    /** Pins are the used tops of every pinning so far. */
    ghost predicate Pins()
      reads `tensors, `pinnings
    {
      AllPins(tensors, pinnings)
    }

    /** Between enforcements residency exceeds the ceiling, or the bytes no eviction
        can reach, by no more than what was loaded since. */
    ghost predicate Bounded()
      reads `tensors, `byteBudget, `residentBytes, `loadedSince
    {
      BoundedBy(tensors, byteBudget, residentBytes, loadedSince)
    }

    ghost predicate Core()
      reads `tensors, `residentBytes, `touches, `eclock, `pinHits, `warmHits, `diskMiss, `pinnedTotal, `pinnedCurrent,
        `byteBudget, `evictions, `evictHot, `evictReread, `evictLog, `trace, `origins, `fromLayer, `fromIds, `moeLayers,
        `routingRecords, `pinnings
    {
      Ledger() && Clock() && Books() && Stats() && Pins() && pilotShare >= 0.0
    }

    /** What holds between the steps of one operation. */
    ghost predicate Sound()
      reads `tensors, `residentBytes, `touches, `eclock, `pinHits, `warmHits, `diskMiss, `pinnedTotal, `pinnedCurrent,
        `byteBudget, `evictions, `evictHot, `evictReread, `evictLog, `trace, `origins, `fromLayer, `fromIds, `moeLayers,
        `routingRecords, `pinnings, `loadedSince
    {
      Core() && Bounded()
    }

    /** The pinnings are those of the records, registrations and prior so far. */
    ghost predicate Traced()
      reads `tensors, `trace, `origins, `pinnings, `prior, `imatrixSeeded
    {
      AllTraced(tensors, trace, origins, pinnings, prior, maxActive) && imatrixSeeded == prior.PriorAt?
    }

    ghost predicate Valid()
      reads `tensors, `residentBytes, `touches, `eclock, `pinHits, `warmHits, `diskMiss, `pinnedTotal, `pinnedCurrent,
        `byteBudget, `evictions, `evictHot, `evictReread, `evictLog, `trace, `origins, `fromLayer, `fromIds, `moeLayers,
        `routingRecords, `pinnings, `loadedSince, `prior, `imatrixSeeded
    {
      Sound() && Traced()
    }

    lemma LedgerValid()
      requires Ledger()
      ensures AllValid(tensors)
    {
    }

    lemma Facts()
      requires Core()
      ensures AllValid(tensors) && PinsKept(tensors, pinnedTotal, pinnedTotal, byteBudget) && pinnedCurrent == pinnedTotal
      ensures residentBytes == LoadedBytes(tensors) && |pinnings| == |tensors| && pilotShare >= 0.0
    {
    }

    lemma TicksCounted()
      requires Core()
      ensures eclock == |touches| && TicksAre(tensors, touches)
    {
    }

    lemma RecordsCounted()
      requires Core()
      ensures routingRecords == |trace|
    {
    }

    lemma Learns()
      requires Core()
      ensures AllLearned(tensors, trace, origins)
    {
    }

    /** In every reachable state the pins of a tensor are those its history of records,
        registrations and prior says, up to ties. */
    lemma PinsOfHistory(i: nat, N: nat)
      requires Valid() && i < |tensors|
      ensures |origins| == |tensors| && tensors[i].Valid()
      ensures EverSure(tensors, i, trace, origins, prior, maxActive)
        <= Pinned(tensors[i]) <= EverMaybe(tensors, i, trace, origins, prior, maxActive)
      ensures |EverMaybe(tensors, i, trace, origins, prior, maxActive)| <= N ==> |Pinned(tensors[i])| <= N
      ensures |Pinned(tensors[i])| <= N ==> |EverSure(tensors, i, trace, origins, prior, maxActive)| <= N
    {
      hide EverSure, EverMaybe, TensorTraced;
      Facts();
      PinsFollowHistory(tensors, i, trace, origins, pinnings, prior, maxActive);
      PinsWithin(tensors, i, trace, origins, pinnings, prior, maxActive, N);
    }

    constructor (maxActive: int, usePilot: bool, pilotShare: real, byteBudget: nat)
      requires pilotShare >= 0.0
      ensures Valid() && tensors == [] && this.byteBudget == byteBudget && trace == [] && eclock == 0 && pinnings == []
      ensures residentBytes == loadedSince == 0
      ensures this.maxActive == maxActive && this.usePilot == usePilot && this.pilotShare == pilotShare
      ensures !imatrixSeeded && prior == NoPrior
    {
      this.maxActive, this.usePilot, this.pilotShare, this.byteBudget := maxActive, usePilot, pilotShare, byteBudget;
      tensors, moeLayers, residentBytes := [], [], 0;
      pinnedTotal, pinnedCurrent, pinHits, warmHits, diskMiss := 0, 0, 0, 0, 0;
      prefetchCalls, pilotCalls, pilotReads := 0, 0, 0;
      evictions, evictHot, evictReread, evictLog := 0, 0, 0, [];
      fromLayer, fromIds, eclock, routingRecords := -1, [], 0, 0;
      touches, trace, origins := [], [], [];
      pinnings, loadedSince := [], 0;
      imatrixSeeded, prior := false, NoPrior;
    }

    // ---- slices in and out -----------------------------------------------------

    /** Drop a slice. The ledger always covers it, so the subtraction never clamps. */
    method Unload(ti: nat, id: nat)
      requires Ledger() && ti < |tensors| && id < tensors[ti].size && tensors[ti].loaded[id]
      modifies `tensors, `residentBytes
      ensures Ledger()
      ensures tensors == old(tensors)[ti := old(tensors)[ti].(loaded := old(tensors)[ti].loaded[id := false])]
      ensures residentBytes == old(residentBytes) - old(tensors)[ti].sliceBytes
    {
      var t := tensors[ti];
      SliceMoves(tensors, ti, id, false);
      tensors := tensors[ti := t.(loaded := t.loaded[id := false])];
      residentBytes := residentBytes - (if t.sliceBytes < residentBytes then t.sliceBytes else residentBytes);
    }

    method Load(ti: nat, id: nat)
      requires Ledger() && ti < |tensors| && id < tensors[ti].size && !tensors[ti].loaded[id]
      modifies `tensors, `residentBytes, `loadedSince
      ensures Ledger()
      ensures tensors == old(tensors)[ti := old(tensors)[ti].(loaded := old(tensors)[ti].loaded[id := true])]
      ensures residentBytes == old(residentBytes) + old(tensors)[ti].sliceBytes
      ensures loadedSince == old(loadedSince) + old(tensors)[ti].sliceBytes
    {
      var t := tensors[ti];
      SliceMoves(tensors, ti, id, true);
      tensors := tensors[ti := t.(loaded := t.loaded[id := true])];
      residentBytes := residentBytes + t.sliceBytes;
      loadedSince := loadedSince + t.sliceBytes;
    }

    // ---- two-pass eviction -----------------------------------------------------

    ghost predicate Churning()
      reads `evictions, `evictHot, `evictReread, `evictLog, `eclock
    {
      Churn(evictions, evictHot, evictReread, evictLog, eclock)
    }

    method CountEviction(ti: nat, id: nat)
      requires Churning() && ti < |tensors| && tensors[ti].Valid() && id < tensors[ti].size
      modifies `evictions, `evictHot, `evictLog
      ensures Churning()
      ensures evictions == old(evictions) + 1
      ensures evictHot == old(evictHot) + (if tensors[ti].windowHits[id] > HOT_PROTECT then 1 else 0)
      ensures evictLog == Logged(old(evictLog), EvictRecord(Slice(ti, id), eclock, false))
    {
      hide Unused;
      UnusedLogged(evictLog, EvictRecord(Slice(ti, id), eclock, false));
      evictions := evictions + 1;
      if tensors[ti].windowHits[id] > HOT_PROTECT {
        evictHot := evictHot + 1;
      }
      if |evictLog| >= EVICT_LOG_MAX {
        evictLog := evictLog[1..];
      }
      evictLog := evictLog + [EvictRecord(Slice(ti, id), eclock, false)];
    }

    /** Reclaim one victim: count it, log it, drop it. */
    method EvictSlice(ti: nat, id: nat)
      requires Ledger() && Churning() && ti < |tensors| && id < tensors[ti].size && tensors[ti].loaded[id]
      modifies `tensors, `residentBytes, `evictions, `evictHot, `evictLog
      ensures Ledger() && Churning()
      ensures tensors == old(tensors)[ti := old(tensors)[ti].(loaded := old(tensors)[ti].loaded[id := false])]
      ensures evictions == old(evictions) + 1
      ensures evictHot == old(evictHot) + (if old(tensors)[ti].windowHits[id] > HOT_PROTECT then 1 else 0)
      ensures evictLog == Logged(old(evictLog), EvictRecord(Slice(ti, id), eclock, false))
      ensures residentBytes <= old(residentBytes)
    {
      CountEviction(ti, id);
      Unload(ti, id);
    }

    /** One pass: reclaim eligible victims until none is left or enough are gone. */
    method Reclaim(ti: nat, coldOnly: bool, toEvict: nat, ghost t0: ExpertTensor, ghost V0: set<nat>)
      returns (rest: nat, ghost V: set<nat>)
      requires Ledger() && Churning() && ti < |tensors|
      requires t0.Valid() && tensors[ti] == Dropped(t0, V0) && FirstVictims(t0, V0)
      requires forall i :: 0 <= i < t0.size ==> t0.lastUsed[i] < UINT64_MAX
      requires !coldOnly && toEvict > 0 ==> forall c :: c in Candidates(t0) && c !in V0 ==> Hot(t0, c)
      modifies `tensors, `residentBytes, `evictions, `evictHot, `evictLog
      ensures Ledger() && Churning()
      ensures FirstVictims(t0, V) && V0 <= V && rest <= toEvict && |V| == |V0| + toEvict - rest
      ensures tensors == old(tensors)[ti := Dropped(t0, V)]
      ensures rest > 0 ==> forall c :: c in Candidates(t0) && c !in V ==> coldOnly && Hot(t0, c)
      ensures evictions == old(evictions) + toEvict - rest
      ensures evictHot == old(evictHot) + |HotOnes(t0, V)| - |HotOnes(t0, V0)|
      ensures residentBytes <= old(residentBytes)
    {
      hide FirstVictims, HotOnes, Churn, LoadedBytes;
      rest, V := toEvict, V0;
      while rest > 0
        invariant residentBytes <= old(residentBytes)
        invariant Ledger() && Churning()
        invariant FirstVictims(t0, V) && V0 <= V && rest <= toEvict && |V| == |V0| + toEvict - rest
        invariant tensors == old(tensors)[ti := Dropped(t0, V)]
        invariant evictions == old(evictions) + toEvict - rest
        invariant evictHot == old(evictHot) + |HotOnes(t0, V)| - |HotOnes(t0, V0)|
      {
        CandidatesLeft(t0, V);
        var victim := FindVictim(tensors[ti], coldOnly);
        if victim < 0 {
          break;
        }
        NextVictim(t0, V, coldOnly, victim);
        EvictSlice(ti, victim);
        V := V + {victim};
        rest := rest - 1;
      }
    }

    /** Both passes: cold slices first, then any. */
    method ReclaimExcess(ti: nat, excess: nat) returns (ghost V: set<nat>)
      requires Ledger() && Churning() && ti < |tensors|
      requires forall i :: 0 <= i < tensors[ti].size ==> tensors[ti].lastUsed[i] < UINT64_MAX
      modifies `tensors, `residentBytes, `evictions, `evictHot, `evictLog
      ensures Ledger() && Churning()
      ensures var t := old(tensors)[ti];
        && FirstVictims(t, V)
        && tensors == old(tensors)[ti := Dropped(t, V)]
        && evictions == old(evictions) + |V|
        && evictHot == old(evictHot) + |HotOnes(t, V)|
        && |V| == if excess < |Candidates(t)| then excess else |Candidates(t)|
      ensures residentBytes <= old(residentBytes)
    {
      hide HotOnes, Churn, LoadedBytes;
      ghost var t := tensors[ti];
      NoVictims(t);
      assert tensors[ti := t] == tensors;
      var rest, V1 := Reclaim(ti, true, excess, t, {});
      var left;
      left, V := Reclaim(ti, false, rest, t, V1);
      SubsetSize(V, Candidates(t));
      if left > 0 {
        assert V == Candidates(t);
      }
    }

    /** Eviction down to a tensor's budget. `V` is what was reclaimed. */
    method EvictToBudget(ti: nat) returns (ghost V: set<nat>)
      requires Ledger() && Churning() && ti < |tensors|
      requires forall i :: 0 <= i < tensors[ti].size ==> tensors[ti].lastUsed[i] < UINT64_MAX
      modifies `tensors, `residentBytes, `evictions, `evictHot, `evictLog
      ensures Ledger() && Churning()
      ensures var t := old(tensors)[ti];
        && |tensors| == |old(tensors)| && tensors == old(tensors)[ti := tensors[ti]]
        && EvictedTo(t, tensors[ti], V, Limit(t, maxActive))
        && evictions == old(evictions) + |V|
        && evictHot == old(evictHot) + |HotOnes(t, V)|
        && WithinBudget(tensors[ti], maxActive)
        && (Clocked(old(tensors), touches) ==> TookOldest(t, tensors[ti], ti, touches))
        && (if Limit(t, maxActive) > 0 && t.mapped && |Resident(t)| > Limit(t, maxActive)
            then |Resident(tensors[ti])| == if Limit(t, maxActive) < |Pinned(t)| then |Pinned(t)| else Limit(t, maxActive)
            else tensors == old(tensors))
      ensures residentBytes <= old(residentBytes)
    {
      hide TookOldest, Clocked;
      var t := tensors[ti];
      ghost var ts := tensors;
      V := {};
      DropNone(t);
      if Clocked(ts, touches) {
        NoVictims(t);
        VictimsOldest(ts, ti, {}, touches);
      }
      assert tensors[ti := t] == tensors;
      var limit := Limit(t, maxActive);
      if limit <= 0 || !t.mapped {
        return;
      }
      var resident := CountResidents(t);
      if resident <= limit {
        return;
      }
      V := ReclaimExcess(ti, resident - limit);
      ResidentAfter(t, V);
      assert Pinned(Dropped(t, V)) == Pinned(t);
      if Clocked(ts, touches) {
        VictimsOldest(ts, ti, V, touches);
      }
    }

    // ---- the byte ceiling ------------------------------------------------------

    /** Drop slices from the cold end until the ceiling is met; `k` were dropped. */
    method DropColdest(sorted: seq<Slice>) returns (ghost k: nat)
      requires Ledger() && Enumerates(tensors, sorted) && residentBytes > byteBudget
      modifies `tensors, `residentBytes, `evictions
      ensures Ledger() && k <= |sorted| && tensors == Without(old(tensors), sorted[..k])
      ensures residentBytes <= byteBudget || k == |sorted|
      ensures k > 0 ==> residentBytes + BytesAt(old(tensors), sorted[k - 1]) > byteBudget
      ensures evictions == old(evictions) + k
      ensures residentBytes <= old(residentBytes)
    {
      hide LoadedBytes, Enumerates, Without;
      ghost var ts := tensors;
      WithoutNone(ts);
      k := 0;
      for r := 0 to |sorted|
        invariant residentBytes <= old(residentBytes)
        invariant k == r && Ledger() && tensors == Without(ts, sorted[..r])
        invariant r > 0 ==> residentBytes + BytesAt(ts, sorted[r - 1]) > byteBudget
        invariant evictions == old(evictions) + r
      {
        var s := sorted[r];
        StillDroppable(ts, sorted, r);
        if residentBytes <= byteBudget {
          break;
        }
        if !tensors[s.tensor].loaded[s.id] {
          assert false;
        }
        WithoutOne(ts, sorted[..r], s);
        assert sorted[..r + 1] == sorted[..r] + [s];
        evictions := evictions + 1;
        Unload(s.tensor, s.id);
        k := k + 1;
      }
    }

    method DropOverflow(sorted: seq<Slice>) returns (ghost k: nat)
      requires Ledger() && Enumerates(tensors, sorted) && residentBytes > byteBudget
      modifies `tensors, `residentBytes, `evictions
      ensures Ledger() && k <= |sorted| && tensors == Without(old(tensors), sorted[..k])
      ensures residentBytes <= byteBudget <==> UnmappedBytes(old(tensors)) <= byteBudget
      ensures residentBytes <= byteBudget || k == |sorted|
      ensures k > 0 ==> residentBytes + BytesAt(old(tensors), sorted[k - 1]) > byteBudget
      ensures evictions == old(evictions) + k
      ensures residentBytes <= old(residentBytes) && (byteBudget > 0 ==> residentBytes <= Floor(old(tensors), byteBudget))
    {
      hide LoadedBytes, UnmappedBytes, Enumerates, Without;
      k := DropColdest(sorted);
      UnmappedIsFloor(tensors);
      UnmappedStay(old(tensors), sorted, k);
      if k == |sorted| {
        assert sorted[..k] == sorted;
        AllGone(old(tensors), sorted);
      }
    }

    /** enforce_expert_byte_ceiling. `sorted` are all droppable slices from the
        cold end, of which the first k are dropped. */
    method EnforceByteCeiling() returns (ghost sorted: seq<Slice>, ghost k: nat)
      requires Ledger() && Churning()
      modifies `tensors, `residentBytes, `evictions, `loadedSince
      ensures Ledger() && Churning()
      ensures Enumerates(old(tensors), sorted) && ColdFirst(old(tensors), sorted)
      ensures k <= |sorted| && tensors == Without(old(tensors), sorted[..k])
      ensures byteBudget == 0 || old(residentBytes) <= byteBudget ==> k == 0
      ensures byteBudget > 0 ==> (residentBytes <= byteBudget <==> UnmappedBytes(old(tensors)) <= byteBudget)
      ensures byteBudget > 0 ==> residentBytes <= byteBudget || k == |sorted|
      ensures k > 0 ==> residentBytes + BytesAt(old(tensors), sorted[k - 1]) > byteBudget
      ensures evictions == old(evictions) + k
      ensures residentBytes <= old(residentBytes) && (byteBudget > 0 ==> residentBytes <= Floor(old(tensors), byteBudget))
      ensures loadedSince == if byteBudget > 0 then 0 else old(loadedSince)
      ensures Clocked(old(tensors), touches) ==> DroppedOldest(old(tensors), tensors, touches)
    {
      hide DroppedOldest, Clocked, Unused, LoadedBytes, UnmappedBytes, Enumerates, ColdFirst, Without, AllValid;
      var slices := Collect(tensors);
      var inOrder := SortByRecency(tensors, slices);
      sorted, k := inOrder, 0;
      WithoutNone(tensors);
      UnmappedIsFloor(tensors);
      LedgerValid();
      if byteBudget == 0 || residentBytes <= byteBudget {
        assert sorted[..0] == [];
        if Clocked(tensors, touches) {
          CeilingDropsOldest(tensors, sorted, 0, touches);
        }
        loadedSince := if byteBudget > 0 then 0 else loadedSince;
        return;
      }
      if Clocked(tensors, touches) {
        forall n: nat | n <= |sorted| ensures DroppedOldest(tensors, Without(tensors, sorted[..n]), touches) {
          CeilingDropsOldest(tensors, sorted, n, touches);
        }
      }
      k := DropOverflow(inOrder);
      loadedSince := 0;
    }

    /** The ceiling a hybrid model gets when the budget is split. */
    method SetCeiling(bytes: nat)
      requires Valid() && byteBudget == 0
      modifies `byteBudget
      ensures Valid() && byteBudget == bytes
    {
      hide LoadedBytes, PinCount, TicksAre, Churn, StatsAre, AllTraced;
      byteBudget := bytes;
    }

    // ---- budgets and pins ------------------------------------------------------

    /** recompute_budgets: every tensor's share of the global cap. */
    method RecomputeBudgets()
      requires AllValid(tensors)
      modifies `tensors
      ensures tensors == Rebudgeted(old(tensors), maxActive)
      ensures maxActive > 0 ==> FairBudgets(old(tensors), tensors, maxActive)
    {
      hide FairBudgets, Demands, Demand, Used, Sum;
      if maxActive > 0 {
        RebudgetedFairly(tensors, maxActive);
      }
      if maxActive <= 0 || tensors == [] {
        return;
      }
      ghost var ts := tensors;
      var demands, total := MeasureDemand(tensors);
      var n := |demands|;
      var cap := maxActive * n;
      for i := 0 to n
        invariant |tensors| == n
        invariant forall j :: 0 <= j < n ==>
          tensors[j] == ts[j].(budget := if j < i then Shares(Demands(ts), maxActive)[j] else ts[j].budget)
      {
        var share := (demands[i] * cap) / total;
        if share < 1 {
          share := 1;
        }
        if share > maxActive {
          share := maxActive;
        }
        assert share == Share(demands[i], maxActive, n, total);
        tensors := tensors[i := tensors[i].(budget := share)];
      }
    }

    /** Pin one slice, faulting it in first. */
    method PinOne(ti: nat, id: nat)
      requires Ledger() && PinsKept(tensors, pinnedTotal, pinnedCurrent, byteBudget)
      requires ti < |tensors| && id < tensors[ti].size && !tensors[ti].pinned[id]
      modifies `tensors, `residentBytes, `pinnedTotal, `pinnedCurrent, `loadedSince
      ensures Ledger() && PinsKept(tensors, pinnedTotal, pinnedCurrent, byteBudget)
      ensures var t := old(tensors)[ti];
        tensors == old(tensors)[ti := t.(pinned := t.pinned[id := true], loaded := t.loaded[id := true])]
      ensures loadedSince - old(loadedSince) == residentBytes - old(residentBytes)
    {
      hide LoadedBytes, PinCount;
      ghost var ts := tensors;
      if !tensors[ti].loaded[id] && tensors[ti].mapped {
        Load(ti, id);
      }
      var t := tensors[ti];
      assert t.loaded == ts[ti].loaded[id := true];
      var t' := t.(pinned := t.pinned[id := true]);
      BytesSame(tensors, ti, t');
      PinUpdate(ts, ti, t');
      OnesUpdate(t.pinned, id, true);
      tensors := tensors[ti := t'];
      assert tensors == ts[ti := t'];
      pinnedTotal := pinnedTotal + 1;
      pinnedCurrent := pinnedCurrent + 1;
    }

    /** Pin the top `Limit` ranked slices with some use, loading those that were
        evicted. `weight` is the window count, or the seeded total. */
    method PinTop(ti: nat, weight: seq<real>) returns (ghost order: seq<nat>)
      requires Ledger() && PinsKept(tensors, pinnedTotal, pinnedCurrent, byteBudget)
      requires ti < |tensors| && |weight| == tensors[ti].size
      modifies `tensors, `residentBytes, `pinnedTotal, `pinnedCurrent, `loadedSince
      ensures Ledger() && PinsKept(tensors, pinnedTotal, pinnedCurrent, byteBudget)
      ensures IsRanking(order, weight)
      ensures var t := old(tensors)[ti];
        && |tensors| == |old(tensors)|
        && tensors == old(tensors)[ti := t.(pinned := tensors[ti].pinned, loaded := tensors[ti].loaded)]
        && PinnedTop(t, tensors[ti], weight, order, Limit(t, maxActive))
      ensures loadedSince - old(loadedSince) == residentBytes - old(residentBytes)
    {
      hide LoadedBytes, PinCount, Unused;
      ghost var t := tensors[ti];
      var ranked := SortDescending(weight);
      order := ranked;
      var topk := Limit(tensors[ti], maxActive);
      var rank := 0;
      assert tensors == tensors[ti := t.(pinned := t.pinned, loaded := t.loaded)];
      while rank < topk && rank < |weight|
        invariant loadedSince - old(loadedSince) == residentBytes - old(residentBytes)
        invariant 0 <= rank <= |weight| && (rank > 0 ==> rank <= topk)
        invariant Ledger() && PinsKept(tensors, pinnedTotal, pinnedCurrent, byteBudget)
        invariant |tensors| == |old(tensors)|
        invariant tensors == old(tensors)[ti := t.(pinned := tensors[ti].pinned, loaded := tensors[ti].loaded)]
        invariant PinnedTop(t, tensors[ti], weight, ranked, rank)
      {
        var id := ranked[rank];
        if tensors[ti].pinned[id] {
          rank := rank + 1;
          continue;
        }
        if weight[id] <= 0.0 {
          break;
        }
        PinOne(ti, id);
        rank := rank + 1;
      }
    }

    /** One tensor of a pin pass: pin its hottest, then evict down to budget. */
    method PinThenEvict(ti: nat) returns (ghost order: seq<nat>)
      requires Ledger() && Clock() && Books() && ti < |tensors| && tensors[ti].mapped && eclock < UINT64_MAX
      modifies `tensors, `residentBytes, `pinnedTotal, `pinnedCurrent, `evictions, `evictHot, `evictLog, `loadedSince
      ensures Ledger() && Clock() && Books()
      ensures |tensors| == |old(tensors)| && tensors == old(tensors)[ti := tensors[ti]]
      ensures PassResult(old(tensors)[ti], tensors[ti], maxActive)
      ensures var t := old(tensors)[ti];
        IsRanking(order, t.windowHits) && TopJoined(t, tensors[ti], t.windowHits, order, Limit(t, maxActive))
      ensures TookOldest(old(tensors)[ti], tensors[ti], ti, touches)
      ensures residentBytes - loadedSince <= old(residentBytes - loadedSince)
    {
      hide LoadedBytes, PinCount, Churn, TookOldest, TicksAre, Clocked, WithinBudget, PinnedThenEvicted, TopHotPinned;
      ghost var ts := tensors;
      order := PinTop(ti, tensors[ti].windowHits);
      ghost var t1 := tensors[ti];
      ghost var mid := tensors;
      ClockKept(ts, mid, touches);
      TicksBelow(mid, ti, touches);
      ghost var V := EvictToBudget(ti);
      assert tensors == mid[ti := Dropped(t1, V)];
      EvictKeepsPins(mid, ti, V, pinnedTotal, byteBudget);
      ClockKept(ts, tensors, touches);
      PassDone(ts[ti], t1, tensors[ti], order, V, maxActive);
      TookAfterPins(ts[ti], t1, tensors[ti], order, Limit(ts[ti], maxActive), ti, touches);
    }

    method PinAndEvict(ti: nat)
      requires Ledger() && Clock() && Books() && Pins() && ti < |tensors| && tensors[ti].mapped && eclock < UINT64_MAX
      modifies `tensors, `residentBytes, `pinnedTotal, `pinnedCurrent, `evictions, `evictHot, `evictLog, `loadedSince,
        `pinnings
      ensures Ledger() && Clock() && Books() && Pins()
      ensures |tensors| == |old(tensors)| && tensors == old(tensors)[ti := tensors[ti]]
      ensures PassResult(old(tensors)[ti], tensors[ti], maxActive)
      ensures |pinnings| == |tensors| && pinnings == old(pinnings)[ti := pinnings[ti]]
      ensures PinningOf(old(tensors)[ti], old(pinnings)[ti], pinnings[ti], maxActive, false)
      ensures TookOldest(old(tensors)[ti], tensors[ti], ti, touches)
      ensures residentBytes - loadedSince <= old(residentBytes - loadedSince)
    {
      hide Ledger, Clock, Books, PinsAre, TopHotPinned, PinnedThenEvicted, WithinBudget, TopJoined, TookOldest;
      LedgerValid();
      ghost var ts := tensors;
      ghost var order := PinThenEvict(ti);
      ghost var e := Pinning(ts[ti].windowHits, order, Limit(ts[ti], maxActive));
      PinsGain(ts[ti], tensors[ti], pinnings[ti], e);
      AllPinsUpdate(ts, pinnings, ti, tensors[ti], pinnings[ti] + [e]);
      pinnings := pinnings[ti := pinnings[ti] + [e]];
    }

    method PinEach()
      requires Ledger() && Clock() && Books() && Pins() && eclock < UINT64_MAX
      modifies `tensors, `residentBytes, `pinnedTotal, `pinnedCurrent, `evictions, `evictHot, `evictLog, `loadedSince, `pinnings
      ensures Ledger() && Clock() && Books() && Pins() && |tensors| == |old(tensors)|
      ensures AllEach(old(tensors), tensors, maxActive) && AllTookOldest(old(tensors), tensors, touches)
      ensures residentBytes - loadedSince <= old(residentBytes - loadedSince)
      ensures OnePinningMore(old(tensors), old(pinnings), pinnings, maxActive, false)
    {
      hide LoadedBytes, PinCount, Churn, TopHotPinned, PassResult, LastTouch, PinsAre, TookOldest;
      ghost var ts := tensors;
      for ti := 0 to |tensors|
        invariant residentBytes - loadedSince <= old(residentBytes - loadedSince)
        invariant Ledger() && Clock() && Books() && Pins() && |tensors| == |ts| == |pinnings| == |old(pinnings)|
        invariant forall i :: 0 <= i < ti ==> EachResult(ts[i], tensors[i], maxActive)
        invariant forall i: nat :: i < ti && ts[i].mapped ==> TookOldest(ts[i], tensors[i], i, touches)
        invariant forall i :: 0 <= i < ti ==> PinningOf(ts[i], old(pinnings)[i], pinnings[i], maxActive, false)
        invariant forall i :: ti <= i < |ts| ==> tensors[i] == ts[i] && pinnings[i] == old(pinnings)[i]
      {
        if !tensors[ti].mapped {
          continue;
        }
        PinAndEvict(ti);
      }
    }

    method RebudgetAndPin()
      requires Core() && eclock < UINT64_MAX
      modifies `tensors, `residentBytes, `pinnedTotal, `pinnedCurrent, `evictions, `evictHot, `evictLog, `loadedSince,
        `pinnings
      ensures Core() && AllValid(old(tensors)) && AllPassed(old(tensors), tensors, maxActive)
      ensures AllTookOldest(old(tensors), tensors, touches)
      ensures OnePinningMore(Rebudgeted(old(tensors), maxActive), old(pinnings), pinnings, maxActive, false)
      ensures residentBytes - loadedSince <= old(residentBytes - loadedSince)
    {
      hide AllValid, LedgerIs, PinsKept, AllPins, OnePinningMore, Churn, StatsAre, TicksAre, AllEach,
        AllSameStats, Rebudgeted, AllTookOldest;
      Facts();
      ghost var ts := tensors;
      RebudgetKeeps(ts, maxActive, touches, pinnedTotal, byteBudget, residentBytes, pinnings);
      RecomputeBudgets();
      PinEach();
      TookSinceRebudget(ts, maxActive, tensors, touches);
      LedgerValid();
      PassKeepsStats(ts, tensors, maxActive);
      StatsKept(ts, tensors, trace, origins, moeLayers);
    }

    /** The ceiling on a consistent cache: only residency changes. */
    method EnforceCeiling() returns (ghost sorted: seq<Slice>, ghost k: nat)
      requires Sound()
      modifies `tensors, `residentBytes, `evictions, `loadedSince
      ensures Sound() && AllValid(old(tensors)) && AllValid(tensors) && |tensors| == |old(tensors)|
      ensures Enumerates(old(tensors), sorted) && ColdFirst(old(tensors), sorted)
      ensures k <= |sorted| && tensors == Without(old(tensors), sorted[..k])
      ensures CappedBy(old(tensors), tensors, sorted, k, byteBudget)
      ensures SparesExactly(old(tensors), tensors, byteBudget)
      ensures DroppedOldest(old(tensors), tensors, touches)
      ensures forall i :: 0 <= i < |tensors| ==> tensors[i] == old(tensors)[i].(loaded := tensors[i].loaded)
      ensures forall i, id :: 0 <= i < |tensors| && 0 <= id < tensors[i].size && tensors[i].loaded[id] ==>
        old(tensors)[i].loaded[id]
      ensures byteBudget == 0 || old(residentBytes) <= byteBudget ==> k == 0
      ensures byteBudget > 0 ==> (residentBytes <= byteBudget <==> UnmappedBytes(old(tensors)) <= byteBudget)
      ensures k > 0 ==> residentBytes + BytesAt(old(tensors), sorted[k - 1]) > byteBudget
      ensures loadedSince == if byteBudget > 0 then 0 else old(loadedSince)
      ensures old(Traced()) ==> Traced()
    {
      hide LoadedBytes, PinCount, AllPins, Unused, StatsAre, UnmappedBytes, Enumerates, ColdFirst, Clocked, SparesExactly,
        TicksDistinct, AllTraced, DroppedOldest;
      ghost var ts := tensors;
      sorted, k := EnforceByteCeiling();
      UnmappedStay(ts, sorted, k);
      AllPinsStay(ts, tensors, pinnings);
      CeilingKeepsPins(ts, sorted, k, pinnedTotal, byteBudget);
      ClockKept(ts, tensors, touches);
      StatsKept(ts, tensors, trace, origins, moeLayers);
      ClockedDistinct(ts, touches);
      CeilingSparesExactly(ts, tensors, sorted, k, byteBudget);
      if old(Traced()) {
        TracedSame(ts, tensors, trace, origins, pinnings, prior, maxActive);
      }
    }

    /** maybe_pin_hot_experts: rebalance budgets, pin and evict tensor by tensor,
        then enforce the byte ceiling across all of them. */
    method MaybePinHotExperts()
      requires Sound() && eclock < UINT64_MAX
      modifies `tensors, `residentBytes, `pinnedTotal, `pinnedCurrent, `evictions, `evictHot, `evictLog, `loadedSince,
        `pinnings
      ensures Sound()
      ensures PinPass(old(tensors), tensors, maxActive, byteBudget)
      ensures PassTookOldest(old(tensors), tensors, touches)
      ensures byteBudget > 0 ==> (residentBytes <= byteBudget <==> UnmappedBytes(old(tensors)) <= byteBudget)
      ensures OnePinningMore(Rebudgeted(old(tensors), maxActive), old(pinnings), pinnings, maxActive, false)
      ensures byteBudget > 0 ==> loadedSince == 0
    {
      hide Core, OnePinningMore, LoadedBytes, TopHotPinned, WithinBudget, UnmappedBytes, AllPassed, PinPass, CappedBy, Without,
        Enumerates, ColdFirst, Traced, SparesExactly, DroppedOldest, AllTookOldest, PassTookOldest;
      ghost var ts := tensors;
      RebudgetAndPin();
      ghost var mid := tensors;
      PassKeepsUnmapped(ts, mid, maxActive);
      ghost var sorted, k := EnforceCeiling();
      CeilingKeepsPass(ts, mid, tensors, sorted, k, maxActive, byteBudget);
      PassedMapped(ts, mid, maxActive);
      CeilingTookOldest(ts, mid, tensors, touches);
    }

    // ---- router records --------------------------------------------------------

    method Remember(layer: int, ids: seq<int>)
      modifies `fromLayer, `fromIds, `routingRecords, `trace
      ensures fromLayer == layer && fromIds == ids && routingRecords == old(routingRecords) + 1
      ensures trace == old(trace) + [Record(layer, ids)]
    {
      fromLayer, fromIds := layer, ids;
      routingRecords := routingRecords + 1;
      trace := trace + [Record(layer, ids)];
    }

    /** The from-to loop, when the previous record belongs to the same token. */
    method LearnTransitions(layer: int, ids: seq<int>)
      requires AllValid(tensors)
      modifies `tensors
      ensures |tensors| == |old(tensors)| && AllValid(tensors)
      ensures forall i :: 0 <= i < |tensors| ==>
        TransStep(old(tensors)[i], tensors[i], fromIds, ids,
                  fromLayer >= 0 && layer > fromLayer && fromIds != [] && old(tensors)[i].layer == layer)
    {
      ghost var ts := tensors;
      if fromLayer >= 0 && layer > fromLayer && fromIds != [] {
        for ti := 0 to |tensors|
          invariant |tensors| == |ts|
          invariant forall i :: 0 <= i < ti ==> TransStep(ts[i], tensors[i], fromIds, ids, ts[i].layer == layer)
          invariant forall i :: ti <= i < |ts| ==> tensors[i] == ts[i]
        {
          var t := tensors[ti];
          if t.layer != layer {
            continue;
          }
          var trans := AddTransitions(t.trans, t.size, fromIds, ids);
          tensors := tensors[ti := t.(trans := trans)];
        }
      }
    }

    method CountHits(layer: int, ids: seq<int>)
      requires AllValid(tensors)
      modifies `tensors
      ensures |tensors| == |old(tensors)| && AllValid(tensors)
      ensures forall i :: 0 <= i < |tensors| ==> HitStep(old(tensors)[i], tensors[i], ids, old(tensors)[i].layer == layer)
    {
      ghost var ts := tensors;
      for ti := 0 to |tensors|
        invariant |tensors| == |ts|
        invariant forall i :: 0 <= i < ti ==> HitStep(ts[i], tensors[i], ids, ts[i].layer == layer)
        invariant forall i :: ti <= i < |ts| ==> tensors[i] == ts[i]
      {
        if tensors[ti].layer != layer {
          continue;
        }
        var t := AddHits(tensors[ti], ids);
        tensors := tensors[ti := t];
      }
    }

    method LearnTensors(layer: int, ids: seq<int>)
      requires AllValid(tensors) && StatsAre(tensors, trace, origins, moeLayers) && Remembers(trace, fromLayer, fromIds)
      modifies `tensors
      ensures |tensors| == |old(tensors)| && AllValid(tensors)
      ensures AllLearned(tensors, trace + [Record(layer, ids)], origins)
      ensures forall i :: 0 <= i < |tensors| ==> OnlyStats(old(tensors)[i], tensors[i])
    {
      hide AllLearned, OnlyStats, TransStep, HitStep, Remembers, Listed, NoneEmpty;
      ghost var ts := tensors;
      LearnTransitions(layer, ids);
      ghost var mid := tensors;
      CountHits(layer, ids);
      TransKeepsLayers(ts, mid, fromLayer, fromIds, Record(layer, ids));
      RecordAll(ts, mid, tensors, trace, origins, fromLayer, fromIds, Record(layer, ids));
    }

    method Learn(layer: int, ids: seq<int>)
      requires Sound() && ids != []
      modifies `tensors, `fromLayer, `fromIds, `routingRecords, `trace
      ensures Sound() && trace == old(trace) + [Record(layer, ids)]
      ensures |tensors| == |old(tensors)|
      ensures forall i :: 0 <= i < |tensors| ==> OnlyStats(old(tensors)[i], tensors[i])
    {
      hide AllValid, LedgerIs, TicksAre, StatsAre, AllPins, BoundedBy, PinsKept, Churn, AllLearned, OnlyStats, Remembers;
      ghost var ts := tensors;
      Facts();
      LearnTensors(layer, ids);
      StatsKeepRest(ts, tensors, touches, pinnedTotal, byteBudget, residentBytes, pinnings, loadedSince);
      StatsGrow(ts, tensors, trace, origins, moeLayers, Record(layer, ids));
      OneRecordMore(trace, Record(layer, ids));
      Remember(layer, ids);
    }

    /** record_routing: learn transitions and hits, then pin on cadence. `learned`
        are the tensors between the two. */
    method RecordRouting(layer: int, ids: seq<int>) returns (ghost learned: Tensors)
      requires Valid() && eclock < UINT64_MAX
      modifies `tensors, `residentBytes, `pinnedTotal, `pinnedCurrent, `evictions, `evictHot, `evictLog,
        `fromLayer, `fromIds, `routingRecords, `trace, `loadedSince, `pinnings
      ensures Valid()
      ensures trace == if ids == [] then old(trace) else old(trace) + [Record(layer, ids)]
      ensures ids == [] ==> tensors == old(tensors)
      ensures |learned| == |old(tensors)| && forall i :: 0 <= i < |learned| ==> OnlyStats(old(tensors)[i], learned[i])
      ensures ids != [] ==> if PinsNow(|trace|) then PinPass(learned, tensors, maxActive, byteBudget) else tensors == learned
      ensures ids != [] && PinsNow(|trace|) ==> PassTookOldest(learned, tensors, touches)
      ensures ids != [] && PinsNow(|trace|) && byteBudget > 0 ==>
        (residentBytes <= byteBudget <==> UnmappedBytes(old(tensors)) <= byteBudget)
      ensures SameTensors(old(tensors), tensors)
      ensures if ids != [] && PinsNow(|trace|) then
          OnePinningMore(Rebudgeted(learned, maxActive), old(pinnings), pinnings, maxActive, false)
          && (byteBudget > 0 ==> loadedSince == 0)
        else pinnings == old(pinnings) && loadedSince == old(loadedSince) && residentBytes == old(residentBytes)
    {
      hide Core, Bounded, AllTraced, Rebudgeted, PinPass, OnePinningMore, UnmappedBytes, LoadedBytes, AllLearned, OnlyStats,
        SameTensors, PassTookOldest;
      SameTensorsRefl(tensors);
      learned := tensors;
      Facts();
      OnlyStatsRefl(tensors);
      if ids == [] {
        return;
      }
      ghost var ts, h, ess := tensors, trace, pinnings;
      Learns();
      Learn(layer, ids);
      learned := tensors;
      Learns();
      StatsKeepTensors(ts, learned);
      StatsKeepUnmapped(ts, learned);
      RecordsCounted();
      if routingRecords == WARMUP_LAYERS {
        MaybePinHotExperts();
        PassKeepsTensors(ts, learned, tensors, maxActive, byteBudget);
      } else if routingRecords > WARMUP_LAYERS && routingRecords % LOG_EVERY_LAYERS == 0 {
        MaybePinHotExperts();
        PassKeepsTensors(ts, learned, tensors, maxActive, byteBudget);
      }
      RecordTraced(ts, learned, tensors, h, Record(layer, ids), origins, ess, pinnings, prior, maxActive, byteBudget);
    }

    // ---- serving the router ----------------------------------------------------

    /** Was this slice evicted recently? Then its re-read is churn, and the first
        unused record of it is used up. */
    method NoteReread(s: Slice)
      requires Churning()
      modifies `evictReread, `evictLog
      ensures Churning()
      ensures Noted(old(evictLog), evictLog, old(evictReread), evictReread, s, eclock)
    {
      hide Unused;
      for i := 0 to |evictLog|
        invariant forall j :: 0 <= j < i ==> !Rereads(evictLog[j], s, eclock)
      {
        var rec := evictLog[i];
        if !rec.used && rec.slice == s && eclock - rec.clock < CHURN_WINDOW {
          UnusedMark(evictLog, i);
          assert FirstReread(evictLog, s, eclock, i);
          evictReread := evictReread + 1;
          evictLog := evictLog[i := rec.(used := true)];
          return;
        }
      }
    }

    /** touch. */
    method Touch(ti: nat, id: nat)
      requires Ledger() && Ticks() && Books() && ti < |tensors| && id < tensors[ti].size
      modifies `tensors, `eclock, `touches
      ensures Ledger() && Ticks() && Books() && eclock == old(eclock) + 1
      ensures tensors == old(tensors)[ti := old(tensors)[ti].(lastUsed := old(tensors)[ti].lastUsed[id := old(eclock) + 1])]
      ensures touches == old(touches) + [Slice(ti, id)]
    {
      hide LoadedBytes, Unused, PinCount;
      TouchKeeps(tensors, ti, id, touches, pinnedTotal, pinnedCurrent, byteBudget);
      var t := tensors[ti];
      eclock := eclock + 1;
      tensors := tensors[ti := t.(lastUsed := t.lastUsed[id := eclock])];
      touches := touches + [Slice(ti, id)];
    }

    /** Touch a selected slice and classify the access. */
    method Access(ti: nat, id: nat) returns (miss: bool)
      requires Ledger() && Clock() && Books() && ti < |tensors| && id < tensors[ti].size
      modifies `tensors, `eclock, `touches, `pinHits, `warmHits, `diskMiss, `evictReread, `evictLog
      ensures Ledger() && Clock() && Books()
      ensures var t := old(tensors)[ti];
        && tensors == old(tensors)[ti := t.(lastUsed := t.lastUsed[id := old(eclock) + 1])]
        && miss == (!t.pinned[id] && !t.loaded[id])
        && pinHits == old(pinHits) + (if t.pinned[id] then 1 else 0)
        && warmHits == old(warmHits) + (if !t.pinned[id] && t.loaded[id] then 1 else 0)
        && diskMiss == old(diskMiss) + (if miss then 1 else 0)
      ensures touches == old(touches) + [Slice(ti, id)]
      ensures if miss then Noted(old(evictLog), evictLog, old(evictReread), evictReread, Slice(ti, id), eclock)
        else evictLog == old(evictLog) && evictReread == old(evictReread)
    {
      hide LoadedBytes, PinsKept, Unused, TicksAre, Noted;
      var t := tensors[ti];
      Touch(ti, id);
      miss := false;
      if t.pinned[id] {
        pinHits := pinHits + 1;
      } else if t.loaded[id] {
        warmHits := warmHits + 1;
      } else {
        diskMiss := diskMiss + 1;
        NoteReread(Slice(ti, id));
        miss := true;
      }
    }

    /** Bring every wanted slice of a tensor in. */
    method LoadAll(ti: nat, wanted: set<nat>)
      requires Ledger() && PinsKept(tensors, pinnedTotal, pinnedCurrent, byteBudget) && ti < |tensors|
      requires forall id :: id in wanted ==> id < tensors[ti].size && !tensors[ti].loaded[id]
      modifies `tensors, `residentBytes, `loadedSince
      ensures Ledger() && PinsKept(tensors, pinnedTotal, pinnedCurrent, byteBudget)
      ensures |tensors| == |old(tensors)|
      ensures tensors == old(tensors)[ti := old(tensors)[ti].(loaded := tensors[ti].loaded)]
      ensures forall id: nat :: id < tensors[ti].size ==>
        (tensors[ti].loaded[id] <==> old(tensors)[ti].loaded[id] || id in wanted)
      ensures loadedSince - old(loadedSince) == residentBytes - old(residentBytes)
    {
      hide LoadedBytes, PinCount;
      ghost var ts := tensors;
      var left := wanted;
      assert tensors == ts[ti := ts[ti].(loaded := ts[ti].loaded)];
      while left != {}
        invariant loadedSince - old(loadedSince) == residentBytes - old(residentBytes)
        invariant left <= wanted && Ledger() && |tensors| == |ts|
        invariant tensors == ts[ti := ts[ti].(loaded := tensors[ti].loaded)]
        invariant forall id: nat :: id < ts[ti].size ==>
          (tensors[ti].loaded[id] <==> ts[ti].loaded[id] || (id in wanted && id !in left))
        decreases |left|
      {
        var id := Collections.SomeNat(left);
        Load(ti, id);
        left := left - {id};
      }
      LoadKeepsPins(ts, tensors, pinnedTotal, pinnedCurrent, byteBudget);
    }

    /** The first half of a tensor's turn: touch and classify every valid selected
        id; the misses are wanted. */
    method AccessAll(ti: nat, ids: seq<int>) returns (wanted: set<nat>)
      requires Ledger() && Clock() && Books() && ti < |tensors|
      modifies `tensors, `eclock, `touches, `pinHits, `warmHits, `diskMiss, `evictReread, `evictLog
      ensures Ledger() && Clock() && Books() && |tensors| == |old(tensors)|
      ensures tensors == old(tensors)[ti := old(tensors)[ti].(lastUsed := tensors[ti].lastUsed)]
      ensures var t := old(tensors)[ti];
        forall id: nat :: id in wanted <==> id < t.size && id in ids && !t.pinned[id] && !t.loaded[id]
      ensures touches == old(touches) + Selections(ti, old(tensors)[ti].size, ids)
      ensures Tallied(old(tensors), Selections(ti, old(tensors)[ti].size, ids),
        old(pinHits), old(warmHits), old(diskMiss), pinHits, warmHits, diskMiss)
    {
      hide Ledger, Clock, Books, Tallied, Noted;
      LedgerValid();
      ghost var ts := tensors;
      ghost var t := tensors[ti];
      wanted := {};
      assert tensors == ts[ti := t.(lastUsed := t.lastUsed)];
      assert ids[..0] == [];
      NothingTallied(ts, pinHits, warmHits, diskMiss);
      for i := 0 to |ids|
        invariant Ledger() && Clock() && Books() && |tensors| == |ts|
        invariant tensors == ts[ti := t.(lastUsed := tensors[ti].lastUsed)]
        invariant forall id: nat :: id in wanted <==> id < t.size && id in ids[..i] && !t.pinned[id] && !t.loaded[id]
        invariant Tallied(ts, Selections(ti, t.size, ids[..i]), old(pinHits), old(warmHits), old(diskMiss),
                          pinHits, warmHits, diskMiss)
        invariant touches == old(touches) + Selections(ti, t.size, ids[..i])
      {
        TalliedOne(ts, tensors, ti, ids, i, old(pinHits), old(warmHits), old(diskMiss), pinHits, warmHits, diskMiss);
        assert ids[..i + 1] == ids[..i] + [ids[i]];
        if ids[i] < 0 || ids[i] >= tensors[ti].size {
          continue;
        }
        var miss := Access(ti, ids[i]);
        if miss {
          wanted := wanted + {ids[i]};
        }
      }
      assert ids[..|ids|] == ids;
    }

    /** One tensor of prefetch_experts. */
    method PrefetchTensor(ti: nat, ids: seq<int>)
      requires Ledger() && Clock() && Books() && ti < |tensors|
      modifies `tensors, `residentBytes, `eclock, `touches, `pinHits, `warmHits, `diskMiss, `evictReread, `evictLog, `loadedSince
      ensures Ledger() && Clock() && Books() && |tensors| == |old(tensors)|
      ensures tensors == old(tensors)[ti := tensors[ti]] && Served(old(tensors)[ti], tensors[ti], ids)
      ensures touches == old(touches) + Selections(ti, old(tensors)[ti].size, ids)
      ensures loadedSince - old(loadedSince) == residentBytes - old(residentBytes)
      ensures Tallied(old(tensors), Selections(ti, old(tensors)[ti].size, ids),
        old(pinHits), old(warmHits), old(diskMiss), pinHits, warmHits, diskMiss)
    {
      hide LoadedBytes, PinsKept, Churn, TicksAre, Selections, Tallied;
      var wanted := AccessAll(ti, ids);
      ghost var ts := tensors;
      LoadAll(ti, wanted);
      ClockKept(ts, tensors, touches);
    }

    method PrefetchEach(layer: int, ids: seq<int>)
      requires Ledger() && Clock() && Books()
      modifies `tensors, `residentBytes, `eclock, `touches, `pinHits, `warmHits, `diskMiss, `evictReread, `evictLog, `loadedSince
      ensures Ledger() && Clock() && Books() && AllServed(old(tensors), tensors, layer, ids)
      ensures touches == old(touches) + AllSelections(old(tensors), layer, ids)
      ensures loadedSince - old(loadedSince) == residentBytes - old(residentBytes)
      ensures Tallied(old(tensors), AllSelections(old(tensors), layer, ids),
        old(pinHits), old(warmHits), old(diskMiss), pinHits, warmHits, diskMiss)
    {
      hide Served, Ledger, Clock, Books, AllSelections, Tallied, Selections;
      ghost var ts := tensors;
      NoSelections(layer, ids);
      assert ts[..0] == [];
      NothingTallied(ts, pinHits, warmHits, diskMiss);
      for ti := 0 to |tensors|
        invariant loadedSince - old(loadedSince) == residentBytes - old(residentBytes)
        invariant Ledger() && Clock() && Books() && |tensors| == |ts|
        invariant forall i :: 0 <= i < ti ==> ServedAt(ts[i], tensors[i], layer, ids)
        invariant forall i :: ti <= i < |ts| ==> tensors[i] == ts[i]
        invariant Tallied(ts, AllSelections(ts[..ti], layer, ids), old(pinHits), old(warmHits), old(diskMiss),
                          pinHits, warmHits, diskMiss)
        invariant touches == old(touches) + AllSelections(ts[..ti], layer, ids)
      {
        MoreSelections(ts, ti, layer, ids);
        LedgerValid();
        if tensors[ti].layer != layer || !tensors[ti].mapped || tensors[ti].sliceBytes == 0 {
          continue;
        }
        ghost var now, p, w, d := tensors, pinHits, warmHits, diskMiss;
        PrefetchTensor(ti, ids);
        TalliedNext(ts, now, AllSelections(ts[..ti], layer, ids), ti, ids, old(pinHits), old(warmHits), old(diskMiss), p, w, d,
          pinHits, warmHits, diskMiss);
      }
      assert ts[..|ts|] == ts;
    }

    /** prefetch_experts: every mapped tensor of the layer serves the selection. */
    method PrefetchExperts(layer: int, ids: seq<int>)
      requires Valid()
      modifies `tensors, `residentBytes, `eclock, `touches, `pinHits, `warmHits, `diskMiss, `evictReread, `evictLog,
        `prefetchCalls, `loadedSince
      ensures Valid() && AllServed(old(tensors), tensors, layer, ids)
      ensures touches == old(touches) + AllSelections(old(tensors), layer, ids)
      ensures loadedSince - old(loadedSince) == residentBytes - old(residentBytes)
      ensures Tallied(old(tensors), AllSelections(old(tensors), layer, ids),
        old(pinHits), old(warmHits), old(diskMiss), pinHits, warmHits, diskMiss)
    {
      hide LoadedBytes, AllPins, Floor, TicksAre, PinsKept, Churn, StatsAre, AllServed, AllSelections, Tallied, AllTraced;
      ghost var ts := tensors;
      LedgerValid();
      NothingTallied(tensors, pinHits, warmHits, diskMiss);
      NothingSelected(tensors, layer);
      NothingServed(tensors, layer);
      if ids == [] {
        return;
      }
      prefetchCalls := prefetchCalls + 1;
      PrefetchEach(layer, ids);
      LedgerValid();
      ServedKeepsPins(ts, tensors, layer, ids, pinnings, byteBudget, pinnedTotal, pinnedCurrent);
      ServedKeepsStats(ts, tensors, layer, ids);
      StatsKept(ts, tensors, trace, origins, moeLayers);
      ServedTraced(ts, tensors, layer, ids, trace, origins, pinnings, prior, maxActive);
    }

    // ---- PILOT -----------------------------------------------------------------

    /** The next layer, after this one, that has expert tensors; -1 if none. */
    method NextLayer(layer: int) returns (next: int)
      requires Listed(tensors, moeLayers)
      ensures NextChosen(tensors, layer, next)
    {
      next := -1;
      for i := 0 to |moeLayers|
        invariant next == -1
        invariant forall j :: 0 <= j < i ==> moeLayers[j] <= layer
      {
        if moeLayers[i] > layer {
          next := moeLayers[i];
          forall l | HasLayer(tensors, l) && l > layer ensures l >= next {
            assert l in moeLayers;
          }
          assert next in moeLayers;
          return;
        }
      }
      forall l | HasLayer(tensors, l) ensures l <= layer {
        assert l in moeLayers;
      }
    }

    /** The prediction from one tensor's transitions. */
    method PredictTensor(t: ExpertTensor, ids: seq<int>) returns (p: set<nat>)
      requires t.Valid() && pilotShare >= 0.0
      ensures PilotChoice(t, ids, maxActive, pilotShare, p)
    {
      p := Pilot.Predict(t.trans, t.size, ids, Limit(t, maxActive), pilotShare);
    }

    /** The union of the predictions of the layer's tensors; `parts` are the
        separate predictions. */
    method PredictLayer(next: int, ids: seq<int>) returns (predicted: set<nat>, ghost parts: seq<set<nat>>)
      requires AllValid(tensors) && pilotShare >= 0.0
      ensures Predicted(tensors, next, ids, maxActive, pilotShare, parts, predicted)
    {
      hide PilotChoice, Unites;
      predicted, parts := {}, [];
      UniteNone();
      for ti := 0 to |tensors|
        invariant |parts| == ti
        invariant forall i :: 0 <= i < ti ==>
          if tensors[i].layer == next then PilotChoice(tensors[i], ids, maxActive, pilotShare, parts[i]) else parts[i] == {}
        invariant Unites(parts, predicted)
      {
        var t := tensors[ti];
        if t.layer != next {
          UniteOne(parts, predicted, {});
          parts := parts + [{}];
          predicted := predicted + {};
        } else {
          var p := PredictTensor(t, ids);
          UniteOne(parts, predicted, p);
          predicted := predicted + p;
          parts := parts + [p];
        }
      }
    }

    method ChooseNext(layer: int) returns (next: int)
      requires Valid()
      ensures NextChosen(tensors, layer, next)
    {
      next := NextLayer(layer);
    }

    method PrefetchPredicted(next: int, predicted: set<nat>)
      requires Valid()
      modifies `tensors, `residentBytes, `eclock, `touches, `pinHits, `warmHits, `diskMiss, `evictReread, `evictLog,
        `prefetchCalls, `loadedSince
      ensures Valid()
      ensures ServedSet(old(tensors), tensors, next, predicted)
      ensures Touched(old(touches), touches, old(tensors), next, predicted)
      ensures loadedSince - old(loadedSince) == residentBytes - old(residentBytes)
    {
      hide Core, Bounded, Traced, AllServed, ServedSet, Touched, AllSelections;
      var asked := Collections.Listing(predicted);
      ghost var ts, history := tensors, touches;
      PrefetchExperts(next, asked);
      ServedListing(ts, tensors, next, predicted, asked);
      TouchedListing(history, ts, next, predicted, asked);
    }

    /** The prediction of a pilot call, for the next layer with experts. */
    method Foresee(layer: int, ids: seq<int>) returns (next: int, predicted: set<nat>, ghost parts: seq<set<nat>>)
      requires Valid()
      ensures AllValid(tensors) && Piloted(tensors, layer, ids, usePilot, maxActive, pilotShare, next, parts, predicted)
    {
      hide Core, Bounded, Traced, Predicted, NextChosen;
      Facts();
      next, predicted, parts := -1, {}, [];
      if !usePilot || ids == [] {
        return;
      }
      next := ChooseNext(layer);
      if next < 0 {
        return;
      }
      predicted, parts := PredictLayer(next, ids);
    }

    /** pilot_prefetch_next_layer: predict for the next layer with experts and
        read the prediction ahead. */
    method PilotPrefetch(layer: int, ids: seq<int>) returns (next: int, predicted: set<nat>, ghost parts: seq<set<nat>>)
      requires Valid()
      modifies `tensors, `residentBytes, `eclock, `touches, `pinHits, `warmHits, `diskMiss, `evictReread, `evictLog,
        `prefetchCalls, `pilotCalls, `pilotReads, `loadedSince
      ensures Valid()
      ensures Piloted(old(tensors), layer, ids, usePilot, maxActive, pilotShare, next, parts, predicted)
      ensures ServedSet(old(tensors), tensors, next, predicted)
      ensures Touched(old(touches), touches, old(tensors), next, predicted)
      ensures pilotReads == old(pilotReads) + |predicted|
      ensures pilotCalls == old(pilotCalls) + (if predicted != {} then 1 else 0)
      ensures loadedSince - old(loadedSince) == residentBytes - old(residentBytes)
    {
      hide Core, Bounded, Traced, Piloted, ServedSet, AllServed, Touched;
      next, predicted, parts := Foresee(layer, ids);
      NothingServed(tensors, next);
      NothingTouched(touches, touches, tensors, next);
      if predicted == {} {
        return;
      }
      pilotCalls := pilotCalls + 1;
      pilotReads := pilotReads + |predicted|;
      PrefetchPredicted(next, predicted);
    }

    // ---- the composed router step ----------------------------------------------

    /** on_router_computed: record, then prefetch, then pilot; `run` is what each
        of the three left behind. */
    method OnRouterComputed(layer: int, ids: seq<int>) returns (ghost run: RouterRun)
      requires Valid() && eclock < UINT64_MAX
      modifies `tensors, `residentBytes, `pinnedTotal, `pinnedCurrent, `pinHits, `warmHits, `diskMiss, `prefetchCalls,
        `pilotCalls, `pilotReads, `evictions, `evictHot, `evictReread, `evictLog, `fromLayer, `fromIds, `eclock,
        `routingRecords, `touches, `trace, `pinnings, `loadedSince
      ensures Valid()
      ensures ids == [] ==> tensors == old(tensors) && trace == old(trace) && touches == old(touches)
      ensures ids != [] ==>
        Touched(old(touches) + AllSelections(run.routed, layer, ids), touches, run.served, run.next, run.predicted)
      ensures ids != [] ==> trace == old(trace) + [Record(layer, ids)]
      ensures ids != [] ==>
        RouterSteps(old(tensors), tensors, layer, ids, run, PinsNow(|trace|), usePilot, maxActive, pilotShare, byteBudget)
      ensures SameTensors(old(tensors), run.routed) && |tensors| == |run.routed|
      ensures AllRouterServed(run.routed, tensors, layer, ids, byteBudget)
      ensures ids != [] ==> AllEntryServed(old(tensors), tensors, layer, ids, PinsNow(|trace|), byteBudget)
      ensures if ids != [] && PinsNow(|trace|) then
          OnePinningMore(Rebudgeted(run.learned, maxActive), old(pinnings), pinnings, maxActive, false)
          && (byteBudget > 0 ==> loadedSince == LoadedBytes(tensors) - LoadedBytes(run.routed))
        else pinnings == old(pinnings) && loadedSince - old(loadedSince) == residentBytes - old(residentBytes)
    {
      hide Core, Bounded, Traced, LoadedBytes, OnePinningMore, AllServed, ServedSet, Piloted, SameTensors, PinPass, UnmappedBytes,
        PinsKept, OnlyStats, AllRouterServed, AllEntryServed, AllValid, Rebudgeted, Touched, AllSelections;
      ghost var ts, total := tensors, pinnedTotal;
      Facts();
      run := RouterRun(tensors, tensors, tensors, -1, [], {});
      SameTensorsRefl(tensors);
      if ids == [] {
        NothingRouted(tensors, layer, byteBudget);
        return;
      }
      ghost var learned := RecordRouting(layer, ids);
      ghost var routed := tensors;
      Facts();
      PrefetchExperts(layer, ids);
      ghost var served := tensors;
      Facts();
      var next, predicted, parts := PilotPrefetch(layer, ids);
      run := RouterRun(learned, routed, served, next, parts, predicted);
      Facts();
      StepsDone(ts, tensors, layer, ids, run, PinsNow(|trace|), usePilot, maxActive, pilotShare, byteBudget, total, pinnedTotal);
    }

    // ---- registration and the imatrix prior --------------------------------------

    method Enter(t: ExpertTensor, layers: seq<int>, byteSize: nat)
      modifies `tensors, `residentBytes, `moeLayers, `origins, `loadedSince, `pinnings
      ensures tensors == old(tensors) + [t] && residentBytes == old(residentBytes) + byteSize && moeLayers == layers
      ensures origins == old(origins) + [Origin(|trace|, t.totalHits)]
      ensures pinnings == old(pinnings) + [[]] && loadedSince == old(loadedSince) + byteSize
    {
      tensors, moeLayers := tensors + [t], layers;
      residentBytes, loadedSince := residentBytes + byteSize, loadedSince + byteSize;
      origins, pinnings := origins + [Origin(|trace|, t.totalHits)], pinnings + [[]];
    }

    method Arrange(t: ExpertTensor) returns (layers: seq<int>)
      requires Stats()
      ensures Listed(tensors + [t], layers)
    {
      layers := WithLayer(tensors, moeLayers, t);
    }

    /** What Valid() says, with one more tensor. */
    lemma OneTensorMore(t: ExpertTensor, byteSize: nat, layers: seq<int>)
      requires Valid() && NewTensor(t, byteSize) && t.budget == maxActive && Listed(tensors + [t], layers)
      ensures LedgerIs(tensors + [t], residentBytes + byteSize) && TicksAre(tensors + [t], touches)
      ensures StatsAre(tensors + [t], trace, origins + [Origin(|trace|, t.totalHits)], layers)
      ensures PinsKept(tensors + [t], pinnedTotal, pinnedCurrent, byteBudget) && AllPins(tensors + [t], pinnings + [[]])
      ensures BoundedBy(tensors + [t], byteBudget, residentBytes + byteSize, loadedSince + byteSize)
      ensures AllTraced(tensors + [t], trace, origins + [Origin(|trace|, t.totalHits)], pinnings + [[]], prior, maxActive)
    {
      hide AllValid, LedgerIs, TicksAre, StatsAre, AllPins, BoundedBy, PinsKept, Churn, Remembers, NewTensor, AllTraced, Listed;
      Facts();
      FreshKeeps(tensors, t, touches, trace, origins, pinnedTotal, byteBudget, byteSize, residentBytes, moeLayers, layers);
      FreshPins(tensors, t, pinnings, byteBudget, byteSize, residentBytes, loadedSince);
      FreshTraced(tensors, t, trace, origins, pinnings, prior, maxActive, byteSize);
    }

    method Append(t: ExpertTensor, byteSize: nat)
      requires Valid() && NewTensor(t, byteSize) && t.budget == maxActive
      modifies `tensors, `residentBytes, `moeLayers, `origins, `loadedSince, `pinnings
      ensures Valid() && tensors == old(tensors) + [t] && residentBytes == old(residentBytes) + byteSize
      ensures pinnings == old(pinnings) + [[]] && loadedSince == old(loadedSince) + byteSize
    {
      hide AllValid, LedgerIs, TicksAre, StatsAre, AllPins, BoundedBy, PinsKept, Churn, Remembers, NewTensor, AllTraced, Listed;
      var layers := Arrange(t);
      OneTensorMore(t, byteSize, layers);
      Enter(t, layers, byteSize);
    }

    /** register_expert_tensor; whether it was accepted. */
    method Register(name: string, layer: int, byteSize: nat, num: int, mapped: bool) returns (accepted: bool)
      requires Valid()
      modifies `tensors, `residentBytes, `moeLayers, `origins, `loadedSince, `pinnings
      ensures Valid()
      ensures accepted == (byteSize > 0 && num > 1 && byteSize % num == 0 && !Known(old(tensors), name))
      ensures !accepted ==> tensors == old(tensors) && residentBytes == old(residentBytes)
      ensures accepted ==> residentBytes == old(residentBytes) + byteSize
      ensures accepted ==> tensors == old(tensors) + [Fresh(name, layer, byteSize, num, mapped, maxActive)]
      ensures accepted ==> pinnings == old(pinnings) + [[]] && loadedSince == old(loadedSince) + byteSize
    {
      hide Known, Valid;
      if byteSize == 0 || num <= 1 {
        return false;
      }
      if byteSize % num != 0 {
        return false;
      }
      var known := FindTensor(tensors, name);
      if known >= 0 {
        return false;
      }
      Append(Fresh(name, layer, byteSize, num, mapped, maxActive), byteSize);
      accepted := true;
    }

    method SeedEach()
      requires Ledger() && Ticks() && Pins() && PinsKept(tensors, pinnedTotal, pinnedCurrent, byteBudget)
      modifies `tensors, `residentBytes, `pinnedTotal, `pinnedCurrent, `loadedSince, `pinnings
      ensures Ledger() && Ticks() && Pins() && PinsKept(tensors, pinnedTotal, pinnedCurrent, byteBudget)
      ensures |tensors| == |old(tensors)|
      ensures AllSeedPinned(old(tensors), tensors, maxActive)
      ensures loadedSince - old(loadedSince) == residentBytes - old(residentBytes)
      ensures OnePinningMore(old(tensors), old(pinnings), pinnings, maxActive, true)
    {
      hide LoadedBytes, PinsKept, Clocked, OnlyTouches, SeedPinned, PinnedTop, PinsAre, TopJoined;
      ghost var ts := tensors;
      for ti := 0 to |tensors|
        invariant loadedSince - old(loadedSince) == residentBytes - old(residentBytes)
        invariant Ledger() && Ticks() && Pins() && |pinnings| == |old(pinnings)| == |ts|
        invariant PinsKept(tensors, pinnedTotal, pinnedCurrent, byteBudget) && |tensors| == |ts|
        invariant forall i :: 0 <= i < ti ==> SeedPinned(ts[i], tensors[i], maxActive)
        invariant forall i :: 0 <= i < ti ==> PinningOf(ts[i], old(pinnings)[i], pinnings[i], maxActive, true)
        invariant forall i :: ti <= i < |ts| ==> tensors[i] == ts[i] && pinnings[i] == old(pinnings)[i]
      {
        ghost var before := tensors;
        ghost var order := PinTop(ti, Pilot.AsReals(tensors[ti].totalHits));
        ghost var e := Pinning(Pilot.AsReals(before[ti].totalHits), order, Limit(before[ti], maxActive));
        JoinedTop(before[ti], tensors[ti], e.weight, order, e.top);
        PinsGain(before[ti], tensors[ti], pinnings[ti], e);
        AllPinsUpdate(before, pinnings, ti, tensors[ti], pinnings[ti] + [e]);
        pinnings := pinnings[ti := pinnings[ti] + [e]];
        SeedDone(before[ti], tensors[ti], order, maxActive);
        ClockKept(before, tensors, touches);
      }
    }

    /** pin_from_seeded_totals: pin by calibration totals, evicting nothing. */
    method PinFromSeededTotals()
      requires Sound()
      modifies `tensors, `residentBytes, `pinnedTotal, `pinnedCurrent, `loadedSince, `pinnings
      ensures Sound() && AllValid(old(tensors))
      ensures AllSeedPinned(Rebudgeted(old(tensors), maxActive), tensors, maxActive)
      ensures OnePinningMore(Rebudgeted(old(tensors), maxActive), old(pinnings), pinnings, maxActive, true)
    {
      hide AllValid, LedgerIs, AllPins, OnePinningMore, PinsKept, Churn, TicksAre, StatsAre, AllSeedPinned, Floor,
        Rebudgeted, AllSameStats;
      ghost var ts, total := tensors, pinnedTotal;
      Facts();
      RebudgetKeeps(ts, maxActive, touches, pinnedTotal, byteBudget, residentBytes, pinnings);
      RecomputeBudgets();
      SeedEach();
      SeedKeeps(ts, tensors, maxActive, total, byteBudget);
      StatsKept(ts, tensors, trace, origins, moeLayers);
    }

    method SeedTensor(ti: nat, counts: seq<int>) returns (seeded: nat)
      requires Sound() && ti < |tensors|
      modifies `tensors, `origins
      ensures Sound() && |tensors| == |old(tensors)| && SameSince(old(origins), origins)
      ensures forall i :: 0 <= i < |tensors| ==> OnlyStats(old(tensors)[i], tensors[i])
      ensures tensors == old(tensors)[ti := old(tensors)[ti].(totalHits := AddedCounts(old(tensors)[ti].totalHits, counts))]
      ensures seeded > 0 <==> AddedCounts(old(tensors)[ti].totalHits, counts) != old(tensors)[ti].totalHits
    {
      hide LedgerIs, TicksAre, StatsAre, AllPins, BoundedBy, PinsKept, Churn;
      Facts();
      ghost var ts := tensors;
      var t := tensors[ti];
      var total := t.totalHits;
      seeded := 0;
      var n := if |counts| < t.size then |counts| else t.size;
      for ex := 0 to n
        invariant |total| == t.size
        invariant forall j :: 0 <= j < t.size ==>
          total[j] == if j < ex then AddedCounts(t.totalHits, counts)[j] else t.totalHits[j]
        invariant seeded > 0 <==> total != t.totalHits
      {
        if counts[ex] <= 0 {
          continue;
        }
        total := total[ex := total[ex] + counts[ex]];
        seeded := seeded + 1;
      }
      assert total == AddedCounts(t.totalHits, counts);
      SeedOne(ts, ti, counts, trace, origins, moeLayers);
      ghost var os := Seeded(origins, ti, counts);
      tensors := tensors[ti := t.(totalHits := total)];
      origins := os;
      StatsKeepRest(ts, tensors, touches, pinnedTotal, byteBudget, residentBytes, pinnings, loadedSince);
    }

    method SeedAll(entries: seq<(string, seq<int>)>) returns (seeded: nat)
      requires Sound()
      modifies `tensors, `origins
      ensures Sound() && tensors == Primed(old(tensors), entries) && SameSince(old(origins), origins)
      ensures if seeded == 0 then tensors == old(tensors) else Raised(old(tensors), tensors)
    {
      hide Core, Bounded, Traced, Raised, Primed, Credited, AddedCounts, Known, OnlyStats, AllValid;
      ghost var ts := tensors;
      seeded := 0;
      assert entries[..0] == [];
      PrimedNone(ts);
      for e := 0 to |entries|
        invariant Sound() && tensors == Primed(ts, entries[..e]) && SameSince(old(origins), origins)
        invariant if seeded == 0 then tensors == ts else Raised(ts, tensors)
      {
        assert entries[..e + 1][..e] == entries[..e];
        var ti := FindTensor(tensors, entries[e].0);
        PrimedNext(ts, entries[..e + 1]);
        CreditedOne(tensors, entries[e].0, entries[e].1, ti);
        if ti < 0 {
          continue;
        }
        ghost var before := tensors;
        var n := SeedTensor(ti, entries[e].1);
        StillRaised(ts, before, ti, entries[e].1, seeded, n);
        seeded := seeded + n;
      }
      assert entries[..|entries|] == entries;
    }

    /** Add the positive counts to the totals, then pin if anything was seeded. */
    method SeedThenPin(entries: seq<(string, seq<int>)>) returns (seeded: nat, ghost seen: Tensors)
      requires Sound()
      modifies `tensors, `residentBytes, `pinnedTotal, `pinnedCurrent, `origins, `loadedSince, `pinnings
      ensures Sound() && SameTensors(old(tensors), tensors) && AllValid(old(tensors))
      ensures seen == Primed(old(tensors), entries)
      ensures forall i :: 0 <= i < |old(tensors)| ==> OnlyStats(old(tensors)[i], seen[i])
      ensures SameSince(old(origins), origins) && AllLearned(seen, trace, origins)
      ensures seeded == 0 ==> tensors == seen == old(tensors) && pinnings == old(pinnings)
      ensures seeded > 0 ==> Raised(old(tensors), seen)
      ensures seeded > 0 ==> AllSeedPinned(Rebudgeted(seen, maxActive), tensors, maxActive)
      ensures seeded > 0 ==> OnePinningMore(Rebudgeted(seen, maxActive), old(pinnings), pinnings, maxActive, true)
    {
      hide Core, Bounded, OnePinningMore, AllSeedPinned, SameTensors, Raised, Primed, Rebudgeted, OnlyStats, AllValid,
        SameSince, AllLearned;
      ghost var ts := tensors;
      Facts();
      SameTensorsRefl(tensors);
      seeded := SeedAll(entries);
      seen := tensors;
      Learns();
      PrimedKeeps(ts, entries);
      if seeded > 0 {
        PinFromSeededTotals();
        SeedKeepsTensors(ts, seen, tensors, maxActive);
      }
    }

    /** load_imatrix_prior, given the parsed counts of each named tensor, none if there
        is no prior to read. It is applied once, and not before there are tensors.
        `seen` are the tensors with the counts added. */
    method ApplyPrior(entries: seq<(string, seq<int>)>) returns (seeded: nat, ghost seen: Tensors)
      requires Valid()
      modifies `tensors, `residentBytes, `pinnedTotal, `pinnedCurrent, `origins, `loadedSince, `pinnings, `imatrixSeeded, `prior
      ensures Valid() && SameTensors(old(tensors), tensors) && AllValid(old(tensors))
      ensures imatrixSeeded == (old(imatrixSeeded) || old(tensors) != [])
      ensures prior == if old(imatrixSeeded) || old(tensors) == [] then old(prior) else PriorAt(|trace|, |old(tensors)|)
      ensures seen == if old(imatrixSeeded) || old(tensors) == [] then old(tensors) else Primed(old(tensors), entries)
      ensures seeded == 0 ==> tensors == seen == old(tensors) && pinnings == old(pinnings)
      ensures seeded > 0 ==> Raised(old(tensors), seen)
      ensures seeded > 0 ==> AllSeedPinned(Rebudgeted(seen, maxActive), tensors, maxActive)
      ensures seeded > 0 ==> OnePinningMore(Rebudgeted(seen, maxActive), old(pinnings), pinnings, maxActive, true)
    {
      hide Core, Bounded, OnePinningMore, AllSeedPinned, SameTensors, Raised, Primed, Rebudgeted, OnlyStats, AllValid, AllTraced,
        SameSince, AllLearned;
      Facts();
      SameTensorsRefl(tensors);
      seeded, seen := 0, tensors;
      if imatrixSeeded || tensors == [] {
        return;
      }
      ghost var ts, os, ess := tensors, origins, pinnings;
      Learns();
      imatrixSeeded := true;
      seeded, seen := SeedThenPin(entries);
      prior := PriorAt(|trace|, |ts|);
      PriorTraced(ts, seen, tensors, trace, os, origins, ess, pinnings, maxActive, seeded);
    }
  }
}
