# Verification of the guanaco residency engine

Guanaco runs language models larger than memory. Two mechanisms decide what is
resident: a *layer pager* that keeps a fixed prefix of dense layers and slides a
window over the rest, and an *expert cache* that loads, pins and evicts the
slices of mixture-of-experts tensors. This project models both, the routing
statistics and the PILOT prediction that feed the cache, the `HerdCache` LRU, and
the top-k arithmetic of two measurement probes, and proves what they keep over
every run.

## How the model is organised

| file | models |
|---|---|
| `PagerModel.dfy` | the pager's state and the effect of each of its operations |
| `PagerProofs.dfy` | the pager invariant (`Inv`) and what keeps it |
| `PagerRuns.dfy` | the pager's theorems over any boundary sequence and over complete passes |
| `SlabRing.dfy`, `LayerPager.dfy` | the ring and the pager as classes, each method proved to perform its `PagerModel` step |
| `StreamRegistry.dfy`, `Prefixes.dfy` | registering dense tensors; the resident prefix, slab allocation and the hybrid budget split |
| `Experts.dfy` | an expert tensor, the byte ledger, the recency clock, hotness |
| `Eviction.dfy`, `Ceiling.dfy`, `Budgets.dfy` | victim choice, the byte ceiling and exactly when it spares the pins, demand shares |
| `Routing.dfy`, `Pilot.dfy` | what the statistics mean in terms of the trace; prediction |
| `CacheState.dfy` | what the cache keeps, as predicates over its fields |
| `PinHistory.dfy`, `PinBounds.dfy` | when pinnings take place, by what weights and how deep; what that says about the pins |
| `PinPasses.dfy`, `Learning.dfy`, `Serving.dfy`, `Registration.dfy` | what pin passes, router records, selections and registration do to the tensors |
| `ExpertCache.dfy` | the cache as a class |
| `CacheRuns.dfy` | concrete runs of the cache that fall short of a promise |
| `Loader.dfy` | the two together, driven by the model hook's callbacks |
| `HerdCache.dfy` | the map-and-list LRU against an ideal recency stack |
| `Probes.dfy`, `Curves.dfy` | block retention; strided buckets and capture curves |
| `Ranking.dfy`, `Collections.dfy` | descending rankings, the exchange argument, small set helpers |

The classes hold the loader's fields and update them in place. The cache also
carries ghost histories (`touches`, `trace`, `origins`, `pinnings`, `prior`,
`loadedSince`), so that `Valid()` can say what its fields mean: `last_used` is the
tick of a slice's last selection; `total_hits`, `window_hits` and `trans` are
functions of the router records; `expert_resident_bytes_` is the sum of the loaded
slices; a tensor's pins are the used tops of all its pinnings, which took place at
record 200, at later multiples of 400 and when the imatrix prior was applied, by the
hits or seeded totals of that moment and within the demand share of that moment;
and residency exceeds the byte ceiling by no more than what was loaded since it was last
enforced. Every operation of the cache keeps `Valid()`, so these hold in every
reachable state, and the guarded subtractions of the ledger never clamp.
`Loader.Drive` runs any sequence of boundary and router callbacks.

Assumptions about the environment, from the ring's own design: reads complete in
submission order and in full, a submission takes the whole layer, and a reap
blocks until a completion is there. The non-ring paths need complete reads only.
Sizes and ticks are unbounded; hotness, scores and energies are reals.

## Where the code differs from what is promised

- Pins accumulate, so "at most N pinned per tensor" (docs/PINNING.md:63) does not
  hold. `PinsOutgrowBudget` delivers 400 router callbacks and ends with two pins under
  a budget of one. In every reachable state the pins of a tensor follow from the
  records, registrations and prior so far (`PinsFollowHistory`): an expert is pinned
  if it was in the used top at record 200, at a later multiple of 400 or in the
  prior's pass, and only if it could be, the difference being the experts tied at the
  cutoff of a pass, which `std::sort` may rank either way (`TopDecides`). So at most N
  are pinned if at most N experts ever could be in a used top, only if at most N
  ever were for certain, and without such ties if and only if (`PinsWithin`). The
  bound that eviction keeps is max(budget, pins).
- The byte ceiling evicts pinned slices (src/guanaco_steppeloader.cpp:1772-1777),
  where the comment at include/guanaco/guanaco.h:368 speaks of non-pinned slices; in
  the run `OneTooMany` it drops a pin. An enforcement spares every loaded pin if and
  only if dropping the slices colder than the coldest loaded pin of a mapped tensor
  already meets the ceiling (`CeilingSparesExactly`; `EnforceCeiling` promises it of
  every call).
  That is for a pin that was ever selected, whose tick no other slice has; among
  slices never selected the sort decides, and `TiesDecide` says when every order
  spares the pins and when some order does. Without a ceiling or such a pin all are
  spared; with unmapped bytes over the ceiling every such pin goes
  (`OutOfReachDropsAll`).
- `prefetch_experts` does not reload a selected slice that is pinned
  (src/guanaco_steppeloader.cpp:2223-2226). A selected slice ends a router
  step loaded only if it was loaded or not pinned before the step, and exactly
  then unless a pin pass ran under a ceiling (`StepsDone`); without a ceiling it
  always does. `PinnedSliceStaysOut` is a run that ends with a selected slice out.
- A tensor longer than a 32-bit read, in a layer with some ring-readable tensor,
  is skipped by both ring paths while the layer is marked resident.
  `ResidentHoldsFile` states the exact condition, `LongTensorUnread` an input.
- With `pilot_mass` above 1 a prediction may have no learned transition: in the run
  `ShareAboveOne` a router callback reads ahead an expert that was never selected;
  `KeptArePositive` gives the exact condition, `PredictionsAreLearned` the case the
  option allows.
- Blocks can retain more than single pathways, because at least one block is kept
  and a short last block rounds the number of blocks up. They never do, for any
  scores, if and only if the blocks kept span no more pathways than are kept one
  by one, or every pathway is kept (`GranularityExact`, at every group size).
  For a group size that divides the pathways this is: single pathways, or a whole
  block kept (`DividingExact`); for others a whole block is not enough
  (`RaggedGains`).
- The byte ceiling is reached if and only if the bytes of unmapped tensors, which
  enforcement does not touch, fit it; in `CeilingOutOfReach` they do not.
- `HerdCache::allocate_slot` on a key it already holds evicts another key when the
  cache is full, unless that key is the oldest (`Herd.AllocateSlot`; in
  `ResidentKeyEvictsOther` a cache of two is left with one key). Its one
  caller checks first, and so the cache is an exact LRU (`Serve`).
- The router's prefetch (src/guanaco_router.cpp:73-79) does not refresh an expert the
  cache already holds, so a later allocation of the same request can evict it:
  `PrefetchDropsRequested` is such a run. A requested expert ends held if and only
  if the experts used after its last use, together with those allocated since its turn,
  are fewer than max(1, max_active) (`RequestedHeld`).

## Model

| member | source | states |
|---|---|---|
| PagerRuns.RingMatchesTable | src/guanaco_steppeloader.cpp:1047-1170 | after any boundary sequence the ring's outstanding completions per token are the in-flight table, no layer is both in flight and resident, every outstanding read is bound for its token's layer, and no slab was released under a read |
| PagerRuns.ResidentHoldsFile | src/guanaco_steppeloader.cpp:987-1041 | after any boundary sequence every slab of a resident layer holds its file bytes, tensor by tensor, if and only if the layer does not mix a ring-readable tensor with one over 32 bits |
| PagerRuns.SkipsExactly | src/guanaco_steppeloader.cpp:1003-1020 | the refill of a layer covers all its slabs exactly when the ring skips none |
| PagerRuns.LongTensorUnread | src/guanaco_steppeloader.cpp:1007-1013 | a layer that mixes the two is resident after filling with a slab never read |
| PagerRuns.NextIsResident | src/guanaco_steppeloader.cpp:1445-1480 | whenever a boundary call returns, the next layer is resident if it has tensors, and the resident prefix has never been evicted |
| PagerRuns.EnsureNextWaits | src/guanaco_steppeloader.cpp:1104-1150 | the wait counter moves exactly for a next tail layer that is not resident and that the ring reads |
| PagerRuns.PassesCost | src/guanaco_steppeloader.cpp:1399-1480 | filling reads every prefix layer with tensors once, and each of m complete passes brings in and releases every tail layer with tensors exactly once, and waits for exactly those the ring reads |
| PagerRuns.TrafficBalances | src/guanaco_steppeloader.cpp:987-1291 | layers read plus layers waited for, less layers evicted, is the number of resident layers; off the ring no wait occurs |
| PagerRuns.SlidingWindow | src/guanaco_steppeloader.cpp:1442-1480 | for the configured `dense_prefetch_ahead`, after any number of complete passes and boundaries 0..l of the next: the resident tail is exactly layer l+1; the reads in flight are exactly the layers from l+2 to l+ahead of the tail that have a slab the ring can read, none for a distance of at most 1; the pass has brought in every tail layer up to l+1, waited for those the ring reads, and released every one up to l, once each; after complete passes the tail is empty |
| PagerRuns.PassWindow | src/guanaco_steppeloader.cpp:1442-1480 | the same after boundaries 0..l of a pass from any state with an empty tail |
| PagerRuns.PassesEndEmpty | src/guanaco_steppeloader.cpp:1426-1443 | complete passes return to an empty tail with the invariant intact |
| PagerRuns.BoundaryWindow | src/guanaco_steppeloader.cpp:1453-1479 | one boundary moves the window one layer on: it brings in the next tail layer, waiting for it only if the ring reads it, releases the one just computed, and leaves exactly the reads up to the configured distance in flight |
| PagerRuns.FillKeeps | src/guanaco_steppeloader.cpp:1399-1401 | filling establishes the invariant, with the whole prefix resident and nothing beyond it |
| PagerRuns.BoundaryKeeps | src/guanaco_steppeloader.cpp:1423-1480 | any boundary call, also out of order or past the last layer, keeps the invariant and the prefix |
| PagerRuns.AdvanceKeeps | src/guanaco_steppeloader.cpp:1442-1480 | which layers are resident after a boundary's submit, ensure and evict, how far the frontier reaches, what may be in flight, and that each counter, waits included, moves by the layer brought in and the layer released |
| PagerRuns.RunKeeps | src/guanaco_steppeloader.cpp:1423-1480 | the invariant holds after any boundary sequence |
| PagerProofs.CompleteKeeps | src/guanaco_steppeloader.cpp:1115-1132 | booking one completion against the layer its token names keeps ring and table in step |
| PagerProofs.AwaitKeeps | src/guanaco_steppeloader.cpp:1107-1134 | the wait loop ends with all the layer's reads landed, having reaped only completions of this and earlier layers |
| PagerProofs.DrainLoopKeeps | src/guanaco_steppeloader.cpp:1154-1170 | the drain loop leaves ring and table empty |
| PagerProofs.SubmitUptoKeeps | src/guanaco_steppeloader.cpp:1457-1463 | the frontier loop queues each tail layer once and keeps the invariant |
| PagerProofs.SlabReadFills | src/guanaco_io_uring.cpp:161-189 | on an empty ring the token-blind chunked read fills exactly its own slices |
| PagerProofs.PrefetchFills | src/guanaco_steppeloader.cpp:987-1041 | a synchronous refill marks the layer resident and fills exactly the slabs it covers |
| PagerProofs.EnsureKeeps | src/guanaco_steppeloader.cpp:1104-1150 | ensuring the next layer makes it resident and keeps the invariant; a synchronous read never meets outstanding completions |
| PagerProofs.EvictKeeps | src/guanaco_steppeloader.cpp:1277-1291 | releasing the layer just computed spoils no outstanding read and empties no resident layer's slab |
| PagerProofs.NewPassKeeps | src/guanaco_steppeloader.cpp:1428-1433 | a new pass starts with nothing in flight, the frontier at the prefix edge and residency unchanged |
| SlabRing.Ring.Submit | src/guanaco_io_uring.cpp:78-116 | every slice is queued once, in order, under the token, across full-queue flushes; -1 when there is nothing to queue or no ring |
| SlabRing.Ring.Reap | src/guanaco_io_uring.cpp:125-159 | the oldest completion and its token are taken, and its slab is filled unless it was released |
| SlabRing.Ring.Read | src/guanaco_io_uring.cpp:161-189 | the chunked submit-and-reap loop performs the specified read; it fails on an empty request |
| StreamRegistry.Registry.Register | src/guanaco_steppeloader.cpp:898-929 | accepted exactly for a positive size, a layer index, a name the experts do not own and the layer does not have; the running total stays the bytes of all layers and the layer count the highest layer plus one |
| LayerPager.Pager.constructor | include/guanaco/guanaco.h:258-287 | the pager starts from the registered layers with nothing resident, queued or filled |
| LayerPager.Pager.PrefetchLayer | src/guanaco_steppeloader.cpp:987-1041 | performs the synchronous refill step |
| LayerPager.Pager.SubmitLayerAsync | src/guanaco_steppeloader.cpp:1047-1099 | performs the submit step; true exactly when the layer is resident or in flight on the ring path |
| LayerPager.Pager.EnsureLayer | src/guanaco_steppeloader.cpp:1104-1150 | performs the ensure step and terminates, since each reap finds a completion |
| LayerPager.Pager.DrainInflight | src/guanaco_steppeloader.cpp:1154-1170 | performs the drain step and terminates |
| LayerPager.Pager.EvictLayer | src/guanaco_steppeloader.cpp:1277-1291 | performs the release step, declining layers that are not resident |
| LayerPager.Pager.OnLayerBoundary | src/guanaco_steppeloader.cpp:1423-1480 | performs the boundary step, whose reads ahead `SlidingWindow` gives in terms of the configured distance; keeps the invariant and reports whether a new pass began |
| LayerPager.Pager.FillResidentLayers | src/guanaco_steppeloader.cpp:1321-1421 | slabs are kept only for a model within budget, the prefix is the largest that fits its share, and every layer of it is filled |
| Prefixes.ResidentPrefix | src/guanaco_steppeloader.cpp:1374-1388 | the walk finds the largest prefix of at least one layer whose real bytes fit |
| Prefixes.LargestFitUnique | src/guanaco_steppeloader.cpp:1369-1388 | that prefix is unique |
| Prefixes.SlabsAllocated | src/guanaco_steppeloader.cpp:934-947 | exactly the non-empty tensors whose allocation succeeds gain a slab, and nothing else of a tensor changes |
| Prefixes.SplitExact | src/guanaco_steppeloader.cpp:1362-1367 | a hybrid budget is halved, the odd byte going to the pager; otherwise the pager has all of it |
| Prefixes.SlabsKeepBytes | src/guanaco_steppeloader.cpp:934-947 | allocating slabs, some of which may fail, changes no layer's bytes |
| Prefixes.SlabsLeaveNoTail | src/guanaco_steppeloader.cpp:1342-1349 | a model without experts that keeps its slabs keeps every layer resident |
| Prefixes.HybridWithinBudget | src/guanaco_steppeloader.cpp:1362-1397 | the two halves add up to the budget, and prefix plus experts under their ceiling stay within it once layer 0 fits |
| Experts.SliceMoves | src/guanaco_steppeloader.cpp:1716-1717 | loading or dropping a slice moves the ledger by exactly that slice, and there is always that much to subtract |
| Experts.LastTouchIsLast | src/guanaco_steppeloader.cpp:1666-1670 | no selection of a slice is later than its tick |
| Experts.TicksFollowSelections | src/guanaco_steppeloader.cpp:1666-1670 | ticks never exceed the clock, nonzero ticks are distinct across all tensors, and they are ordered exactly as the last selections were |
| Experts.HotnessClosedForm | src/guanaco_steppeloader.cpp:1566-1571 | k runtime hits give 20(1 - 0.95^k), below 20 |
| Experts.HotnessOrder | src/guanaco_steppeloader.cpp:1566-1571 | hotness is strictly increasing in hits, both directions |
| Experts.HotMeansTwice | include/guanaco/guanaco.h:328-329 | above the protection threshold means at least two hits; positive means at least one |
| Eviction.FindVictim | src/guanaco_steppeloader.cpp:1700-1707 | the scan returns the eligible slice of least `last_used`, lowest index first, and none exactly when nothing is eligible |
| Eviction.SegmentGrows | src/guanaco_steppeloader.cpp:1697-1727 | in either pass the next victim extends the segment of slices first in (hot, last_used, index) order |
| Eviction.VictimsUnique | src/guanaco_steppeloader.cpp:1689-1727 | the evicted set is determined by its size |
| Eviction.VictimsOldest | src/guanaco_steppeloader.cpp:1697-1724 | by the history of selections: no hot slice is evicted while a cold one stays, and of equal heat no evicted slice was selected later than one that could have gone instead |
| Eviction.FewestHot | src/guanaco_steppeloader.cpp:1689-1695 | no other choice of as many unpinned loaded slices, single-pass LRU included, evicts fewer hot ones |
| Eviction.ResidentAfter | src/guanaco_steppeloader.cpp:1676-1681 | residents are pins plus candidates, and drop by exactly the evicted |
| Ceiling.Collect | src/guanaco_steppeloader.cpp:1783-1791 | every loaded slice of every mapped tensor is listed, once |
| Ceiling.SortByRecency | src/guanaco_steppeloader.cpp:1792-1793 | the same slices, coldest first |
| Ceiling.AllGone | src/guanaco_steppeloader.cpp:1785-1805 | with every droppable slice gone only unmapped bytes remain |
| Ceiling.DropsLeastRecent | src/guanaco_steppeloader.cpp:1792-1805 | no dropped slice has a later tick than a surviving one |
| Ceiling.CeilingDropsOldest | src/guanaco_steppeloader.cpp:1792-1805 | by the history of selections: whatever is dropped was last selected no later than anything droppable that stays |
| Budgets.ShareInRange | src/guanaco_steppeloader.cpp:1760-1762 | a share lies in [1, global] |
| Budgets.ShareMonotone | src/guanaco_steppeloader.cpp:1753-1764 | more demand never means a smaller share |
| Budgets.FullShare | src/guanaco_steppeloader.cpp:1753-1764 | a share equals the cap exactly for demand at or above the average |
| Budgets.ShareProportional | src/guanaco_steppeloader.cpp:1758-1763 | a share q strictly between 1 and the cap satisfies q total <= d cap n < (q+1) total, and for a cap of at least two it is 1 exactly when d cap n < 2 total |
| Budgets.ProportionalUnique | src/guanaco_steppeloader.cpp:1758-1763 | there is one such share |
| Budgets.SumJoin | src/guanaco_steppeloader.cpp:1744-1750 | the total demand adds up over any division of the tensors |
| Budgets.AggregateWithinCap | src/guanaco_steppeloader.cpp:1753-1764 | the shares never exceed cap times tensors in total, with equality exactly when the cap is one or all demands are equal |
| CacheState.UnusedLogged | src/guanaco_steppeloader.cpp:1713-1714 | appending to the bounded log adds at most one unused record |
| CacheState.LoggedIsLatest | src/guanaco_steppeloader.cpp:1713-1714 | the log is the last 8192 evictions in order |
| CacheState.ChurnAtMostAll | src/guanaco_steppeloader.cpp:2168-2172 | the reported churn is the whole percentage of evictions that were undone, at most 100 |
| CacheState.UnmappedIsFloor | src/guanaco_steppeloader.cpp:1787-1787 | unmapped bytes are a floor of the ledger, zero when all tensors are mapped |
| Routing.AddTransitions | src/guanaco_steppeloader.cpp:1546-1559 | every cell grows by (occurrences of from) times (occurrences of to), repeated and invalid ids included |
| Routing.AddHits | src/guanaco_steppeloader.cpp:1566-1571 | totals and decayed counts after all occurrences of each id |
| Routing.HitsAreSelections | src/guanaco_steppeloader.cpp:1562-1572 | a hit count is the number of places in the trace, since registration and of the tensor's layer, that name the expert |
| Routing.TransitionsAreFollowed | src/guanaco_steppeloader.cpp:1536-1560 | a transition count is the number of pairs of places in consecutive records of one token, the later one of the tensor's layer, that name the two experts |
| Routing.RecordLearned | src/guanaco_steppeloader.cpp:1545-1576 | after a record of its layer a tensor's totals, hotness and every transition cell are those of the extended trace, with no wrap-around pair counted |
| Routing.RecordElsewhere | src/guanaco_steppeloader.cpp:1545-1576 | a record of another layer changes nothing a tensor has learned |
| Pilot.CellsDistinct | src/guanaco_steppeloader.cpp:1556-1556 | no two transitions share a cell of the flat matrix |
| Pilot.Scores | src/guanaco_steppeloader.cpp:1616-1628 | scores are the transition sums from the selected experts (`ScoreOne`, `ScoreJoin`), and the flag says whether any is positive |
| Pilot.ScoreOne | src/guanaco_steppeloader.cpp:1616-1628 | a valid expert contributes its row of the matrix, an invalid one nothing |
| Pilot.ScoreJoin | src/guanaco_steppeloader.cpp:1616-1628 | the scores of a selection are the sum of those of its parts |
| Pilot.Predict | src/guanaco_steppeloader.cpp:1611-1656 | a tensor without history predicts nothing; otherwise the kept set is the pruned prefix of a descending order of those sums |
| Pilot.KeptIsMinimumCover | src/guanaco_steppeloader.cpp:1638-1655 | no smaller set of experts reaches the mass cutoff, a single kept expert included unless the cutoff is zero |
| Pilot.KeptCoversMost | src/guanaco_steppeloader.cpp:1638-1655 | short of the cap the kept set reaches the cutoff; in any case no set of its size carries more mass; it never exceeds the cap and keeps at least one expert if the cap allows |
| Pilot.CutoffIs | src/guanaco_steppeloader.cpp:1638-1643 | the mass target is the whole part of the share of the total |
| Pilot.KeptArePositive | src/guanaco_steppeloader.cpp:1643-1655 | all kept experts have positive score if and only if the cutoff is within the total mass or enough experts score |
| Pilot.PredictionsAreLearned | include/guanaco/guanaco.h:90-93 | for a share of at most 1 every kept expert has positive score |
| ExpertCache.Cache.constructor | include/guanaco/guanaco.h:333-361 | an empty cache is consistent |
| ExpertCache.Cache.Register | src/guanaco_steppeloader.cpp:1482-1526 | accepted exactly for a positive, evenly divisible size, several experts and a new name; the ledger grows by the whole tensor |
| Registration.RegisteredAs | src/guanaco_steppeloader.cpp:1482-1516 | a new tensor has the given name, layer and even slices, all loaded, nothing pinned, counted or touched, and the global budget |
| ExpertCache.Cache.Touch | src/guanaco_steppeloader.cpp:1666-1670 | the slice gets the next tick and nothing else moves |
| ExpertCache.Cache.Access | src/guanaco_steppeloader.cpp:2219-2241 | one access is exactly one of pin hit, warm hit and miss, and only a miss can use up an eviction record |
| ExpertCache.Cache.NoteReread | src/guanaco_steppeloader.cpp:2229-2239 | the first unused matching record inside the window is used up, if there is one |
| Serving.NotedExactly | src/guanaco_steppeloader.cpp:2229-2239 | a miss is counted as undoing an eviction exactly if an unused record of its slice is less than 64 selections old, and marks the first such record and no other |
| ExpertCache.Cache.PrefetchTensor | src/guanaco_steppeloader.cpp:2208-2256 | a tensor loads exactly the valid selected ids that were neither pinned nor loaded, and every valid selection is counted by its kind |
| ExpertCache.Cache.PrefetchExperts | src/guanaco_steppeloader.cpp:2201-2261 | the mapped tensors of the layer serve the selection, all others are untouched, the clock advances once per valid selection, and each of the three counters by the selections of its kind |
| Serving.TouchedOncePerSelection | src/guanaco_steppeloader.cpp:2201-2228 | a slice is touched once for each time a served selection names it, and only in the mapped tensors of the layer |
| Serving.TalliesCount | src/guanaco_steppeloader.cpp:2219-2241 | every valid selection is counted exactly once: as pinned, as loaded or as a miss |
| ExpertCache.Cache.EvictSlice | src/guanaco_steppeloader.cpp:1709-1721 | one reclaim: counters, bounded log, residency and ledger together |
| ExpertCache.Cache.Reclaim | src/guanaco_steppeloader.cpp:1697-1724 | one pass extends the victim segment until enough are gone or nothing is eligible |
| ExpertCache.Cache.EvictToBudget | src/guanaco_steppeloader.cpp:1672-1728 | the evicted are exactly the first victims, and by the history of selections the cold ones selected longest ago; an over-budget tensor ends with exactly max(budget, pins) resident, any other is untouched; counters match |
| ExpertCache.Cache.EnforceByteCeiling | src/guanaco_steppeloader.cpp:1767-1806 | exactly the k coldest slices go, none selected later than one that stays; all of them go unless the ceiling is met; it is met if and only if the unmapped bytes on entry fit it, and before the last drop it was not |
| Ceiling.CeilingSparesExactly | src/guanaco_steppeloader.cpp:1772-1805 | an enforcement spares every loaded pin if dropping the slices colder than the coldest one meets the ceiling, and only if dropping the unpinned slices of that tick as well does; for a pin ever selected this is an if and only if; without a ceiling or a loaded pin it always does |
| Ceiling.StopsWithin | src/guanaco_steppeloader.cpp:1793-1805 | enforcement stops within the first m slices exactly when dropping those meets the ceiling or there are no more |
| Ceiling.SparedBefore | src/guanaco_steppeloader.cpp:1772-1777 | the pins are spared exactly when enforcement stops before the first pinned slice of the order |
| Ceiling.OutOfReachDropsAll | src/guanaco_steppeloader.cpp:1793-1805 | with unmapped bytes over the ceiling no slice enforcement can reach stays loaded |
| Ceiling.TiesDecide | src/guanaco_steppeloader.cpp:1790-1791 | every order of tied slices spares the pins exactly when the colder slices are enough, and some order does exactly when the unpinned slices of the pin's tick may be counted in |
| ExpertCache.Cache.EnforceCeiling | src/guanaco_steppeloader.cpp:1767-1806 | on a consistent cache only residency changes; what goes was selected no later than what stays, over the whole history of selections; and pins are spared exactly under the condition above |
| Ceiling.UnmappedStay | src/guanaco_steppeloader.cpp:1785-1790 | enforcement leaves the bytes of unmapped tensors as they were |
| ExpertCache.Cache.RecomputeBudgets | src/guanaco_steppeloader.cpp:1730-1765 | every budget becomes the proportional share of the cap by the experts its tensor ever used, and nothing else changes |
| CacheState.DemandIs | src/guanaco_steppeloader.cpp:1739-1751 | a demand is the number of experts ever used, or one |
| CacheState.RebudgetedFairly | src/guanaco_steppeloader.cpp:1739-1763 | after rebalancing every budget is proportional to its tensor's number of used experts in the whole, within one and the cap |
| ExpertCache.Cache.PinTop | src/guanaco_steppeloader.cpp:1814-1840 | exactly the used experts among the first ranks join the pins, and each that joins is loaded |
| ExpertCache.Cache.PinAndEvict | src/guanaco_steppeloader.cpp:1810-1846 | one tensor's pass is that pinning followed by that eviction, and its pins grow by exactly the used top |
| ExpertCache.Cache.MaybePinHotExperts | src/guanaco_steppeloader.cpp:1808-1850 | a pass rebalances, pins and evicts every mapped tensor and enforces the ceiling; pins only grow, every positively hot expert of the top ranks is pinned, and whatever left a tensor was, by the history of selections, the cold and least recently selected of what could leave it |
| PinPasses.CeilingKeepsPass | src/guanaco_steppeloader.cpp:1848-1850 | enforcing the ceiling undoes neither the pins nor the budgets of the pass |
| PinPasses.CeilingTookOldest | src/guanaco_steppeloader.cpp:1808-1850 | eviction and then the ceiling together still take the least recently selected of equal heat from each tensor |
| Learning.RecordAll | src/guanaco_steppeloader.cpp:1545-1576 | after both learning loops every tensor's statistics are those of the trace with the new record |
| ExpertCache.Cache.RecordRouting | src/guanaco_steppeloader.cpp:1533-1591 | statistics follow the trace; a pin pass, with that order of what leaves, runs exactly at 200 records and at later multiples of 400 |
| ExpertCache.Cache.NextLayer | src/guanaco_steppeloader.cpp:1599-1603 | the nearest later layer that has expert tensors, or none |
| ExpertCache.Cache.PilotPrefetch | src/guanaco_steppeloader.cpp:1593-1664 | the union of the next layer's pruned predictions is prefetched there, and only there; counters match |
| Serving.ScoreIsHistory | src/guanaco_steppeloader.cpp:1605-1628 | from the trace alone: a score is the sum, over all experts, of how often each is selected now times how often the scored expert followed it |
| Serving.PredictedAreLikeliest | src/guanaco_steppeloader.cpp:1630-1656 | no expert left out followed the selected ones more often than one predicted |
| Serving.PredictionIsCover | src/guanaco_steppeloader.cpp:1611-1656 | the prediction of a tensor characterised from the trace: empty without such history and otherwise not, if the budget allows one; within the tensor's budget, as heavy as any set of its size, reaching the mass target short of the budget, and no smaller choice reaches it |
| Serving.PilotReads | src/guanaco_steppeloader.cpp:1593-1664 | a pilot call loads exactly the absent, unpinned experts of mapped tensors of the next expert layer that some tensor there predicts |
| Serving.NextIsNearest | src/guanaco_steppeloader.cpp:1599-1603 | the next layer is the nearest later one with expert tensors, and -1 exactly if there is none |
| Serving.PredictionHasPrecedent | src/guanaco_steppeloader.cpp:1605-1656 | every predicted expert has a positive learned transition from some currently selected expert |
| Learning.TransitionHasWitness | src/guanaco_steppeloader.cpp:1536-1560 | a positive transition count comes from two consecutive records of one token, increasing in layer, ending at this layer |
| Learning.HotRankIsHitRank | src/guanaco_steppeloader.cpp:1814-1819 | ranking by decayed hotness is ranking by runtime hits |
| Learning.HotIsHitTwice | src/guanaco_steppeloader.cpp:1702-1704 | eviction's hot protection covers exactly the experts hit at least twice |
| ExpertCache.Cache.OnRouterComputed | src/guanaco_model_hook.cpp:91-96 | record, prefetch and pilot in sequence, each exact; whatever pin pass or pilot ran, every valid selected expert of a mapped tensor ends pinned or loaded, and loaded without a ceiling; every access is logged in order, of the selection and then of the prediction |
| Serving.StepsDone | src/guanaco_model_hook.cpp:91-96 | in terms of the state on entry: a selected slice ends loaded only if it was loaded or not pinned, and exactly then unless a pin pass ran under a ceiling |
| Serving.RouterDone | src/guanaco_model_hook.cpp:91-96 | the pilot prefetch cannot undo what the prefetch of this layer served |
| ExpertCache.Cache.PinFromSeededTotals | src/guanaco_steppeloader.cpp:1972-2003 | pins by calibration totals within the shares, evicting nothing |
| ExpertCache.Cache.ApplyPrior | src/guanaco_steppeloader.cpp:1858-1969 | applied once, and not before there are tensors: positive counts reach the named tensors' totals, and a pin pass follows exactly when something was seeded |
| Registration.PrimedGives | src/guanaco_steppeloader.cpp:1937-1969 | every total grows by the sum of the positive counts of the entries that name its tensor |
| PinHistory.PinsGain | src/guanaco_steppeloader.cpp:1824-1840 | one pinning adds exactly the used experts among its first ranks to a tensor's pins |
| PinBounds.PinsWithinExactly | src/guanaco_steppeloader.cpp:1824-1840 | a tensor's pins are exactly the experts some pinning had in its used top; a single pinning stays within its budget |
| PinHistory.TracedPass | src/guanaco_steppeloader.cpp:1533-1591 | a pass after a record extends the history: every mapped tensor has one more pinning, by its decayed hits in the trace so far and within its share of the demands so far |
| PinHistory.TracedQuiet | src/guanaco_steppeloader.cpp:1578-1591 | a record off the cadence pins nothing and changes no earlier pinning |
| PinHistory.TracedNew | src/guanaco_steppeloader.cpp:1482-1526 | a tensor registered later has been in no pass and changes none that took place |
| PinHistory.TracedPrior | src/guanaco_steppeloader.cpp:1937-2003 | the prior's pass, if it seeded anything, pins every tensor once by the seeded totals; passes before it are unaffected by its counts |
| PinBounds.MomentsAre | src/guanaco_steppeloader.cpp:1578-1591 | the passes over a tensor are those at record 200 and later multiples of 400 after a mapped tensor was registered, and the prior's for every tensor there was |
| PinBounds.TieGroup | src/guanaco_steppeloader.cpp:1814-1819 | a ranking puts an expert among its equals, after exactly the heavier ones |
| PinBounds.TopDecides | src/guanaco_steppeloader.cpp:1814-1840 | an expert is in the used top of every ranking exactly if it is used and fewer than top others weigh as much, and of some ranking exactly if fewer than top weigh more |
| PinBounds.PinsFollowHistory | docs/PINNING.md:62-63 | from the records, registrations and prior alone: an expert is pinned if some pass had it in the used top however ties are ranked, and only if some pass could |
| PinBounds.PinsWithin | docs/PINNING.md:62-63 | at most N experts are pinned if at most N ever could be in a used top, only if at most N ever were for certain, and exactly then when no pass had a tie at its cutoff |
| ExpertCache.Cache.PinsOfHistory | docs/PINNING.md:62-63 | this holds in every reachable state of the cache |
| CacheRuns.PinsOutgrowBudget | docs/PINNING.md:62-63 | a run of 400 router callbacks under a budget of one ends with two pins |
| CacheRuns.OneTooMany | include/guanaco/guanaco.h:368-368 | a prior that pins both slices of a tensor, then an enforcement under a ceiling of one slice: a pinned slice is dropped |
| CacheRuns.PinnedSliceStaysOut | src/guanaco_steppeloader.cpp:2223-2226 | a prior, a ceiling and one token end with a selected, pinned slice that is not loaded |
| CacheRuns.CeilingOutOfReach | src/guanaco_steppeloader.cpp:1787-1787 | unmapped bytes over the ceiling stay over it |
| CacheRuns.ShareAboveOne | src/guanaco_steppeloader.cpp:1645-1655 | with a mass of 2, three router callbacks read ahead an expert that was never selected and never followed a selected one |
| Loader.SteppeLoader.OnTensorsLoaded | src/guanaco_model_hook.cpp:112-121 | the prefix is filled, the ceiling set to its half, and the prior applied without losing a tensor or pin: its counts raise the totals they name, and what it seeded is pinned within the shares |
| Loader.SteppeLoader.OnLayerBoundary | src/guanaco_steppeloader.cpp:1428-1439 | a new pass enforces the expert ceiling, which spares the pins exactly under the stated condition and after which prefix plus experts of a mapped hybrid model are within the total budget |
| Loader.SteppeLoader.OnRouterComputed | src/guanaco_model_hook.cpp:91-96 | residency before compute for the expert path: selected slices pinned or loaded, loaded without a ceiling, with pins only growing |
| Loader.HybridFits | src/guanaco_steppeloader.cpp:1356-1367 | a hybrid cache under its ceiling is within the whole budget |
| Loader.BetweenEnforcements | src/guanaco_steppeloader.cpp:1433-1438 | between two enforcements residency exceeds the ceiling, and a hybrid model its budget, by no more than the bytes loaded since |
| Loader.Drive | src/guanaco_model_hook.cpp:86-96 | any callback sequence keeps both halves consistent; the pager is in the state of its boundary calls, the statistics are of the records delivered, and a hybrid model is over its budget by at most what was loaded since the last enforcement |
| HerdCache.RecencyIsOrdered | src/guanaco_herdcache.cpp:82-88 | the ideal stack lists exactly the keys in use, by last use |
| HerdCache.HoldsMostRecent | src/guanaco_herdcache.cpp:90-105 | any key the cache holds was used after any key it has evicted |
| HerdCache.HeldExactly | src/guanaco_herdcache.cpp:82-105 | the ideal cache holds exactly the keys after whose last use fewer than max(1, max_active) others were used |
| HerdCache.TopUse | src/guanaco_herdcache.cpp:82-88 | moving a key to the end keeps the list the most recent part of the stack |
| HerdCache.TopShrinks | src/guanaco_herdcache.cpp:90-94 | dropping the front keeps it so |
| HerdCache.Herd.UpdateLru | src/guanaco_herdcache.cpp:82-88 | the key moves or is appended to the recent end |
| HerdCache.Herd.EvictLru | src/guanaco_herdcache.cpp:90-105 | exactly the least recently used key leaves list and map |
| HerdCache.Herd.EvictIfNeeded | src/guanaco_herdcache.cpp:76-80 | the loop terminates, leaving the most recent keys with room for one more, or none |
| HerdCache.Herd.AllocateSlot | src/guanaco_herdcache.cpp:15-34 | the new key is most recent, survivors are the most recent ones, at most max(1, max_active) entries remain, and nothing is dropped without need exactly when the key was absent, there was room, or it was the oldest |
| HerdCache.Herd.GetBuffer | src/guanaco_herdcache.cpp:36-44 | a hit returns the buffer and refreshes it; a miss changes nothing |
| HerdCache.Herd.PinExpert | src/guanaco_herdcache.cpp:51-58 | a present key is refreshed, an absent one allocated |
| HerdCache.Herd.UnpinExpert | src/guanaco_herdcache.cpp:60-74 | exactly this key leaves list and map |
| HerdCache.UseHolds | src/guanaco_herdcache.cpp:15-34 | using a held key, or an absent one after making room, keeps the list as long as an ideal LRU's |
| HerdCache.Herd.PrefetchExperts | src/guanaco_router.cpp:73-79 | the router's loop uses exactly the experts an ideal LRU does not hold, in order, and ends holding the last one requested |
| HerdCache.FetchedHolds | src/guanaco_router.cpp:73-79 | at its turn a requested expert is held, as the latest if it was not held before |
| HerdCache.RequestedHeld | src/guanaco_router.cpp:73-79 | it is still held later exactly if those used since its last use, before its turn and after, are fewer than max(1, max_active) |
| HerdCache.AllocatedHeld | src/guanaco_router.cpp:73-79 | one allocated among the last max(1, max_active) requests is held at the end |
| HerdCache.PrefetchDropsRequested | src/guanaco_router.cpp:73-79 | a request for two experts of a cache of two, the first of them held and oldest, ends without the first |
| HerdCache.ResidentKeyEvictsOther | src/guanaco_herdcache.cpp:15-34 | a cache of two that holds two keys ends with one after allocating the newer again |
| HerdCache.Serve | src/guanaco_herdcache.cpp:15-105 | over any sequence of prefetches, look-ups and pins the cache answers every look-up as an ideal LRU of max(1, max_active) entries does, and ends holding exactly what it holds |
| Ranking.TopIsHeaviest | examples/block_probe.cpp:107-112 | exchange argument: no set of at most k items outweighs the top k of a descending order |
| Ranking.TopMassOf | examples/block_probe.cpp:107-112 | the weight of the top k does not depend on how ties are broken |
| Probes.ComputeRetention | examples/block_probe.cpp:95-114 | bucketing, sorting and accumulating compute the share of the heaviest kept blocks |
| Probes.KeptIs | examples/block_probe.cpp:108-108 | the number kept is the whole part of the share of the blocks, at least one and at most all |
| Probes.RetentionIsMost | examples/block_probe.cpp:95-114 | no choice of so many blocks holds more of the total than the retention |
| Probes.RetentionIsReached | examples/block_probe.cpp:95-114 | some choice of exactly that many holds it |
| Probes.SumBlocks | examples/block_probe.cpp:97-103 | summing pathway by pathway gives every block, the short last one included |
| Probes.BlocksRetainLess | examples/block_probe.cpp:95-114 | when the blocks kept span no more pathways than are kept one by one, or all are kept, blocks never retain more than pathways, at any group size |
| Probes.GranularityExact | examples/block_probe.cpp:95-114 | for every group size, ragged ones included, that condition is exactly when blocks never retain more, for all scores |
| Probes.DividingExact | examples/block_probe.cpp:108-108 | for a dividing group size the condition is: single pathways, or p keeps a whole block |
| Probes.RaggedGains | examples/block_probe.cpp:97-108 | for others it is not: three uniform pathways in blocks of two, half kept |
| Probes.UniformBreaksIt | examples/block_probe.cpp:95-114 | otherwise uniform scores are a counterexample |
| Curves.ComputeEnergies | examples/tomoe_probe.cpp:151-160 | the strided loops compute each bucket's energy |
| Curves.EnergyOfStride | examples/tomoe_probe.cpp:151-160 | a bucket's energy is that of the pathways of its stride |
| Curves.EnergyIsQuadratic | examples/tomoe_probe.cpp:151-160 | scaling a row by c scales every energy by c squared |
| Curves.UnitEnergy | examples/tomoe_probe.cpp:151-160 | a single activation of one has energy one |
| Curves.BucketsConserve | examples/tomoe_probe.cpp:151-160 | the buckets add up to the row's energy, whether or not they divide it evenly |
| Curves.CaptureIsShare | examples/tomoe_probe.cpp:222-253 | a capture is the share of the token's energy held by the first k buckets |
| Curves.CurvesAddUp | examples/tomoe_probe.cpp:222-253 | the curves and the token count add up over the tokens |
| Curves.AggregateIsTable | examples/tomoe_probe.cpp:209-220 | the aggregate weighs a set of buckets as all tokens together do |
| Curves.FixedOrderIsBest | examples/tomoe_probe.cpp:209-220 | no k buckets hold more energy over all tokens than the first k of the aggregate's order |
| Curves.MeanIs | examples/tomoe_probe.cpp:263-263 | a reported mean times the number of tokens is the summed curve |
| Curves.OracleDominates | examples/tomoe_probe.cpp:222-253 | for any fixed order the oracle curve is at least the global one at every k, and both reach the number of tokens at k = E |
| Curves.AddLayer | examples/tomoe_probe.cpp:209-266 | one layer adds its oracle and global curves, the latter in an order ranked by the aggregate, and its oracleK and globalK are the means at top-k over all its tokens, with a gain that is never negative |
| Curves.OracleDominatesAll | examples/tomoe_probe.cpp:195-253 | the same domination summed over layers |
| Curves.LayersAddUp | examples/tomoe_probe.cpp:195-253 | the sweep adds up over the layers |
| Curves.Sweep | examples/tomoe_probe.cpp:195-253 | the report loop computes exactly these curves |

## Left out

- Files and the operating system: GGUF, imatrix and manifest parsing, shard lookup, cgroup and RAM probing (and so the automatic dense budget), `madvise`, `posix_fadvise` and environment variables. Parsed geometry, parsed counts and the resolved budget are inputs.
- Slab contents are abstracted to the set of slabs certain to hold their file bytes; submitting a read or releasing a slab takes it out of the set.
- The ring under timeouts, read errors, partial submissions or out-of-order completion: the code does not keep its counters consistent there.
- The `enabled_` and `dense_enabled_` switches are on; with them off the callbacks do nothing. A missing file descriptor and the null checks of the hook are left out with them. A prior that is disabled, missing or unreadable is one with no counts.
- Expert tensors are values in a sequence field that the methods reassign, not separate objects; the eviction log names a slice by position instead of by address.
- Hash tables are walked in registration order; no result proved depends on the order except ties of equal ticks in the byte ceiling, which are left open. `std::sort` is some ranking with the comparator's order, and nothing relies on how it breaks ties.
- ExpertCache.Cache.EvictToBudget: requires ticks below 2^64 - 1, which the victim scan's initial value needs; the methods above it require the clock to be below that.
- Floating-point rounding: hotness, scores and energies are reals, and machine-integer overflow of sizes and counters is not modelled.
- Telemetry, timing, throughput counters and log lines.
- `prefetch_expert`, `read_expert_async`, `GuanacoExecutor`, and `GuanacoRouter` beyond its prefetch loop: simulation plumbing around library calls.
- The top-1 and entropy columns of the probe report and its row of averages over layers, and the dendrite probes, which run models through libraries that are not part of this model.
- `utilities/bench-base.cpp`, `patches/`, build files and scripts: benchmark and build glue.
