/** The layer-window pager as a state machine: what each operation of
    src/guanaco_steppeloader.cpp does to the residency table, the in-flight
    table, the completion ring and the slab contents. */
module PagerModel {
  const UINT32_MAX: nat := 0xFFFF_FFFF

  // io_uring_slab_read submits and reaps in chunks of this many slices.
  const READ_CHUNK: nat := 128

  /** A registered dense tensor: its name and length, and whether it has a private
      slab and a file-mmap address. */
  datatype StreamTensor = StreamTensor(name: string, byteSize: nat, slab: bool, mapped: bool)

  /** A slab, named by its layer and its position in that layer. */
  datatype SlabId = SlabId(layer: int, index: nat)

  /** A read in the ring. `clean` is false once the destination slab has been
      released under the read, after which nothing is known of its bytes. */
  datatype Request = Request(token: int, dst: SlabId, clean: bool)

  /** What is fixed once fill_resident_layers() has run. */
  datatype Layout = Layout(
    layers: map<int, seq<StreamTensor>>,
    n: nat,              // stream_n_layers_
    w: nat,              // stream_resident_layers_
    ahead: int,          // dense_prefetch_ahead
    useSlab: bool,       // dense_use_slab
    uring: bool)         // the ring exists
  {
    ghost predicate Valid() {
      && w <= n
      && forall k :: k in layers ==> 0 <= k < n && layers[k] != []
    }

    predicate Async() { useSlab && uring }

    function Ahead(): int { if ahead < 1 then 1 else ahead }
  }

  /** `filled` is the ghost part: the slabs certain to hold their file bytes. */
  datatype State = State(
    resident: seq<bool>,       // layer_resident_
    inflight: map<int, nat>,   // dense_inflight_
    upto: int,                 // submitted_upto_
    last: int,                 // last_boundary_layer_
    ring: seq<Request>,        // submitted and not yet reaped
    filled: set<SlabId>,
    prefetchOps: nat,          // dense_prefetch_ops_
    evictOps: nat,             // dense_evict_ops_
    waitOps: nat)              // dense_wait_ops_
  {
    predicate Resident(k: int) { 0 <= k < |resident| && resident[k] }

    function SetResident(k: int, b: bool): State {
      if 0 <= k < |resident| then this.(resident := resident[k := b]) else this
    }
  }

  /** A tensor the ring can read: io_uring lengths are 32-bit. */
  predicate RingReadable(t: StreamTensor) {
    t.slab && t.byteSize != 0 && t.byteSize <= UINT32_MAX
  }

  function SlicesFrom(k: int, ts: seq<StreamTensor>, i: nat): (r: seq<SlabId>)
    requires i <= |ts|
    ensures forall id :: id in r <==> id.layer == k && i <= id.index < |ts| && RingReadable(ts[id.index])
    decreases |ts| - i
  {
    if i == |ts| then []
    else (if RingReadable(ts[i]) then [SlabId(k, i)] else []) + SlicesFrom(k, ts, i + 1)
  }

  /** The slices handed to the ring for layer k. */
  function Slices(g: Layout, k: int): (r: seq<SlabId>) {
    if k in g.layers then SlicesFrom(k, g.layers[k], 0) else []
  }

  /** Every slab of layer k. */
  function Slabs(g: Layout, k: int): (r: set<SlabId>) {
    if k in g.layers then
      set i: nat | i < |g.layers[k]| && g.layers[k][i].slab && g.layers[k][i].byteSize != 0 :: SlabId(k, i)
    else {}
  }

  function IdSet(ids: seq<SlabId>): (r: set<SlabId>)
    ensures forall id :: id in r <==> id in ids
  {
    set id | id in ids
  }

  /** The slabs a refill of layer k reads: the ring's slices when the ring is
      used and has any, every slab through pread otherwise. */
  function Refilled(g: Layout, k: int): set<SlabId> {
    if g.Async() && Slices(g, k) != [] then IdSet(Slices(g, k)) else Slabs(g, k)
  }

  function Tagged(token: int, ids: seq<SlabId>): (r: seq<Request>)
    ensures |r| == |ids|
    ensures forall i :: 0 <= i < |r| ==> r[i] == Request(token, ids[i], true)
  {
    seq(|ids|, i requires 0 <= i < |ids| => Request(token, ids[i], true))
  }

  function Submit(s: State, token: int, ids: seq<SlabId>): State {
    s.(ring := s.ring + Tagged(token, ids), filled := s.filled - IdSet(ids))
  }

  /** Completions arrive in submission order and each read completes in full. */
  function Reap(s: State): State
    requires s.ring != []
  {
    s.(ring := s.ring[1..],
       filled := if s.ring[0].clean then s.filled + {s.ring[0].dst} else s.filled)
  }

  function ReapMany(s: State, n: nat): State
    requires n <= |s.ring|
    decreases n
  {
    if n == 0 then s else ReapMany(Reap(s), n - 1)
  }

  function ReadChunk(s: State, ids: seq<SlabId>): State {
    ReapMany(Submit(s, 0, ids), |ids|)
  }

  function ChunkLength(ids: seq<SlabId>): (m: nat)
    ensures m <= |ids| && (ids != [] ==> m > 0)
  {
    if READ_CHUNK < |ids| then READ_CHUNK else |ids|
  }

  /** The synchronous read: it reaps as many completions as it queued, without
      looking at their tokens. */
  function SlabRead(s: State, ids: seq<SlabId>): State
    decreases |ids|
  {
    if ids == [] then s
    else
      var m := ChunkLength(ids);
      SlabRead(ReadChunk(s, ids[..m]), ids[m..])
  }

  function PrefetchLayer(g: Layout, s: State, k: int): State {
    if k !in g.layers || s.Resident(k) then s
    else
      var s1 := s.(prefetchOps := s.prefetchOps + 1);
      if g.Async() && Slices(g, k) != [] then SlabRead(s1, Slices(g, k)).SetResident(k, true)
      else s1.(filled := s1.filled + Slabs(g, k)).SetResident(k, true)
  }

  function SubmitLayer(g: Layout, s: State, k: int): State {
    if !g.Async() || k !in g.layers || s.Resident(k) || k in s.inflight || Slices(g, k) == [] then s
    else
      var ids := Slices(g, k);
      Submit(s, k, ids).(inflight := s.inflight[k := |ids|])
  }

  /** Book one completion against the layer its token names. */
  function Credit(s: State, token: int): State {
    if token in s.inflight then
      s.(inflight := if s.inflight[token] <= 1 then s.inflight - {token}
                     else s.inflight[token := s.inflight[token] - 1])
    else s
  }

  function Complete(s: State): (s': State)
    requires s.ring != []
    ensures |s'.ring| < |s.ring|
  {
    Credit(Reap(s), s.ring[0].token)
  }

  /** ensure_layer's reap loop. On an empty ring the reap would block. */
  function Await(s: State, k: int): State
    decreases |s.ring|
  {
    if k in s.inflight && s.inflight[k] > 0 && s.ring != [] then Await(Complete(s), k) else s
  }

  function EnsureLayer(g: Layout, s: State, k: int): State {
    if s.Resident(k) then s
    else if g.uring && k in s.inflight then
      Await(s.(waitOps := s.waitOps + 1), k).SetResident(k, true)
    else PrefetchLayer(g, s, k)
  }

  function DrainLoop(s: State): State
    decreases |s.ring|
  {
    if s.inflight != map[] && s.ring != [] then DrainLoop(Complete(s)) else s
  }

  function Drain(g: Layout, s: State): State {
    (if g.uring then DrainLoop(s) else s).(inflight := map[])
  }

  function Spoil(ring: seq<Request>, ids: set<SlabId>): (r: seq<Request>)
    ensures |r| == |ring|
  {
    seq(|ring|, i requires 0 <= i < |ring| =>
      if ring[i].dst in ids then ring[i].(clean := false) else ring[i])
  }

  /** Releasing a layer's slabs: their bytes, and those of any read still
      heading for them, can no longer be relied on. */
  function EvictLayer(g: Layout, s: State, k: int): State {
    if k !in g.layers || (k < |s.resident| && !s.Resident(k)) then s
    else
      s.(evictOps := s.evictOps + 1,
         filled := s.filled - Slabs(g, k),
         ring := Spoil(s.ring, Slabs(g, k))).SetResident(k, false)
  }

  /** The submit loop of on_layer_boundary, from the frontier up to `target`. */
  function SubmitUpto(g: Layout, s: State, target: int): State
    decreases target - s.upto
  {
    if s.upto + 1 <= target && s.upto + 1 < g.n then
      var k := s.upto + 1;
      var s1 := if k >= g.w then SubmitLayer(g, s, k) else s;
      SubmitUpto(g, s1.(upto := k), target)
    else s
  }

  function NewPass(g: Layout, s: State): State {
    Drain(g, s.(last := -1)).(upto := g.w - 1)
  }

  /** Bring in a tail layer ahead of its turn. */
  function EnsureNext(g: Layout, s: State, next: int): State {
    if g.w <= next < g.n then EnsureLayer(g, s, next) else s
  }

  /** Let go of a tail layer whose turn is over. */
  function Release(g: Layout, s: State, layer: int): State {
    if g.w <= layer && s.Resident(layer) then EvictLayer(g, s, layer) else s
  }

  function Advance(g: Layout, s: State, layer: int): State {
    Release(g, EnsureNext(g, SubmitUpto(g, s, layer + g.Ahead()), layer + 1), layer)
  }

  /** on_layer_boundary. */
  function OnBoundary(g: Layout, s: State, layer: int): State {
    if g.layers == map[] || layer < 0 then s
    else
      var s1 := (if layer <= s.last then NewPass(g, s) else s).(last := layer);
      if layer >= g.n then s1 else Advance(g, s1, layer)
  }

  function FillFrom(g: Layout, s: State, k: nat): State
    decreases g.w - k
  {
    if k >= g.w then s else FillFrom(g, PrefetchLayer(g, s, k), k + 1)
  }

  /** The loader when fill_resident_layers() starts paging. */
  function Initial(g: Layout): State {
    State(seq(g.n, _ => false), map[], -1, -1, [], {}, 0, 0, 0)
  }

  function Filled(g: Layout): State { FillFrom(g, Initial(g), 0) }

  /** Any sequence of boundary calls. */
  function Run(g: Layout, s: State, boundaries: seq<int>): State
    decreases |boundaries|
  {
    if boundaries == [] then s
    else OnBoundary(g, Run(g, s, boundaries[..|boundaries| - 1]), boundaries[|boundaries| - 1])
  }
}
