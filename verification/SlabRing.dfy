/** The batched reader of src/guanaco_io_uring.cpp, on a kernel that accepts
    every submission, completes reads in order and in full, and never times out. */
module SlabRing {
  import opened PagerModel

  lemma SlabReadStep(s: State, ids: seq<SlabId>, start: nat, end: nat)
    requires start < |ids| && end == if start + READ_CHUNK < |ids| then start + READ_CHUNK else |ids|
    ensures SlabRead(s, ids[start..]) == SlabRead(ReadChunk(s, ids[start..end]), ids[end..])
  {
    var rest := ids[start..];
    assert rest[..ChunkLength(rest)] == ids[start..end];
    assert rest[ChunkLength(rest)..] == ids[end..];
  }

  class Ring {
    const ok: bool          // io_uring_queue_init succeeded
    const entries: nat      // submission queue size
    var sq: seq<Request>    // prepared, not yet submitted
    var cq: seq<Request>    // submitted and not yet reaped, in completion order
    ghost var filled: set<SlabId>   // slabs certain to hold their file bytes

    ghost predicate Valid()
      reads this
    {
      sq == [] && (ok ==> entries > 0)
    }

    constructor (entries: nat)
      ensures Valid() && cq == [] && filled == {} && ok == (entries > 0)
    {
      ok := entries > 0;
      this.entries := entries;
      sq, cq, filled := [], [], {};
    }

    /** io_uring_slab_submit: queue every slice under `token`, flushing the
        submission queue whenever it is full. */
    method Submit(ids: seq<SlabId>, token: int) returns (n: int)
      requires Valid()
      modifies this
      ensures Valid()
      ensures ok ==> cq == old(cq) + Tagged(token, ids) && filled == old(filled) - IdSet(ids)
      ensures !ok ==> cq == old(cq) && filled == old(filled)
      ensures n == if ok && ids != [] then |ids| else -1
    {
      if !ok {
        return -1;
      }
      var queued := 0;
      for i := 0 to |ids|
        invariant queued == i
        invariant |sq| <= entries && (i > 0 ==> sq != [])
        invariant cq + sq == old(cq) + Tagged(token, ids[..i])
        invariant filled == old(filled)
      {
        ghost var before := cq + sq;
        if |sq| == entries {
          cq, sq := cq + sq, [];
        }
        sq := sq + [Request(token, ids[i], true)];
        queued := queued + 1;
        assert cq + sq == before + [Request(token, ids[i], true)];
        assert Tagged(token, ids[..i + 1]) == Tagged(token, ids[..i]) + [Request(token, ids[i], true)];
      }
      assert ids[..|ids|] == ids;
      cq, sq := cq + sq, [];
      filled := filled - IdSet(ids);
      n := if queued > 0 then queued else -1;
    }

    /** io_uring_slab_reap: take the oldest completion; its slab now holds the
        file's bytes, unless it was released in the meantime. */
    method Reap() returns (done: bool, token: int)
      requires Valid() && (ok ==> cq != [])
      modifies this
      ensures Valid()
      ensures done == ok
      ensures ok ==> token == old(cq[0].token) && cq == old(cq[1..])
      ensures ok ==> filled == old(if cq[0].clean then filled + {cq[0].dst} else filled)
      ensures !ok ==> cq == old(cq) && filled == old(filled)
    {
      if !ok {
        return false, 0;
      }
      token := cq[0].token;
      if cq[0].clean {
        filled := filled + {cq[0].dst};
      }
      cq := cq[1..];
      done := true;
    }

    method ReapAll(n: nat, ghost s: State)
      requires Valid() && ok && n <= |cq| && s.ring == cq && s.filled == filled
      modifies this
      ensures Valid() && cq == ReapMany(s, n).ring && filled == ReapMany(s, n).filled
    {
      ghost var now := s;
      for k := 0 to n
        invariant Valid() && cq == now.ring && filled == now.filled && n - k <= |cq|
        invariant ReapMany(now, n - k) == ReapMany(s, n)
      {
        now := PagerModel.Reap(now);
        var _, _ := Reap();
      }
    }

    /** One chunk of a synchronous read. */
    method ReadPart(part: seq<SlabId>, ghost s: State) returns (ghost s': State)
      requires Valid() && ok && part != [] && s.ring == cq && s.filled == filled
      modifies this
      ensures Valid() && s' == ReadChunk(s, part) && cq == s'.ring && filled == s'.filled
    {
      var n := Submit(part, 0);
      ghost var s1 := PagerModel.Submit(s, 0, part);
      ReapAll(n, s1);
      s' := ReadChunk(s, part);
    }

    /** io_uring_slab_read: chunk by chunk, submit and reap as many completions
        as were queued. `s` is any pager state whose ring this is. */
    method Read(ids: seq<SlabId>, ghost s: State) returns (allOk: bool)
      requires Valid() && s.ring == cq && s.filled == filled
      modifies this
      ensures Valid()
      ensures allOk == (ok && ids != [])
      ensures cq == (if ok then SlabRead(s, ids).ring else s.ring)
      ensures filled == (if ok then SlabRead(s, ids).filled else s.filled)
    {
      if !ok || ids == [] {
        return false;
      }
      allOk := true;
      var start := 0;
      ghost var now := s;
      while start < |ids|
        invariant 0 <= start <= |ids| && Valid()
        invariant cq == now.ring && filled == now.filled
        invariant SlabRead(now, ids[start..]) == SlabRead(s, ids)
      {
        var end := if start + READ_CHUNK < |ids| then start + READ_CHUNK else |ids|;
        SlabReadStep(now, ids, start, end);
        now := ReadPart(ids[start..end], now);
        start := end;
      }
    }

    /** madvise releasing a layer's slabs. */
    method Release(ids: set<SlabId>)
      modifies this
      requires Valid()
      ensures Valid() && filled == old(filled) - ids && cq == Spoil(old(cq), ids)
    {
      cq := Spoil(cq, ids);
      filled := filled - ids;
    }
  }
}
