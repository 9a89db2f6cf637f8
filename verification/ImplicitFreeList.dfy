/**
 The implicit free list: every block carries a (size, free) header and both malloc and
 free walk the whole pool from its first byte. Offsets from the start of the pool stand
 for addresses.
 */
module ImplicitFreeList {
  import opened HeapLayout
  import opened HeapMemory

  const HEADER := 16
  const POOL := 10240

  // What malloc's stores into block k, chosen by first fit, leave behind.
  lemma {:induction false} CarveDone(s: Layout, k: nat, n: nat, m: Headers, m': Headers)
    requires Coalesced(s, HEADER, POOL) && Holds(m, s) && n % 4 == 0 && k < |s| && Fits(s[k], n)
    requires forall i :: 0 <= i < k ==> !Fits(s[i], n)
    requires var p := Pieces(s[k], n, HEADER);
             m' == if |p| == 2
                   then m[p[1].addr := Header(p[1].size, true)][p[0].addr := Header(n, true)][p[0].addr := Header(n, false)]
                   else m[p[0].addr := Header(p[0].size, false)]
    ensures FirstFit(s, n) == k
    ensures Coalesced(Carve(s, k, n, HEADER), HEADER, POOL) && Holds(m', Carve(s, k, n, HEADER))
    ensures PayloadsUntouched(s, HEADER, m, m')
  {
    var p := Pieces(s[k], n, HEADER);
    CarveKeeps(s, k, n, HEADER, POOL);
    CarvedHeaders(s, k, n, HEADER, POOL, m, m');
    CarveStarts(s, k, n, HEADER);
    assert p[0] in p && p[|p|-1] in p;
    CarveMissesPayloads(s, k, n, HEADER, POOL, m, m');
  }

  class Heap {
    var headers: Headers
    ghost var layout: Layout

    ghost predicate Valid()
      reads this
    {
      Coalesced(layout, HEADER, POOL) && Holds(headers, layout)
    }

    constructor ()
      ensures Valid() && layout == [Block(0, POOL - HEADER, true)]
    {
      headers := map[0 := Header(POOL - HEADER, true)];
      layout := [Block(0, POOL - HEADER, true)];
      new;
      InitialCoalesced(HEADER, POOL);
    }

    /** First fit in address order: NULL exactly when no free block is large enough. */
    method Malloc(r: nat) returns (p: Ptr)
      requires Valid() && r < SIZE_MAX_PLUS_ONE
      modifies this
      ensures Valid()
      ensures p == Null <==> forall b :: b in old(layout) ==> !Fits(b, Align4(r))
      ensures p == Null ==> layout == old(layout) && headers == old(headers)
      ensures var k := FirstFit(old(layout), Align4(r));
              p != Null ==>
                && k < |old(layout)|
                && p == At(old(layout)[k].addr + HEADER)
                && layout == Carve(old(layout), k, Align4(r), HEADER)
      ensures PayloadsUntouched(old(layout), HEADER, old(headers), headers)
    {
      var size := Align4(r);
      var ptr := 0;
      ghost var k := 0;
      while ptr < POOL
        invariant layout == old(layout) && headers == old(headers)
        invariant k <= |layout|
        invariant ptr == if k < |layout| then layout[k].addr else POOL
        invariant forall i :: 0 <= i < k ==> !Fits(layout[i], size)
        decreases POOL - ptr
      {
        assert layout[k] in layout;
        TilesNext(layout, k, HEADER, 0, POOL);
        if headers[ptr].free && headers[ptr].size >= size {
          var remaining := headers[ptr].size - size;
          if remaining > HEADER + 4 {
            var next := ptr + HEADER + size;
            headers := headers[next := Header(remaining - HEADER, true)];
            headers := headers[ptr := headers[ptr].(size := size)];
          }
          headers := headers[ptr := headers[ptr].(free := false)];
          CarveDone(layout, k, size, old(headers), headers);
          layout := Carve(layout, k, size, HEADER);
          return At(ptr + HEADER);
        }
        ptr := ptr + HEADER + headers[ptr].size;
        k := k + 1;
      }
      if k < |layout| {
        assert layout[k] in layout;
        TilesNext(layout, k, HEADER, 0, POOL);
      }
      return Null;
    }

    /** Marks the block and sweeps the pool once, merging neighbours that are both free. */
    method Free(p: Ptr)
      requires Valid()
      requires p != Null ==> p.addr >= HEADER && IsLive(layout, p.addr - HEADER)
      modifies this
      ensures Valid()
      ensures p == Null ==> layout == old(layout) && headers == old(headers)
      ensures p != Null ==> layout == FreeAt(old(layout), p.addr - HEADER, HEADER)
      ensures PayloadsUntouched(layout, HEADER, old(headers), headers)
    {
      if p != Null { FreeBlock(p.addr - HEADER); }
    }

    method FreeBlock(block: nat)
      requires Valid() && IsLive(layout, block)
      modifies this
      ensures Valid()
      ensures layout == FreeAt(old(layout), block, HEADER)
      ensures PayloadsUntouched(layout, HEADER, old(headers), headers)
    {
      ghost var s, m, k := layout, headers, IndexAt(layout, block);
      assert s[k] in s;
      headers := headers[block := headers[block].(free := true)];
      SweepStart(s, k, HEADER, POOL, m);
      ReleaseStarts(s, k);
      assert [] + Release(s, k) == Release(s, k);
      Sweep(s, k, m);
    }

    // The coalescing loop of free, from the state right after block k was marked.
    method Sweep(ghost s: Layout, ghost k: nat, ghost m: Headers)
      requires Coalesced(s, HEADER, POOL) && k < |s| && !s[k].free
      requires Sweeping(HEADER, POOL, Coalesce(Release(s, k), HEADER), [], Release(s, k), headers)
      requires Release(s, k)[0].addr == 0
      requires Confined(s, [], Release(s, k), m, headers)
      modifies this
      ensures Valid()
      ensures layout == Coalesce(Release(s, k), HEADER)
      ensures PayloadsUntouched(layout, HEADER, m, headers)
    {
      ghost var goal := Coalesce(Release(s, k), HEADER);
      ghost var done, rest: Layout := [], Release(s, k);
      var curr := 0;
      while curr < POOL
        invariant Sweeping(HEADER, POOL, goal, done, rest, headers) && curr == rest[0].addr
        invariant Confined(s, done, rest, m, headers)
        decreases POOL - (curr + HEADER + headers[curr].size)
      {
        SweepReads(HEADER, POOL, goal, done, rest, headers);
        var next := curr + HEADER + headers[curr].size;
        if next >= POOL { break; }
        if headers[curr].free && headers[next].free {
          SweepMerge(HEADER, POOL, goal, done, rest, headers);
          ConfinedMerge(HEADER, s, done, rest, m, headers, Header(Join(rest[0], rest[1], HEADER).size, true));
          headers := headers[curr := headers[curr].(size := headers[curr].size + HEADER + headers[next].size)];
          rest := Merged(rest, HEADER);
        } else {
          SweepAdvance(HEADER, POOL, goal, done, rest, headers);
          curr := next;
          done, rest := done + [rest[0]], rest[1..];
        }
      }
      SweepReads(HEADER, POOL, goal, done, rest, headers);
      layout := done + rest;
      SweepEnd(s, k, HEADER, POOL, done, rest, headers, m, headers);
    }
  }

  // ---------------------------------------------------------------- whole runs

  datatype Call = MallocCall(r: nat) | FreeCall(addr: nat)

  // A call the allocator's contract allows in layout `s`: free names a live block.
  ghost predicate Legal(s: Layout, c: Call) {
    match c
    case MallocCall(r) => r < SIZE_MAX_PLUS_ONE
    case FreeCall(a) => IsLive(s, a)
  }

  ghost function After(s: Layout, c: Call): Layout
    requires Legal(s, c)
  {
    match c
    case MallocCall(r) =>
      var k := FirstFit(s, Align4(r));
      if k == |s| then s else Carve(s, k, Align4(r), HEADER)
    case FreeCall(a) => FreeAt(s, a, HEADER)
  }

  ghost predicate Reaches(s: Layout, calls: seq<Call>, t: Layout)
    decreases |calls|
  {
    if calls == [] then s == t
    else Legal(s, calls[0]) && Reaches(After(s, calls[0]), calls[1..], t)
  }

  /** Whatever calls are made, the pool stays exactly tiled, aligned and coalesced. */
  lemma {:induction false} EveryRunCoalesced(s: Layout, calls: seq<Call>, t: Layout)
    requires Coalesced(s, HEADER, POOL) && Reaches(s, calls, t)
    ensures Coalesced(t, HEADER, POOL)
    decreases |calls|
  {
    if calls != [] {
      match calls[0]
      case MallocCall(r) =>
        var k := FirstFit(s, Align4(r));
        if k < |s| { CarveKeeps(s, k, Align4(r), HEADER, POOL); }
        EveryRunCoalesced(After(s, calls[0]), calls[1..], t);
      case FreeCall(a) =>
        FreeAtKeeps(s, a, HEADER, POOL);
        EveryRunCoalesced(After(s, calls[0]), calls[1..], t);
    }
  }

  /** From any reachable layout a successful malloc followed by free of its result is
      the identity, and for a request that does not wrap the payload exceeds it by at
      most 23 bytes. */
  lemma {:induction false} MallocFreeIdentity(s: Layout, r: nat)
    requires Coalesced(s, HEADER, POOL) && r < SIZE_MAX_PLUS_ONE
    requires FirstFit(s, Align4(r)) < |s|
    ensures var k := FirstFit(s, Align4(r));
            var t := After(s, MallocCall(r));
            && Legal(t, FreeCall(s[k].addr))
            && After(t, FreeCall(s[k].addr)) == s
            && (r + 3 < SIZE_MAX_PLUS_ONE ==> r <= t[IndexAt(t, s[k].addr)].size <= r + 23)
  {
    var n := Align4(r);
    var k := FirstFit(s, n);
    var t := Carve(s, k, n, HEADER);
    CarveThenFreeRestores(s, k, n, HEADER, POOL);
    CarveKeeps(s, k, n, HEADER, POOL);
    IndexAtTiled(t, HEADER, POOL, k);
    CarveLive(s, k, n, HEADER, POOL);
    assert t[k] == Pieces(s[k], n, HEADER)[0];
    Align4Covers(r);
  }

  /** The class, driven through any sequence of legal calls, is in the state the runs say. */
  method Drive(calls: seq<Call>, ghost t: Layout) returns (heap: Heap)
    requires Reaches([Block(0, POOL - HEADER, true)], calls, t)
    ensures fresh(heap) && heap.Valid() && heap.layout == t
  {
    heap := new Heap();
    for i := 0 to |calls|
      invariant fresh(heap) && heap.Valid() && Reaches(heap.layout, calls[i..], t)
    {
      assert calls[i..][0] == calls[i] && calls[i..][1..] == calls[i+1..];
      match calls[i]
      case MallocCall(r) =>
        ghost var k := FirstFit(heap.layout, Align4(r));
        FirstFitFits(heap.layout, Align4(r));
        var p := heap.Malloc(r);
      case FreeCall(a) =>
        heap.Free(At(a + HEADER));
    }
    assert calls[|calls|..] == [];
  }

  lemma {:induction false} FirstFitFits(s: Layout, n: nat)
    ensures FirstFit(s, n) == |s| <==> forall b :: b in s ==> !Fits(b, n)
  {
    var k := FirstFit(s, n);
    if k < |s| { assert s[k] in s; }
  }
}
