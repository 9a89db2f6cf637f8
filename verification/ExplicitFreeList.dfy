/**
 The explicit free list: free blocks are threaded on a doubly linked list, newest first.
 Malloc searches only that list; free pushes the block and then sweeps the pool in
 address order, unlinking every block that its left neighbour absorbs.
 */
module ExplicitFreeList {
  import opened HeapLayout
  import opened HeapMemory
  import opened FreeLinks
  import opened Lists

  const HEADER := 32
  const POOL := 10240

  // ---------------------------------------------------------------- the list as an index

  ghost predicate Indexes(f: seq<nat>, s: Layout) {
    Elems(f) == FreeAddrs(s)
  }

  lemma {:induction false} IndexedBlock(f: seq<nat>, s: Layout, h: nat, hi: nat, a: nat)
    requires h > 0 && Tiles(s, h, 0, hi) && Indexes(f, s) && a in f
    ensures IndexAt(s, a) < |s| && s[IndexAt(s, a)].addr == a && s[IndexAt(s, a)].free
  {
    assert a in FreeAddrs(s);
    var b :| b in s && b.free && b.addr == a;
    var k :| 0 <= k < |s| && s[k] == b;
    IndexAtTiled(s, h, hi, k);
  }

  // What the search loop reads from the j-th listed block.
  lemma {:induction false} ListReads(f: seq<nat>, head: Ptr, s: Layout, m: Nodes, j: nat)
    requires Tiles(s, HEADER, 0, POOL) && Holds(Sizes(m), s) && Linked(f, head, m) && Indexes(f, s) && j < |f|
    ensures f[j] in m && m[f[j]].next == Here(f, j + 1) && m[f[j]].free
    ensures var k := IndexAt(s, f[j]); k < |s| && s[k].free && m[f[j]].size == s[k].size
  {
    assert f[j] in f;
    IndexedBlock(f, s, HEADER, POOL, f[j]);
    var k := IndexAt(s, f[j]);
    assert s[k] in s && Sizes(m)[f[j]] == Header(s[k].size, true);
    ChainAt(f, Null, m, j);
  }

  /** Searching the list succeeds in exactly the heaps where a scan of all blocks would. */
  lemma {:induction false} ListSearchComplete(f: seq<nat>, s: Layout, n: nat, h: nat, hi: nat)
    requires h > 0 && Tiles(s, h, 0, hi) && Indexes(f, s)
    ensures ListFit(f, s, n) < |f| <==> FirstFit(s, n) < |s|
    ensures ListFit(f, s, n) == |f| ==> forall b :: b in s ==> !Fits(b, n)
  {
    var k := FirstFit(s, n);
    if k < |s| {
      assert s[k] in s && s[k].addr in FreeAddrs(s);
      var i :| 0 <= i < |f| && f[i] == s[k].addr;
      IndexAtTiled(s, h, hi, k);
    }
  }

  lemma {:induction false} SearchFinds(f: seq<nat>, s: Layout, n: nat)
    requires Tiles(s, HEADER, 0, POOL) && Indexes(f, s)
    ensures ListFit(f, s, n) == |f| <==> forall b :: b in s ==> !Fits(b, n)
  {
    ListSearchComplete(f, s, n, HEADER, POOL);
    var j := ListFit(f, s, n);
    if j < |f| { assert s[IndexAt(s, f[j])] in s; }
  }

  lemma {:induction false} CarveFreeAddrs(s: Layout, k: nat, n: nat, h: nat, hi: nat)
    requires h > 0 && h % 4 == 0 && Tiles(s, h, 0, hi) && k < |s| && Fits(s[k], n)
    ensures FreeAddrs(Carve(s, k, n, h))
         == (if Splits(s[k], n, h) then {s[k].addr + h + n} else {}) + (FreeAddrs(s) - {s[k].addr})
    ensures Splits(s[k], n, h) ==> !StartsAt(s, s[k].addr + h + n)
  {
    CarveMembers(s, k, n, h, hi);
    var p := Pieces(s[k], n, h);
    assert p[|p|-1] in p;
    if Splits(s[k], n, h) && StartsAt(s, s[k].addr + h + n) {
      var b :| b in s && b.addr == s[k].addr + h + n;
      PayloadsIsolated(s, h, hi, s[k], b);
      assert false;
    }
  }

  lemma {:induction false} ReleaseFreeAddrs(s: Layout, k: nat)
    requires k < |s|
    ensures FreeAddrs(Release(s, k)) == {s[k].addr} + FreeAddrs(s)
  {
    var t := Release(s, k);
    assert t[k] in t;
    forall b | b in t && b.free ensures b.addr in {s[k].addr} + FreeAddrs(s) {
      var j :| 0 <= j < |t| && t[j] == b;
      assert j == k || b == s[j];
    }
    forall b | b in s && b.free ensures b.addr in FreeAddrs(t) {
      var j :| 0 <= j < |s| && s[j] == b;
      assert t[j] in t && t[j].addr == b.addr;
    }
  }

  lemma {:induction false} MergeFreeAddrs(h: nat, hi: nat, done: Layout, rest: Layout)
    requires h > 0 && Tiles(done + rest, h, 0, hi) && |rest| > 1 && rest[0].free && rest[1].free
    ensures FreeAddrs(done + Merged(rest, h)) == FreeAddrs(done + rest) - {rest[1].addr}
    ensures rest[1].addr in FreeAddrs(done + rest)
  {
    var s := done + rest;
    var t := done + Merged(rest, h);
    var d := |done|;
    assert s[d] == rest[0] && s[d+1] == rest[1] && t[d] == Join(rest[0], rest[1], h);
    assert s[d] in s && s[d+1] in s && t[d] in t;
    forall b | b in t && b.free ensures b.addr in FreeAddrs(s) - {rest[1].addr} {
      var i :| 0 <= i < |t| && t[i] == b;
      var i' := if i <= d then i else i + 1;
      assert s[i'].addr == b.addr && s[i'].free && s[i'] in s;
      TilesDistinct(s, h, 0, hi, i', d + 1);
    }
    forall b | b in s && b.free && b.addr != rest[1].addr ensures b.addr in FreeAddrs(t) {
      var i :| 0 <= i < |s| && s[i] == b;
      assert t[if i <= d then i else i - 1] in t;
    }
  }

  // ---------------------------------------------------------------- the allocator

  /** The list holds exactly the free blocks of the coalesced tiling, each once, with next and
      prev mutually inverse. */
  ghost predicate InOrder(s: Layout, f: seq<nat>, head: Ptr, m: Nodes) {
    && Coalesced(s, HEADER, POOL)
    && Holds(Sizes(m), s)
    && Linked(f, head, m)
    && Indexes(f, s)
  }

  class Heap {
    var memory: Nodes
    var freeList: Ptr
    ghost var layout: Layout
    ghost var order: seq<nat>

    ghost predicate Valid()
      reads this
    {
      InOrder(layout, order, freeList, memory)
    }

    constructor ()
      ensures Valid() && layout == [Block(0, POOL - HEADER, true)] && order == [0]
    {
      memory := map[0 := Node(POOL - HEADER, true, Null, Null)];
      freeList := At(0);
      layout := [Block(0, POOL - HEADER, true)];
      order := [0];
      new;
      InitialCoalesced(HEADER, POOL);
      assert layout[0] in layout;
      assert order[1..] == [];
      assert Chain(order[1..], At(0), memory) && Distinct(order[1..]);
    }

    method AddToFreeList(block: nat)
      requires block in memory && freeList != At(block) && (freeList != Null ==> freeList.addr in memory)
      modifies this`memory, this`freeList
      ensures Pushed(old(memory), old(freeList), block, memory)
      ensures freeList == At(block)
    {
      memory := memory[block := memory[block].(next := freeList)];
      if freeList != Null {
        memory := memory[freeList.addr := memory[freeList.addr].(prev := At(block))];
      }
      memory := memory[block := memory[block].(prev := Null)];
      freeList := At(block);
    }

    method RemoveFromFreeList(block: nat)
      requires NeighboursInMemory(memory, block)
      modifies this`memory, this`freeList
      ensures Unlinked(old(memory), block, memory)
      ensures freeList == if old(freeList) == At(block) then old(memory)[block].next else old(freeList)
    {
      if memory[block].prev != Null {
        var before := memory[block].prev.addr;
        memory := memory[before := memory[before].(next := memory[block].next)];
      }
      if memory[block].next != Null {
        var after := memory[block].next.addr;
        memory := memory[after := memory[after].(prev := memory[block].prev)];
      }
      if freeList == At(block) {
        freeList := memory[block].next;
      }
    }

    /** First fit in list order; succeeds exactly when some block of the pool fits. The
        remainder of a split goes to the front of the list. */
    method Malloc(r: nat) returns (p: Ptr)
      requires Valid() && r < SIZE_MAX_PLUS_ONE
      modifies this
      ensures Valid()
      ensures p == Null <==> forall b :: b in old(layout) ==> !Fits(b, Align4(r))
      ensures p == Null ==> memory == old(memory)
      ensures p != Null ==>
                var j := ListFit(old(order), old(layout), Align4(r));
                j < |old(order)| && p == At(old(order)[j] + HEADER)
      ensures View(layout, order) == After(old(View(layout, order)), MallocCall(r))
      ensures PayloadsUntouched(old(layout), HEADER, old(memory), memory)
    {
      var size := Align4(r);
      SearchFinds(order, layout, size);
      var curr := Search(size);
      if curr == Null { return Null; }
      Take(curr.addr, size, ListFit(order, layout, size));
      return At(curr.addr + HEADER);
    }

    // The search loop: the first listed block that fits.
    method Search(size: nat) returns (curr: Ptr)
      requires Valid()
      ensures curr == Here(order, ListFit(order, layout, size))
    {
      curr := freeList;
      ghost var j := 0;
      while curr != Null
        invariant j <= |order| && curr == Here(order, j)
        invariant forall i :: 0 <= i < j ==>
                    IndexAt(layout, order[i]) < |layout| && !Fits(layout[IndexAt(layout, order[i])], size)
        decreases |order| - j
      {
        var c := curr.addr;
        ListReads(order, freeList, layout, memory, j);
        if memory[c].free && memory[c].size >= size {
          return;
        }
        curr := memory[c].next;
        j := j + 1;
      }
    }

    // The body of malloc's success branch: split if worthwhile, mark, unlink.
    method Take(c: nat, size: nat, ghost j: nat)
      requires Valid() && size % 4 == 0 && j < |order| && order[j] == c
      requires var k := IndexAt(layout, c); k < |layout| && Fits(layout[k], size)
      modifies this
      ensures Valid()
      ensures View(layout, order) == AfterTake(old(View(layout, order)), j, size)
      ensures PayloadsUntouched(old(layout), HEADER, old(memory), memory)
    {
      ghost var k := IndexAt(layout, c);
      ghost var s, f, m := layout, order, memory;
      assert Coalesced(s, HEADER, POOL) && Holds(Sizes(m), s) && Indexes(f, s) && s[k].addr == c;
      ghost var i := Split(c, size, j, k);
      Complete(c, size, s, k, j, f, m, i);
    }

    // Allocates block k, already trimmed and listed at i.
    method Complete(c: nat, size: nat, ghost s: Layout, ghost k: nat, ghost j: nat, ghost f: seq<nat>, ghost m: Nodes, ghost i: nat)
      requires Coalesced(s, HEADER, POOL) && Holds(Sizes(m), s) && Indexes(f, s) && size % 4 == 0
      requires k < |s| && s[k].addr == c && Fits(s[k], size) && j < |f|
      requires Trimmed(s, k, size, j, f, m, i, order, freeList, memory)
      modifies this
      ensures Valid() && layout == Carve(s, k, size, HEADER)
      ensures order == (if Splits(s[k], size, HEADER) then [c + HEADER + size] else []) + RemoveAt(f, j)
      ensures PayloadsUntouched(s, HEADER, m, memory)
    {
      ghost var g, m3, head := order, memory, freeList;
      TrimmedReads(s, k, size, j, f, m, i, g, head, m3);
      Unlist(c);
      TakeKeeps(s, k, size, j, f, m, i, g, head, m3, memory, freeList);
      layout, order := Carve(s, k, size, HEADER), RemoveAt(g, i);
    }

    // Marks the block as allocated and takes it off the list.
    method Unlist(c: nat)
      requires c in memory && NeighboursInMemory(memory[c := memory[c].(free := false)], c)
      modifies this`memory, this`freeList
      ensures Unlinked(old(memory)[c := old(memory)[c].(free := false)], c, memory)
      ensures freeList == if old(freeList) == At(c) then old(memory)[c].next else old(freeList)
    {
      memory := memory[c := memory[c].(free := false)];
      RemoveFromFreeList(c);
    }

    // Cuts the remainder off a block that is large enough and pushes it on the list; the
    // block itself is trimmed but still listed, at the returned position.
    method Split(c: nat, size: nat, ghost j: nat, ghost k: nat) returns (ghost i: nat)
      requires Valid() && j < |order| && order[j] == c
      requires k == IndexAt(layout, c) && k < |layout| && Fits(layout[k], size)
      modifies this`memory, this`freeList, this`order
      ensures Trimmed(layout, k, size, j, old(order), old(memory), i, order, freeList, memory)
    {
      ghost var f, m := order, memory;
      i := j;
      UnsplitTrimmed(layout, k, size, j, f, m, freeList);
      if memory[c].size > size + HEADER + 4 {
        var extra := c + HEADER + size;
        FreshStart(f, freeList, m, layout, k, size);
        memory := memory[extra := Node(memory[c].size - size - HEADER, true, Null, Null)];
        ghost var m1 := memory;
        AddToFreeList(extra);
        ghost var m2 := memory;
        memory := memory[c := memory[c].(size := size)];
        order := [extra] + order;
        i := j + 1;
        SplitTrimmed(layout, k, size, j, f, old(freeList), m, m1, m2, memory);
      }
    }

    /** Marks and pushes the block, then sweeps. The list that remains is the pushed list
        without the blocks that were absorbed, in unchanged order. */
    method Free(p: Ptr)
      requires Valid()
      requires p != Null ==> p.addr >= HEADER && IsLive(layout, p.addr - HEADER)
      modifies this
      ensures Valid()
      ensures p == Null ==> layout == old(layout) && order == old(order) && memory == old(memory)
      ensures p != Null ==>
                && layout == FreeAt(old(layout), p.addr - HEADER, HEADER)
                && order == Keep([p.addr - HEADER] + old(order), FreeAddrs(layout))
      ensures PayloadsUntouched(layout, HEADER, old(memory), memory)
    {
      if p != Null { FreeBlock(p.addr - HEADER); }
    }

    method FreeBlock(block: nat)
      requires Valid() && IsLive(layout, block)
      modifies this
      ensures Valid()
      ensures layout == FreeAt(old(layout), block, HEADER)
      ensures order == Keep([block] + old(order), FreeAddrs(layout))
      ensures PayloadsUntouched(layout, HEADER, old(memory), memory)
    {
      ghost var s, m, k := layout, memory, IndexAt(layout, block);
      MarkFree(block, k);
      Sweep(s, k, order, m);
    }

    // Marks and pushes block k, which puts the sweep in its first state.
    method MarkFree(block: nat, ghost k: nat)
      requires Valid() && k < |layout| && !layout[k].free && layout[k].addr == block
      modifies this`memory, this`freeList, this`order
      ensures order == [block] + old(order)
      ensures Sweeping(HEADER, POOL, Coalesce(Release(layout, k), HEADER), [], Release(layout, k), Sizes(memory))
      ensures Release(layout, k)[0].addr == 0
      ensures ListSweep(layout, order, [], Release(layout, k), order, freeList, old(memory), memory)
    {
      ghost var m := memory;
      FreedNotListed(order, freeList, m, layout, k);
      memory := memory[block := memory[block].(free := true)];
      ghost var m1 := memory;
      AddToFreeList(block);
      PushFreed(order, old(freeList), m, layout, k, m1, memory);
      order := [block] + order;
    }

    // The coalescing loop of free, from the state right after the block was pushed.
    method Sweep(ghost s: Layout, ghost k: nat, ghost f: seq<nat>, ghost m: Nodes)
      requires Coalesced(s, HEADER, POOL) && k < |s| && !s[k].free
      requires Sweeping(HEADER, POOL, Coalesce(Release(s, k), HEADER), [], Release(s, k), Sizes(memory))
      requires Release(s, k)[0].addr == 0
      requires ListSweep(s, f, [], Release(s, k), order, freeList, m, memory)
      modifies this
      ensures Valid()
      ensures layout == Coalesce(Release(s, k), HEADER)
      ensures order == Keep(f, FreeAddrs(layout))
      ensures PayloadsUntouched(layout, HEADER, m, memory)
    {
      ghost var goal := Coalesce(Release(s, k), HEADER);
      ghost var done, rest: Layout := [], Release(s, k);
      var curr := 0;
      while curr < POOL
        invariant Sweeping(HEADER, POOL, goal, done, rest, Sizes(memory)) && curr == rest[0].addr
        invariant ListSweep(s, f, done, rest, order, freeList, m, memory)
        decreases POOL - (curr + HEADER + memory[curr].size)
      {
        SweepReads(HEADER, POOL, goal, done, rest, Sizes(memory));
        var next := curr + HEADER + memory[curr].size;
        if next >= POOL { break; }
        if memory[curr].free && memory[next].free {
          Absorb(s, goal, f, done, rest, m, curr, next);
          rest := Merged(rest, HEADER);
        } else {
          SweepAdvance(HEADER, POOL, goal, done, rest, Sizes(memory));
          curr := next;
          done, rest := done + [rest[0]], rest[1..];
        }
      }
      SweepReads(HEADER, POOL, goal, done, rest, Sizes(memory));
      layout := done + rest;
      SweepEnd(s, k, HEADER, POOL, done, rest, Sizes(memory), m, memory);
    }

    // The current block takes in the next one, which leaves the list.
    method Absorb(ghost s: Layout, ghost goal: Layout, ghost f: seq<nat>, ghost done: Layout, ghost rest: Layout,
                  ghost m: Nodes, curr: nat, next: nat)
      requires Sweeping(HEADER, POOL, goal, done, rest, Sizes(memory))
      requires ListSweep(s, f, done, rest, order, freeList, m, memory)
      requires |rest| > 1 && rest[0].free && rest[1].free && curr == rest[0].addr && next == rest[1].addr
      modifies this
      ensures Sweeping(HEADER, POOL, goal, done, Merged(rest, HEADER), Sizes(memory))
      ensures ListSweep(s, f, done, Merged(rest, HEADER), order, freeList, m, memory)
    {
      SweepReads(HEADER, POOL, goal, done, rest, Sizes(memory));
      ghost var i := NextListed(s, goal, f, done, rest, order, freeList, m, memory);
      ghost var m1, head := memory, freeList;
      RemoveFromFreeList(next);
      ghost var m2 := memory;
      memory := memory[curr := memory[curr].(size := memory[curr].size + HEADER + memory[next].size)];
      ListSweepMerge(s, goal, f, done, rest, order, head, m, m1, i, m2, memory);
      order := RemoveAt(order, i);
    }
  }

  // ---------------------------------------------------------------- across calls

  /** Whichever free block the list search picks, malloc followed by free of its result
      gives back the identical block sequence; the payload exceeds a request that does
      not wrap by at most 39 bytes. */
  lemma {:induction false} MallocFreeIdentity(s: Layout, f: seq<nat>, r: nat)
    requires Coalesced(s, HEADER, POOL) && Indexes(f, s) && r < SIZE_MAX_PLUS_ONE
    requires ListFit(f, s, Align4(r)) < |f|
    ensures var n := Align4(r);
            var a := f[ListFit(f, s, n)];
            var t := Carve(s, IndexAt(s, a), n, HEADER);
            && IsLive(t, a)
            && FreeAt(t, a, HEADER) == s
            && (r + 3 < SIZE_MAX_PLUS_ONE ==> r <= t[IndexAt(t, a)].size <= r + 39)
  {
    var n := Align4(r);
    var a := f[ListFit(f, s, n)];
    var k := IndexAt(s, a);
    var t := Carve(s, k, n, HEADER);
    CarveThenFreeRestores(s, k, n, HEADER, POOL);
    CarveKeeps(s, k, n, HEADER, POOL);
    IndexAtTiled(t, HEADER, POOL, k);
    CarveLive(s, k, n, HEADER, POOL);
    assert t[k] == Pieces(s[k], n, HEADER)[0];
    Align4Covers(r);
  }

  // The heap between calls: its blocks, and its list in order.
  datatype View = View(layout: Layout, order: seq<nat>)

  datatype Call = MallocCall(r: nat) | FreeCall(addr: nat)

  ghost predicate Legal(v: View, c: Call) {
    match c
    case MallocCall(r) => r < SIZE_MAX_PLUS_ONE
    case FreeCall(a) => IsLive(v.layout, a)
  }

  // The j-th listed block is carved, and its remainder goes to the front of the list.
  ghost function AfterTake(v: View, j: nat, n: nat): View
    requires j < |v.order| && IndexAt(v.layout, v.order[j]) < |v.layout| && n <= v.layout[IndexAt(v.layout, v.order[j])].size
  {
    var a := v.order[j];
    var k := IndexAt(v.layout, a);
    View(Carve(v.layout, k, n, HEADER),
         (if Splits(v.layout[k], n, HEADER) then [a + HEADER + n] else []) + RemoveAt(v.order, j))
  }

  // What Malloc and Free make of blocks and list.
  ghost function After(v: View, c: Call): View
    requires Legal(v, c)
  {
    match c
    case MallocCall(r) =>
      var n := Align4(r);
      var j := ListFit(v.order, v.layout, n);
      if j == |v.order| then v else AfterTake(v, j, n)
    case FreeCall(a) =>
      var t := FreeAt(v.layout, a, HEADER);
      View(t, Keep([a] + v.order, FreeAddrs(t)))
  }

  ghost predicate Indexed(v: View) {
    Coalesced(v.layout, HEADER, POOL) && Distinct(v.order) && Indexes(v.order, v.layout)
  }

  lemma {:induction false} MallocIndexed(v: View, r: nat)
    requires Indexed(v) && r < SIZE_MAX_PLUS_ONE
    ensures Indexed(After(v, MallocCall(r)))
  {
    var n := Align4(r);
    var j := ListFit(v.order, v.layout, n);
    if j < |v.order| {
      var k := IndexAt(v.layout, v.order[j]);
      CarveKeeps(v.layout, k, n, HEADER, POOL);
      TakenIndexed(v.layout, v.order, k, n, j);
    }
  }

  lemma {:induction false} TakenIndexed(s: Layout, f: seq<nat>, k: nat, n: nat, j: nat)
    requires Tiles(s, HEADER, 0, POOL) && Distinct(f) && Indexes(f, s)
    requires k < |s| && Fits(s[k], n) && j < |f| && f[j] == s[k].addr
    ensures var g := (if Splits(s[k], n, HEADER) then [s[k].addr + HEADER + n] else []) + RemoveAt(f, j);
            Distinct(g) && Indexes(g, Carve(s, k, n, HEADER))
  {
    var rest := RemoveAt(f, j);
    CarveFreeAddrs(s, k, n, HEADER, POOL);
    DistinctRemove(f, j);
    if Splits(s[k], n, HEADER) {
      var extra := s[k].addr + HEADER + n;
      RestMisses(s, rest, extra);
      DistinctCons(extra, rest);
      assert Elems([extra] + rest) == {extra} + (Elems(f) - {f[j]});
    } else {
      assert [] + rest == rest;
      assert Elems(rest) == {} + (Elems(f) - {f[j]});
    }
  }

  lemma {:induction false} RestMisses(s: Layout, rest: seq<nat>, a: nat)
    requires Elems(rest) <= FreeAddrs(s) && !StartsAt(s, a)
    ensures a !in rest
  {
    assert a in rest ==> a in Elems(rest);
  }

  // Coalescing frees no address that was not free before.
  lemma {:induction false} CoalesceFreeAddrs(s: Layout, h: nat)
    ensures FreeAddrs(Coalesce(s, h)) <= FreeAddrs(s)
    decreases |s|
  {
    if |s| >= 2 {
      if s[0].free && s[1].free {
        var t := [Join(s[0], s[1], h)] + s[2..];
        CoalesceFreeAddrs(t, h);
        forall b | b in t && b.free ensures b.addr in FreeAddrs(s) {
          assert b == t[0] || b in s[2..];
          assert s[0] in s && s[0].addr in FreeAddrs(s);
        }
      } else {
        var t := s[1..];
        CoalesceFreeAddrs(t, h);
        forall b | b in Coalesce(s, h) && b.free ensures b.addr in FreeAddrs(s) {
          assert b == s[0] || b in Coalesce(t, h);
          if b != s[0] {
            assert b.addr in FreeAddrs(t);
            var c :| c in t && c.free && c.addr == b.addr;
            assert c in s;
          } else {
            assert s[0] in s;
          }
        }
      }
    }
  }

  lemma {:induction false} KeepDistinct(f: seq<nat>, keep: set<nat>)
    requires Distinct(f)
    ensures Distinct(Keep(f, keep))
  {
    if f != [] {
      KeepDistinct(f[1..], keep);
      KeepMember(f[1..], keep);
      var rest := Keep(f[1..], keep);
      if f[0] in keep {
        DistinctCons(f[0], rest);
      } else {
        assert Keep(f, keep) == rest;
      }
    }
  }

  lemma {:induction false} FreeIndexed(v: View, a: nat)
    requires Indexed(v) && IsLive(v.layout, a)
    ensures Indexed(After(v, FreeCall(a)))
  {
    var s := v.layout;
    var k := IndexAt(s, a);
    var t := FreeAt(s, a, HEADER);
    FreeAtKeeps(s, a, HEADER, POOL);
    if a in v.order {
      IndexedBlock(v.order, s, HEADER, POOL, a);
      assert false;
    }
    ReleaseFreeAddrs(s, k);
    CoalesceFreeAddrs(Release(s, k), HEADER);
    DistinctCons(a, v.order);
    KeepDistinct([a] + v.order, FreeAddrs(t));
    KeepMember([a] + v.order, FreeAddrs(t));
    forall x ensures x in Elems(Keep([a] + v.order, FreeAddrs(t))) <==> x in FreeAddrs(t) {
      if x in FreeAddrs(t) { assert x in {a} + FreeAddrs(s) && x in Elems([a] + v.order); }
    }
  }

  ghost predicate Reaches(v: View, calls: seq<Call>, w: View)
    decreases |calls|
  {
    if calls == [] then v == w
    else Legal(v, calls[0]) && Reaches(After(v, calls[0]), calls[1..], w)
  }

  /** Whatever calls are made, the list holds exactly the free blocks of an exact, coalesced
      tiling, each once. */
  lemma {:induction false} EveryRunIndexed(v: View, calls: seq<Call>, w: View)
    requires Indexed(v) && Reaches(v, calls, w)
    ensures Indexed(w)
    decreases |calls|
  {
    if calls != [] {
      match calls[0]
      case MallocCall(r) => MallocIndexed(v, r); EveryRunIndexed(After(v, calls[0]), calls[1..], w);
      case FreeCall(a) => FreeIndexed(v, a); EveryRunIndexed(After(v, calls[0]), calls[1..], w);
    }
  }

  /** The class, driven through any sequence of legal calls, is in the state the runs say. */
  method Drive(calls: seq<Call>, ghost w: View) returns (heap: Heap)
    requires Reaches(View([Block(0, POOL - HEADER, true)], [0]), calls, w)
    ensures fresh(heap) && heap.Valid() && heap.layout == w.layout && heap.order == w.order
  {
    heap := new Heap();
    for i := 0 to |calls|
      invariant fresh(heap) && heap.Valid() && Reaches(View(heap.layout, heap.order), calls[i..], w)
    {
      assert calls[i..][0] == calls[i] && calls[i..][1..] == calls[i+1..];
      Serve(heap, calls[i]);
    }
    assert calls[|calls|..] == [];
  }

  method Serve(heap: Heap, c: Call)
    requires heap.Valid() && Legal(View(heap.layout, heap.order), c)
    modifies heap
    ensures heap.Valid()
    ensures View(heap.layout, heap.order) == After(old(View(heap.layout, heap.order)), c)
  {
    match c
    case MallocCall(r) => var p := heap.Malloc(r);
    case FreeCall(a) => heap.Free(At(a + HEADER));
  }

  ghost function Frees(order: seq<nat>): seq<Call> {
    if order == [] then [] else [FreeCall(order[0])] + Frees(order[1..])
  }

  /** Once every live block has been freed, in any order, blocks and list are the initial ones. */
  lemma {:induction false} FreeAllRestoresList(v: View, order: seq<nat>)
    requires Indexed(v) && Distinct(order) && LiveAddrs(v.layout) == Elems(order)
    ensures Reaches(v, Frees(order), View([Block(0, POOL - HEADER, true)], [0]))
    decreases |order|
  {
    var s := v.layout;
    FreeAllRestoresInitial(s, order, HEADER, POOL);
    if order == [] {
      assert s == [Block(0, POOL - HEADER, true)];
      assert s[0] in s && FreeAddrs(s) == {0};
      OnlyElement(v.order, 0);
    } else {
      assert IsLive(s, order[0]);
      FreeIndexed(v, order[0]);
      FreeAtKeeps(s, order[0], HEADER, POOL);
      assert order == [order[0]] + order[1..];
      FreeAllRestoresList(After(v, FreeCall(order[0])), order[1..]);
      assert Frees(order)[1..] == Frees(order[1..]);
    }
  }

  // ---------------------------------------------------------------- malloc's list work

  // Where a remainder is about to be stored no block starts yet.
  lemma {:induction false} FreshStart(f: seq<nat>, head: Ptr, m: Nodes, s: Layout, k: nat, n: nat)
    requires Coalesced(s, HEADER, POOL) && Linked(f, head, m) && Indexes(f, s)
    requires k < |s| && Fits(s[k], n) && Splits(s[k], n, HEADER)
    ensures var extra := s[k].addr + HEADER + n;
            extra !in f && head != At(extra) && (head != Null ==> head.addr in m)
  {
    var extra := s[k].addr + HEADER + n;
    CarveFreeAddrs(s, k, n, HEADER, POOL);
    PushReads(f, head, m);
    assert forall x :: x in f ==> x in FreeAddrs(s);
  }

  /** Block k has given up its remainder, if it is large enough to split: the remainder is
      stored and pushed on the list, the block is trimmed and still listed at i. */
  ghost predicate Trimmed(s: Layout, k: nat, n: nat, j: nat, f: seq<nat>, m: Nodes,
                          i: nat, g: seq<nat>, head: Ptr, m': Nodes)
    requires k < |s| && n <= s[k].size
  {
    var c := s[k].addr;
    var extra := c + HEADER + n;
    && j < |f| && i < |g| && g[i] == c && c in m' && Linked(g, head, m')
    && m'[c].free
    && (Splits(s[k], n, HEADER) ==>
          && i == j + 1 && g == [extra] + f
          && m'.Keys == m.Keys + {extra}
          && m'[c].size == n && m'[extra].size == s[k].size - n - HEADER && m'[extra].free)
    && (!Splits(s[k], n, HEADER) ==> i == j && g == f && m'.Keys == m.Keys && m'[c].size == s[k].size)
    && (forall x :: x in m && x != c && (Splits(s[k], n, HEADER) ==> x != extra) ==> m'[x].size == m[x].size && m'[x].free == m[x].free)
    && (forall x :: x in m && x !in g ==> m'[x] == m[x])
  }

  lemma {:induction false} UnsplitTrimmed(s: Layout, k: nat, n: nat, j: nat, f: seq<nat>, m: Nodes, head: Ptr)
    requires Holds(Sizes(m), s) && Linked(f, head, m)
    requires k < |s| && Fits(s[k], n) && j < |f| && f[j] == s[k].addr
    ensures s[k].addr in m && m[s[k].addr].size == s[k].size && m[s[k].addr].free
    ensures !Splits(s[k], n, HEADER) ==> Trimmed(s, k, n, j, f, m, j, f, head, m)
  {
    assert s[k] in s && Sizes(m)[s[k].addr] == Header(s[k].size, true);
  }

  lemma {:induction false} SplitTrimmed(s: Layout, k: nat, n: nat, j: nat, f: seq<nat>, head: Ptr, m: Nodes,
                     m1: Nodes, m2: Nodes, m3: Nodes)
    requires Linked(f, head, m) && k < |s| && n <= s[k].size && Splits(s[k], n, HEADER)
    requires j < |f| && f[j] == s[k].addr && s[k].addr in m && m[s[k].addr].free
    requires var c := s[k].addr;
             var extra := c + HEADER + n;
             && extra !in f
             && m1 == m[extra := Node(s[k].size - n - HEADER, true, Null, Null)]
             && Pushed(m1, head, extra, m2)
             && m3 == m2[c := m2[c].(size := n)]
    ensures var extra := s[k].addr + HEADER + n;
            Trimmed(s, k, n, j, f, m, j + 1, [extra] + f, At(extra), m3)
  {
    var c := s[k].addr;
    var extra := c + HEADER + n;
    assert f[j] in f;
    StoreKeeps(f, head, m, extra, m1[extra]);
    PushKeeps(f, head, m1, extra, m2);
    StoreKeeps([extra] + f, At(extra), m2, c, m3[c]);
  }

  lemma {:induction false} TrimmedReads(s: Layout, k: nat, n: nat, j: nat, f: seq<nat>, m: Nodes,
                     i: nat, g: seq<nat>, head: Ptr, m3: Nodes)
    requires k < |s| && n <= s[k].size && Trimmed(s, k, n, j, f, m, i, g, head, m3)
    ensures var m4 := m3[s[k].addr := m3[s[k].addr].(free := false)];
            NeighboursInMemory(m4, s[k].addr) && Linked(g, head, m4)
  {
    var c := s[k].addr;
    StoreKeeps(g, head, m3, c, m3[c].(free := false));
    UnlinkReads(g, head, m3[c := m3[c].(free := false)], i);
  }

  /** Marking and unlinking the trimmed block completes the allocation: the carved layout,
      its index, and no live payload touched. */
  lemma {:induction false} TakeKeeps(s: Layout, k: nat, n: nat, j: nat, f: seq<nat>, m: Nodes,
                  i: nat, g: seq<nat>, head: Ptr, m3: Nodes, m5: Nodes, head': Ptr)
    requires Coalesced(s, HEADER, POOL) && Holds(Sizes(m), s) && Indexes(f, s) && n % 4 == 0
    requires k < |s| && Fits(s[k], n) && Trimmed(s, k, n, j, f, m, i, g, head, m3)
    requires Unlinked(m3[s[k].addr := m3[s[k].addr].(free := false)], s[k].addr, m5)
    requires head' == if head == At(s[k].addr) then m3[s[k].addr].next else head
    ensures InOrder(Carve(s, k, n, HEADER), RemoveAt(g, i), head', m5)
    ensures RemoveAt(g, i) == (if Splits(s[k], n, HEADER) then [s[k].addr + HEADER + n] else []) + RemoveAt(f, j)
    ensures PayloadsUntouched(s, HEADER, m, m5)
  {
    var m4 := m3[s[k].addr := m3[s[k].addr].(free := false)];
    TrimmedUnlinks(s, k, n, j, f, m, i, g, head, m3, m4, m5);
    CarveKeeps(s, k, n, HEADER, POOL);
    TakeHolds(s, k, n, j, f, m, i, g, head, m3, m4, m5);
    TakeIndexes(s, k, n, f, g, i);
    assert g[i] in g;
    TakeChanges(s, k, n, f, m, g, m3, m4, m5);
  }

  lemma {:induction false} TrimmedUnlinks(s: Layout, k: nat, n: nat, j: nat, f: seq<nat>, m: Nodes,
                       i: nat, g: seq<nat>, head: Ptr, m3: Nodes, m4: Nodes, m5: Nodes)
    requires k < |s| && n <= s[k].size && Trimmed(s, k, n, j, f, m, i, g, head, m3)
    requires m4 == m3[s[k].addr := m3[s[k].addr].(free := false)]
    requires Unlinked(m4, s[k].addr, m5)
    ensures Linked(RemoveAt(g, i), if head == At(s[k].addr) then m4[s[k].addr].next else head, m5)
    ensures Sizes(m5) == Sizes(m4)
    ensures forall x :: x in m4 && x !in g ==> m5[x] == m4[x]
    ensures RemoveAt(g, i) == (if Splits(s[k], n, HEADER) then [s[k].addr + HEADER + n] else []) + RemoveAt(f, j)
  {
    MarkedUnlinks(g, head, m3, i, m4, m5);
    TrimmedOrder(f, j, g, i, Splits(s[k], n, HEADER), s[k].addr + HEADER + n);
  }

  lemma {:induction false} MarkedUnlinks(g: seq<nat>, head: Ptr, m3: Nodes, i: nat, m4: Nodes, m5: Nodes)
    requires Linked(g, head, m3) && i < |g| && g[i] in m3
    requires m4 == m3[g[i] := m3[g[i]].(free := false)] && Unlinked(m4, g[i], m5)
    ensures Linked(RemoveAt(g, i), if head == At(g[i]) then m4[g[i]].next else head, m5)
    ensures Sizes(m5) == Sizes(m4)
    ensures forall x :: x in m4 && x !in g ==> m5[x] == m4[x]
  {
    StoreKeeps(g, head, m3, g[i], m4[g[i]]);
    UnlinkKeeps(g, head, m4, i, m5);
  }

  lemma {:induction false} TrimmedOrder(f: seq<nat>, j: nat, g: seq<nat>, i: nat, splits: bool, extra: nat)
    requires j < |f| && g == (if splits then [extra] + f else f) && i == if splits then j + 1 else j
    ensures RemoveAt(g, i) == (if splits then [extra] else []) + RemoveAt(f, j)
  {
    RemoveAtCons(extra, f, j);
    assert [] + RemoveAt(f, j) == RemoveAt(f, j);
  }

  lemma {:induction false} TakeHolds(s: Layout, k: nat, n: nat, j: nat, f: seq<nat>, m: Nodes,
                  i: nat, g: seq<nat>, head: Ptr, m3: Nodes, m4: Nodes, m5: Nodes)
    requires Coalesced(s, HEADER, POOL) && Holds(Sizes(m), s)
    requires k < |s| && Fits(s[k], n) && Trimmed(s, k, n, j, f, m, i, g, head, m3)
    requires m4 == m3[s[k].addr := m3[s[k].addr].(free := false)]
    requires Sizes(m5) == Sizes(m4)
    ensures Holds(Sizes(m5), Carve(s, k, n, HEADER))
  {
    var p := Pieces(s[k], n, HEADER);
    forall b | b in p ensures b.addr in Sizes(m4) && Sizes(m4)[b.addr] == Header(b.size, b.free) {
      assert b == p[0] || b == p[|p|-1];
    }
    CarvedHeaders(s, k, n, HEADER, POOL, Sizes(m), Sizes(m5));
  }

  lemma {:induction false} TakeIndexes(s: Layout, k: nat, n: nat, f: seq<nat>, g: seq<nat>, i: nat)
    requires Coalesced(s, HEADER, POOL) && k < |s| && Fits(s[k], n) && Indexes(f, s)
    requires g == (if Splits(s[k], n, HEADER) then [s[k].addr + HEADER + n] else []) + f
    requires Distinct(g) && i < |g| && g[i] == s[k].addr
    ensures Indexes(RemoveAt(g, i), Carve(s, k, n, HEADER))
  {
    CarveFreeAddrs(s, k, n, HEADER, POOL);
    DistinctRemove(g, i);
    var extra := if Splits(s[k], n, HEADER) then [s[k].addr + HEADER + n] else [];
    assert Elems(g) == Elems(extra) + Elems(f);
  }

  lemma {:induction false} TakeChanges(s: Layout, k: nat, n: nat, f: seq<nat>, m: Nodes, g: seq<nat>, m3: Nodes, m4: Nodes, m5: Nodes)
    requires Coalesced(s, HEADER, POOL) && k < |s| && Fits(s[k], n) && Indexes(f, s) && s[k].addr in f
    requires Splits(s[k], n, HEADER) ==>
               g == [s[k].addr + HEADER + n] + f && m3.Keys == m.Keys + {s[k].addr + HEADER + n}
    requires !Splits(s[k], n, HEADER) ==> g == f && m3.Keys == m.Keys
    requires forall x :: x in m && x !in g ==> x in m3 && m3[x] == m[x]
    requires s[k].addr in m3 && m4 == m3[s[k].addr := m3[s[k].addr].(free := false)]
    requires m5.Keys == m4.Keys && forall x :: x in m4 && x !in g ==> m5[x] == m4[x]
    ensures PayloadsUntouched(s, HEADER, m, m5)
  {
    var t := Carve(s, k, n, HEADER);
    var p := Pieces(s[k], n, HEADER);
    CarveStarts(s, k, n, HEADER);
    forall a: nat ensures SameEntry(m, m5, a) || StartsAt(t, a) {
      if a in f {
        assert a in FreeAddrs(s) && StartsAt(s, a);
      } else if Splits(s[k], n, HEADER) && a == s[k].addr + HEADER + n {
        assert p[1] in p;
      } else {
        assert a !in g;
      }
    }
    CarveMissesPayloads(s, k, n, HEADER, POOL, m, m5);
  }

  // ---------------------------------------------------------------- the sweep's list work

  /** During the sweep the list is the pushed list restricted to blocks still free. */
  ghost predicate ListSweep(s: Layout, f: seq<nat>, done: Layout, rest: Layout,
                            order: seq<nat>, head: Ptr, m0: Nodes, m: Nodes) {
    && Linked(order, head, m)
    && Indexes(order, done + rest)
    && order == Keep(f, FreeAddrs(done + rest))
    && ChangedOnlyAtBlocks(s, m0, m)
    && (forall b :: b in done + rest ==> StartsAt(s, b.addr))
  }

  lemma {:induction false} FreedNotListed(f: seq<nat>, head: Ptr, m: Nodes, s: Layout, k: nat)
    requires Coalesced(s, HEADER, POOL) && Holds(Sizes(m), s) && Linked(f, head, m) && Indexes(f, s)
    requires k < |s| && !s[k].free
    ensures s[k].addr in m && s[k].addr !in f && head != At(s[k].addr) && (head != Null ==> head.addr in m)
  {
    var a := s[k].addr;
    assert s[k] in s && a in Sizes(m);
    PushReads(f, head, m);
    if a in f {
      IndexedBlock(f, s, HEADER, POOL, a);
      IndexAtTiled(s, HEADER, POOL, k);
      assert false;
    }
  }

  // Marking block k free and pushing it puts the sweep in its first state.
  lemma {:induction false} PushFreed(f: seq<nat>, head: Ptr, m: Nodes, s: Layout, k: nat, m1: Nodes, m2: Nodes)
    requires Coalesced(s, HEADER, POOL) && Holds(Sizes(m), s) && Linked(f, head, m) && Indexes(f, s)
    requires k < |s| && !s[k].free
    requires s[k].addr in m && s[k].addr !in f
    requires m1 == m[s[k].addr := m[s[k].addr].(free := true)] && Pushed(m1, head, s[k].addr, m2)
    ensures Sweeping(HEADER, POOL, Coalesce(Release(s, k), HEADER), [], Release(s, k), Sizes(m2))
    ensures Release(s, k)[0].addr == 0
    ensures ListSweep(s, [s[k].addr] + f, [], Release(s, k), [s[k].addr] + f, At(s[k].addr), m, m2)
  {
    var a := s[k].addr;
    assert s[k] in s && Sizes(m)[a] == Header(s[k].size, false);
    StoreKeeps(f, head, m, a, m1[a]);
    PushKeeps(f, head, m1, a, m2);
    SweepStart(s, k, HEADER, POOL, Sizes(m));
    var t := Release(s, k);
    assert [] + t == t;
    ReleaseStarts(s, k);
    ReleaseFreeAddrs(s, k);
    var g := [a] + f;
    DistinctCons(a, f);
    KeepAll(g, FreeAddrs(t));
    forall x: nat ensures SameEntry(m, m2, x) || StartsAt(s, x) {
      if x in f { assert x in FreeAddrs(s); }
    }
  }

  lemma {:induction false} NextListed(s: Layout, goal: Layout, f: seq<nat>, done: Layout, rest: Layout,
                   order: seq<nat>, head: Ptr, m0: Nodes, m: Nodes) returns (i: nat)
    requires Sweeping(HEADER, POOL, goal, done, rest, Sizes(m))
    requires ListSweep(s, f, done, rest, order, head, m0, m)
    requires |rest| > 1 && rest[0].free && rest[1].free
    ensures i < |order| && order[i] == rest[1].addr && NeighboursInMemory(m, rest[1].addr)
  {
    MergeFreeAddrs(HEADER, POOL, done, rest);
    assert rest[1].addr in order;
    i :| 0 <= i < |order| && order[i] == rest[1].addr;
    UnlinkReads(order, head, m, i);
  }

  /** Absorbing the next block: unlinking it and growing the current one keeps the sweep's
      layout and its list in step. */
  lemma {:induction false} ListSweepMerge(s: Layout, goal: Layout, f: seq<nat>, done: Layout, rest: Layout,
                       order: seq<nat>, head: Ptr, m0: Nodes, m: Nodes, i: nat, m1: Nodes, m2: Nodes)
    requires Sweeping(HEADER, POOL, goal, done, rest, Sizes(m))
    requires ListSweep(s, f, done, rest, order, head, m0, m)
    requires |rest| > 1 && rest[0].free && rest[1].free
    requires i < |order| && order[i] == rest[1].addr && rest[1].addr in m && Unlinked(m, rest[1].addr, m1)
    requires rest[0].addr in m1
    requires m2 == m1[rest[0].addr := m1[rest[0].addr].(size := Join(rest[0], rest[1], HEADER).size)]
    ensures Sweeping(HEADER, POOL, goal, done, Merged(rest, HEADER), Sizes(m2))
    ensures ListSweep(s, f, done, Merged(rest, HEADER), RemoveAt(order, i),
                      if head == At(rest[1].addr) then m[rest[1].addr].next else head, m0, m2)
  {
    UnlinkKeeps(order, head, m, i, m1);
    var j := Join(rest[0], rest[1], HEADER);
    assert Sizes(m1)[j.addr] == Sizes(m)[j.addr];
    StoreKeeps(RemoveAt(order, i), if head == At(order[i]) then m[order[i]].next else head, m1, j.addr, m2[j.addr]);
    SweepMerge(HEADER, POOL, goal, done, rest, Sizes(m));
    ListAfterMerge(s, f, done, rest, order, head, m0, m, i, m1, m2);
  }

  lemma {:induction false} ListAfterMerge(s: Layout, f: seq<nat>, done: Layout, rest: Layout, order: seq<nat>, head: Ptr,
                       m0: Nodes, m: Nodes, i: nat, m1: Nodes, m2: Nodes)
    requires ListSweep(s, f, done, rest, order, head, m0, m)
    requires Tiles(done + rest, HEADER, 0, POOL) && |rest| > 1 && rest[0].free && rest[1].free
    requires i < |order| && order[i] == rest[1].addr && rest[1].addr in m && m1.Keys == m.Keys
    requires forall x :: x in m && x !in order ==> m1[x] == m[x]
    requires m2.Keys == m1.Keys && forall x :: x in m1 && x != rest[0].addr ==> m2[x] == m1[x]
    requires Linked(RemoveAt(order, i), if head == At(order[i]) then m[order[i]].next else head, m2)
    ensures ListSweep(s, f, done, Merged(rest, HEADER), RemoveAt(order, i),
                      if head == At(rest[1].addr) then m[rest[1].addr].next else head, m0, m2)
  {
    MergeFreeAddrs(HEADER, POOL, done, rest);
    MergeStarts(HEADER, done, rest, s);
    KeepRemove(f, FreeAddrs(done + rest), i);
    DistinctRemove(order, i);
    forall a: nat ensures SameEntry(m0, m2, a) || StartsAt(s, a) {
      if a in order {
        assert a in FreeAddrs(done + rest);
      } else if a == rest[0].addr {
        assert (done + rest)[|done|] == rest[0] && rest[0] in done + rest;
      } else {
        assert SameEntry(m, m2, a);
        assert SameEntry(m0, m, a) || StartsAt(s, a);
      }
    }
  }
}
