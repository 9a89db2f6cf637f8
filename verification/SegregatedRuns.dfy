/**
 Runs of the segregated allocator that go on after bin discipline is lost. Headers, tiling
 and links stay good and no block is handed out twice, but a bin can become a cycle, and then
 the search of malloc never ends.
 */
module SegregatedRuns {
  import opened HeapLayout
  import opened HeapMemory
  import opened FreeLinks
  import opened Lists
  import opened BinStores
  import opened SegregatedFits
  import opened SegregatedSearch

  // ---------------------------------------------------------------- calls

  datatype View = View(layout: Layout, st: Store)

  datatype Call = MallocCall(r: nat) | FreeCall(addr: nat)

  // What a call leaves; a malloc whose search hangs leaves nothing.
  ghost predicate CallStep(v: View, c: Call, v': View) {
    && |v.st.bins| == CLASSES
    && match c
       case MallocCall(r) =>
         && r < SIZE_MAX_PLUS_ONE
         && ((GivesUp(v.st, Align4(r)) && v' == v) || exists a :: Finds(v.st, Align4(r), a) && v' == AfterMalloc(v, a, Align4(r)))
       case FreeCall(a) => IsLive(v.layout, a) && v' == AfterFree(v, a)
  }

  ghost function AfterMalloc(v: View, a: nat, n: nat): View
    requires |v.st.bins| == CLASSES && Finds(v.st, n, a)
  {
    var k := IndexAt(v.layout, a);
    View(if k < |v.layout| && n <= v.layout[k].size then Carve(v.layout, k, n, HEADER) else v.layout, Taken(v.st, a, n))
  }

  ghost function AfterFree(v: View, a: nat): View
    requires |v.st.bins| == CLASSES && IsLive(v.layout, a)
  {
    View(Release(v.layout, IndexAt(v.layout, a)), if a in v.st.m then Freed(v.st, a) else v.st)
  }

  /** What a block the search stops at is: the start of a free block that is large enough. */
  lemma {:induction false} FoundBlock(s: Layout, st: Store, n: nat, a: nat)
    requires Loose(s, st) && Finds(st, n, a)
    ensures var k := IndexAt(s, a); k < |s| && s[k].addr == a && Fits(s[k], n)
  {
    var i :| IsHit(st, n, Position(st, n, i)) && Position(st, n, i).p == At(a);
    SearchInBounds(s, st, n, i);
    var b :| b in s && b.addr == a;
    var k :| 0 <= k < |s| && s[k] == b;
    IndexAtTiled(s, HEADER, POOL, k);
    assert Sizes(st.m)[a] == Header(b.size, b.free);
  }

  /** Every call keeps headers, tiling and links good, touches no live payload, and changes
      the live blocks by exactly the one it hands out or takes back. */
  lemma {:induction false} EveryCallSound(v: View, c: Call, v': View)
    requires Loose(v.layout, v.st) && CallStep(v, c, v')
    ensures Loose(v'.layout, v'.st)
    ensures PayloadsUntouched(v.layout, HEADER, v.st.m, v'.st.m)
    ensures c.MallocCall? && v' != v ==>
      exists b :: b !in Live(v.layout) && Live(v'.layout) == Live(v.layout) + {b} && Align4(c.r) <= b.size
    ensures c.FreeCall? ==>
      exists b :: b in Live(v.layout) && b.addr == c.addr && Live(v'.layout) == Live(v.layout) - {b}
  {
    match c
    case MallocCall(r) =>
      if v' != v {
        var a :| Finds(v.st, Align4(r), a) && v' == AfterMalloc(v, a, Align4(r));
        MallocSound(v, a, Align4(r));
      } else {
        assert forall x: nat :: SameEntry(v.st.m, v'.st.m, x);
      }
    case FreeCall(a) =>
      var k := IndexAt(v.layout, a);
      FreedLoose(v.layout, k, v.st);
      FreeKeeps(v.layout, k, HEADER, POOL);
      assert v.layout[k] in v.layout && v.layout[k] in Live(v.layout);
  }

  lemma {:induction false} MallocSound(v: View, a: nat, n: nat)
    requires Loose(v.layout, v.st) && Finds(v.st, n, a) && n % 4 == 0
    ensures var v' := AfterMalloc(v, a, n);
      && Loose(v'.layout, v'.st) && PayloadsUntouched(v.layout, HEADER, v.st.m, v'.st.m)
      && exists b :: b !in Live(v.layout) && Live(v'.layout) == Live(v.layout) + {b} && n <= b.size
  {
    var k := IndexAt(v.layout, a);
    FoundBlock(v.layout, v.st, n, a);
    TakenLoose(v.layout, k, n, v.st);
    CarveLive(v.layout, k, n, HEADER, POOL);
    var b := Pieces(v.layout[k], n, HEADER)[0];
    assert b !in Live(v.layout) && n <= b.size;
  }

  // ---------------------------------------------------------------- runs

  const START := View([Block(0, POOL - HEADER, true)],
                      Store([Null, Null, Null, Null, At(0)], map[0 := Node(POOL - HEADER, true, Null, Null)]))

  ghost predicate StepAt(vs: seq<View>, calls: seq<Call>, k: nat)
    requires k < |calls| == |vs| - 1
  {
    CallStep(vs[k], calls[k], vs[k+1])
  }

  ghost predicate IsRun(vs: seq<View>, calls: seq<Call>) {
    |vs| == |calls| + 1 && vs[0] == START && forall k :: 0 <= k < |calls| ==> StepAt(vs, calls, k)
  }

  /** In every state of every run, disciplined or not, the headers describe an exact, aligned
      tiling of the pool, and every bin head and link leads to the start of a block. */
  lemma {:induction false} EveryRunSound(vs: seq<View>, calls: seq<Call>, k: nat)
    requires IsRun(vs, calls) && k < |vs|
    ensures Loose(vs[k].layout, vs[k].st)
    decreases k
  {
    if k == 0 {
      InitialLoose(START.st);
    } else {
      EveryRunSound(vs, calls, k - 1);
      assert StepAt(vs, calls, k - 1);
      EveryCallSound(vs[k-1], calls[k-1], vs[k]);
    }
  }

  // ---------------------------------------------------------------- termination

  /** In every state of every run: exactly when a search never ends, by a bound on its turns
      and by the bins, and that one which ends finds a block exactly when it can reach one. */
  lemma {:induction false} EveryRunSearch(vs: seq<View>, calls: seq<Call>, k: nat, n: nat)
    requires IsRun(vs, calls) && k < |vs|
    ensures LinksOk(vs[k].layout, vs[k].st)
    ensures var st := vs[k].st;
      && (Hangs(st, n) <==> !Stops(st, n, Position(st, n, SearchBound(vs[k].layout))))
      && (Hangs(st, n) <==> exists i :: Class(n) <= i < CLASSES && HangsIn(vs[k].layout, st, n, i))
      && (!Hangs(st, n) ==>
            ((exists a :: Finds(st, n, a)) <==> exists i :: Class(n) <= i < CLASSES && Offers(st, n, i)))
  {
    EveryRunSound(vs, calls, k);
    HangsIff(vs[k].layout, vs[k].st, n);
    HangsByBins(vs[k].layout, vs[k].st, n);
    if !Hangs(vs[k].st, n) { EndingSearchComplete(vs[k].st, n); }
  }

  /** In disciplined bins every search ends. */
  lemma {:induction false} DisciplinedSearchEnds(s: Layout, lists: Listing, st: Store, n: nat)
    requires Discipline(s, lists, st.bins, st.m)
    ensures !Hangs(st, n)
  {
    var i := Class(n);
    HeadRead(lists, st.bins, st.m, i);
    assert Linked(lists[i], st.bins[i], st.m);
    assert Position(st, n, 0) == In(i, Here(lists[i], 0));
    var k := SearchEnds(s, lists, st, n, i, 0, 0);
  }

  lemma {:induction false} SearchEnds(s: Layout, lists: Listing, st: Store, n: nat, i: nat, j: nat, k: nat) returns (e: nat)
    requires Discipline(s, lists, st.bins, st.m) && i < CLASSES && j <= |lists[i]|
    requires Position(st, n, k) == In(i, Here(lists[i], j))
    ensures Stops(st, n, Position(st, n, e))
    decreases CLASSES - i, |lists[i]| - j
  {
    if Stops(st, n, Position(st, n, k)) {
      e := k;
    } else if j < |lists[i]| {
      BlockReads(s, lists, st.bins, st.m, i, j);
      assert Position(st, n, k + 1) == In(i, Here(lists[i], j + 1));
      e := SearchEnds(s, lists, st, n, i, j + 1, k + 1);
    } else if i + 1 < CLASSES {
      assert Linked(lists[i+1], st.bins[i+1], st.m);
      assert Position(st, n, k + 1) == In(i + 1, Here(lists[i+1], 0));
      e := SearchEnds(s, lists, st, n, i + 1, 0, k + 1);
    } else {
      e := k + 1;
      assert Position(st, n, e) == In(CLASSES, Null);
    }
  }

  // ---------------------------------------------------------------- the class, bins in order or not

  lemma {:induction false} CursorReads(s: Layout, st: Store, n: nat, k: nat)
    requires LinksOk(s, st) && Position(st, n, k).p.At?
    ensures Position(st, n, k).p.addr in st.m
  {
    SearchInBounds(s, st, n, k);
  }

  /** The two loops of malloc, in any state in which the search ends: it does so within five
      turns for each block and five more. */
  method Search(heap: Heap, size: nat) returns (curr: Ptr)
    requires heap.Sound() && !Hangs(heap.Stored(), size)
    ensures curr == Null <==> GivesUp(heap.Stored(), size)
    ensures curr != Null ==> Finds(heap.Stored(), size, curr.addr)
  {
    HangsIff(heap.layout, heap.Stored(), size);
    ghost var k: nat;
    curr, k := SearchBins(heap, size, SearchBound(heap.layout));
    if curr != Null { HitMeans(heap.Stored(), size, k); }
  }

  // The outer loop, which ends by turn e at the latest.
  method SearchBins(heap: Heap, size: nat, ghost e: nat) returns (curr: Ptr, ghost k: nat)
    requires heap.Sound() && Stops(heap.Stored(), size, Position(heap.Stored(), size, e))
    ensures var c := Position(heap.Stored(), size, k);
      if curr == Null then c.i >= CLASSES else IsHit(heap.Stored(), size, c) && c.p == curr
  {
    ghost var st := heap.Stored();
    var i := GetClassId(size);
    k := 0;
    while i < CLASSES
      invariant i <= CLASSES && k <= e && Position(st, size, k) == Enter(st, i)
      decreases CLASSES - i
    {
      curr, k := SearchBin(heap, i, size, k, e);
      if curr != Null { return; }
      assert Position(st, size, k + 1) == Enter(st, i + 1);
      i := i + 1;
      k := k + 1;
    }
    curr := Null;
  }

  // The inner loop, from turn k0 of the search.
  method SearchBin(heap: Heap, i: nat, size: nat, ghost k0: nat, ghost e: nat) returns (curr: Ptr, ghost k: nat)
    requires heap.Sound() && i < CLASSES && k0 <= e && Position(heap.Stored(), size, k0) == In(i, heap.bins[i])
    requires Stops(heap.Stored(), size, Position(heap.Stored(), size, e))
    ensures k <= e && Position(heap.Stored(), size, k) == In(i, curr)
    ensures curr != Null ==> IsHit(heap.Stored(), size, In(i, curr))
    ensures curr == Null ==> k < e
  {
    ghost var st := heap.Stored();
    curr, k := heap.bins[i], k0;
    while curr != Null
      invariant k <= e && Position(st, size, k) == In(i, curr)
      decreases e - k
    {
      CursorReads(heap.layout, st, size, k);
      if heap.memory[curr.addr].free && heap.memory[curr.addr].size >= size {
        return;
      }
      assert Position(st, size, k + 1) == In(i, st.m[curr.addr].next);
      curr := heap.memory[curr.addr].next;
      k := k + 1;
    }
  }

  /** Malloc in any state in which its search ends is the step of the runs above. */
  method Malloc(heap: Heap, r: nat) returns (p: Ptr)
    requires heap.Sound() && r < SIZE_MAX_PLUS_ONE && !Hangs(heap.Stored(), Align4(r))
    modifies heap, heap.bins
    ensures heap.Sound()
    ensures CallStep(old(View(heap.layout, heap.Stored())), MallocCall(r), View(heap.layout, heap.Stored()))
    ensures p == Null ==> heap.Stored() == old(heap.Stored())
    ensures p != Null ==> p.addr >= HEADER && IsLive(heap.layout, p.addr - HEADER) && !IsLive(old(heap.layout), p.addr - HEADER)
  {
    var size := Align4(r);
    var curr := Search(heap, size);
    if curr == Null { return Null; }
    FoundBlock(heap.layout, heap.Stored(), size, curr.addr);
    ghost var k := IndexAt(heap.layout, curr.addr);
    TakenLive(heap.layout, k, size);
    heap.Take(curr.addr, size, k);
    return At(curr.addr + HEADER);
  }

  // ---------------------------------------------------------------- a search that hangs

  // The states of the run below, after each of its five calls.
  const V1 := View([Block(0, 300, false), Block(332, 32404, true)],
                   Store([Null, Null, Null, Null, At(332)],
                         map[0 := Node(300, false, Null, At(332)), 332 := Node(32404, true, Null, Null)]))
  const V2 := View([Block(0, 300, true), Block(332, 32404, true)],
                   Store([Null, Null, Null, Null, At(0)],
                         map[0 := Node(300, true, At(332), Null), 332 := Node(32404, true, Null, At(0))]))
  const V3 := View([Block(0, 32, false), Block(64, 236, true), Block(332, 32404, true)],
                   Store([Null, Null, Null, At(64), At(0)],
                         map[0 := Node(32, false, At(332), Null), 64 := Node(236, true, Null, Null),
                             332 := Node(32404, true, Null, Null)]))
  const V4 := View([Block(0, 32, false), Block(64, 236, true), Block(332, 300, false), Block(664, 32072, true)],
                   Store([Null, Null, Null, At(64), At(664)],
                         map[0 := Node(32, false, At(332), At(664)), 64 := Node(236, true, Null, Null),
                             332 := Node(300, false, Null, Null), 664 := Node(32072, true, At(0), Null)]))
  const V5 := View([Block(0, 32, false), Block(64, 236, true), Block(332, 300, true), Block(664, 32072, true)],
                   Store([Null, Null, Null, At(64), At(332)],
                         map[0 := Node(32, false, At(332), At(664)), 64 := Node(236, true, Null, Null),
                             332 := Node(300, true, At(664), Null), 664 := Node(32072, true, At(0), At(332))]))

  // After the first three calls and a free of the 32 bytes.
  const LOST := View([Block(0, 32, true), Block(64, 236, true), Block(332, 32404, true)],
                     Store([At(0), Null, Null, At(64), At(0)],
                           map[0 := Node(32, true, Null, Null), 64 := Node(236, true, Null, Null),
                               332 := Node(32404, true, Null, Null)]))

  /** Allocate 300 bytes, free them, allocate 32, free them: the block of 32404 bytes is on no
      bin any more, and a request for 300 bytes is refused although it fits. */
  lemma {:induction false} SearchMissesBlock() returns (vs: seq<View>, calls: seq<Call>)
    ensures calls == [MallocCall(300), FreeCall(0), MallocCall(32), FreeCall(0)]
    ensures IsRun(vs, calls) && vs[4] == LOST
    ensures GivesUp(LOST.st, 300) && Fits(LOST.layout[2], 300)
  {
    FirstCall();
    SecondCall();
    ThirdCall();
    LosingCall();
    vs, calls := FourCalls(MallocCall(300), V1, FreeCall(0), V2, MallocCall(32), V3, FreeCall(0), LOST);
    assert Position(LOST.st, 300, 0) == In(4, At(0));
    assert Position(LOST.st, 300, 1) == In(4, Null);
    assert Position(LOST.st, 300, 2) == In(5, Null);
  }

  lemma {:induction false} LosingCall()
    ensures CallStep(V3, FreeCall(0), LOST)
  {
    assert Freed(V3.st, 0) == LOST.st;
    assert Release(V3.layout, 0) == LOST.layout;
  }

  lemma {:induction false} FourCalls(c1: Call, v1: View, c2: Call, v2: View, c3: Call, v3: View, c4: Call, v4: View)
    returns (vs: seq<View>, calls: seq<Call>)
    requires CallStep(START, c1, v1) && CallStep(v1, c2, v2) && CallStep(v2, c3, v3) && CallStep(v3, c4, v4)
    ensures calls == [c1, c2, c3, c4] && IsRun(vs, calls) && vs[4] == v4
  {
    vs, calls := [START, v1, v2, v3, v4], [c1, c2, c3, c4];
    assert StepAt(vs, calls, 0) && StepAt(vs, calls, 1) && StepAt(vs, calls, 2) && StepAt(vs, calls, 3);
  }

  /** Allocate 300 bytes, free them, allocate 32, allocate 300, free them: the last bin is now
      the cycle 332, 664, 0, 332, and a request no block can serve is searched for forever. */
  lemma {:induction false} SearchHangs() returns (vs: seq<View>, calls: seq<Call>)
    ensures calls == [MallocCall(300), FreeCall(0), MallocCall(32), MallocCall(300), FreeCall(332)]
    ensures IsRun(vs, calls) && vs[5] == V5 && Hangs(V5.st, 33000)
  {
    FirstCall();
    SecondCall();
    ThirdCall();
    FourthCall();
    FifthCall();
    vs, calls := FiveCalls(MallocCall(300), V1, FreeCall(0), V2, MallocCall(32), V3, MallocCall(300), V4, FreeCall(332), V5);
    CycleHangs();
  }

  lemma {:induction false} FiveCalls(c1: Call, v1: View, c2: Call, v2: View, c3: Call, v3: View, c4: Call, v4: View, c5: Call, v5: View)
    returns (vs: seq<View>, calls: seq<Call>)
    requires CallStep(START, c1, v1) && CallStep(v1, c2, v2) && CallStep(v2, c3, v3) && CallStep(v3, c4, v4) && CallStep(v4, c5, v5)
    ensures calls == [c1, c2, c3, c4, c5] && IsRun(vs, calls) && vs[5] == v5
  {
    vs, calls := [START, v1, v2, v3, v4, v5], [c1, c2, c3, c4, c5];
    assert StepAt(vs, calls, 0) && StepAt(vs, calls, 1) && StepAt(vs, calls, 2) && StepAt(vs, calls, 3) && StepAt(vs, calls, 4);
  }

  lemma {:induction false} CycleHangs()
    ensures Hangs(V5.st, 33000)
  {
    forall k ensures !Stops(V5.st, 33000, Position(V5.st, 33000, k)) { AroundTheCycle(k); }
  }

  lemma {:induction false} FirstCall()
    ensures CallStep(START, MallocCall(300), V1)
  {
    assert Position(START.st, 300, 0) == In(4, At(0));
    assert Finds(START.st, 300, 0);
    assert Carve(START.layout, 0, 300, HEADER) == V1.layout;
    var r := Cut(START.st, 0, 300);
    assert r == Store([Null, Null, Null, Null, At(332)],
                      map[0 := Node(300, true, Null, At(332)), 332 := Node(32404, true, At(0), Null)]);
    assert Taken(START.st, 0, 300) == V1.st;
    assert AfterMalloc(START, 0, Align4(300)) == V1;
  }

  lemma {:induction false} SecondCall()
    ensures CallStep(V1, FreeCall(0), V2)
  {
    assert Freed(V1.st, 0) == V2.st;
    assert Release(V1.layout, 0) == V2.layout;
  }

  lemma {:induction false} ThirdCall()
    ensures CallStep(V2, MallocCall(32), V3)
  {
    assert Position(V2.st, 32, 1) == In(1, Null);
    assert Position(V2.st, 32, 2) == In(2, Null);
    assert Position(V2.st, 32, 3) == In(3, Null);
    assert Position(V2.st, 32, 4) == In(4, At(0));
    assert Finds(V2.st, 32, 0);
    assert Carve(V2.layout, 0, 32, HEADER) == V3.layout;
    var r := Cut(V2.st, 0, 32);
    assert r == Store([Null, Null, Null, At(64), At(0)],
                      map[0 := Node(32, true, At(332), Null), 64 := Node(236, true, Null, Null),
                          332 := Node(32404, true, Null, At(0))]);
    assert Taken(V2.st, 0, 32) == V3.st;
    assert AfterMalloc(V2, 0, Align4(32)) == V3;
  }

  lemma {:induction false} FourthCall()
    ensures CallStep(V3, MallocCall(300), V4)
  {
    assert Position(V3.st, 300, 0) == In(4, At(0));
    assert Position(V3.st, 300, 1) == In(4, At(332));
    assert Finds(V3.st, 300, 332);
    assert IndexAt(V3.layout, 332) == 2;
    assert Carve(V3.layout, 2, 300, HEADER) == V4.layout;
    var r := Cut(V3.st, 332, 300);
    assert r == Store([Null, Null, Null, At(64), At(664)],
                      map[0 := Node(32, false, At(332), At(664)), 64 := Node(236, true, Null, Null),
                          332 := Node(300, true, Null, Null), 664 := Node(32072, true, At(0), Null)]);
    assert Taken(V3.st, 332, 300) == V4.st;
    assert AfterMalloc(V3, 332, Align4(300)) == V4;
  }

  lemma {:induction false} FifthCall()
    ensures CallStep(V4, FreeCall(332), V5)
  {
    assert IndexAt(V4.layout, 332) == 2;
    assert Freed(V4.st, 332) == V5.st;
    assert Release(V4.layout, 2) == V5.layout;
  }

  lemma {:induction false} AroundTheCycle(k: nat)
    ensures var c := Position(V5.st, 33000, k);
      c.i == 4 && (c.p == At(332) || c.p == At(664) || c.p == At(0)) && !Stops(V5.st, 33000, c)
  {
    if k > 0 { AroundTheCycle(k - 1); }
  }
}
