/**
 Segregated fits: free blocks are kept in five bins by size class, each bin a doubly
 linked list. Malloc searches the bins from the request's class upward; blocks are split
 but never coalesced.

 Malloc trims the chosen block before it unlinks it, and the unlink recomputes the bin
 from the trimmed size. `Malloc` states exactly when the bins survive that.
 */
module SegregatedFits {
  import opened HeapLayout
  import opened HeapMemory
  import opened FreeLinks
  import opened Lists
  import opened BinStores

  const LIMITS: seq<nat> := [32, 64, 128, 256, 1024]

  /** get_class_id: the first class whose limit covers n; sizes above the last limit share
      the last bin. */
  method GetClassId(n: nat) returns (c: nat)
    ensures c < CLASSES && c == Class(n)
    ensures n <= LIMITS[CLASSES-1] ==> n <= LIMITS[c]
    ensures forall l :: 0 <= l < c ==> LIMITS[l] < n
  {
    for i := 0 to CLASSES
      invariant forall l :: 0 <= l < i ==> LIMITS[l] < n
    {
      assert i == 0 || i == 1 || i == 2 || i == 3 || i == 4;
      assert i > 0 ==> LIMITS[i-1] < n;
      if n <= LIMITS[i] { return i; }
    }
    return CLASSES - 1;
  }

  lemma {:induction false} ClassMonotone(a: nat, b: nat)
    requires a <= b
    ensures Class(a) <= Class(b)
    ensures Class(a) < Class(b) ==> a <= LIMITS[Class(b)-1] < b
  {
  }

  // ---------------------------------------------------------------- bin discipline

  type Listing = seq<seq<nat>>

  ghost function BinAddrs(s: Layout, i: nat): set<nat> {
    set b | b in s && b.free && Class(b.size) == i :: b.addr
  }

  ghost predicate AllLinked(lists: Listing, bins: Bins, m: Nodes) {
    |lists| == |bins| == CLASSES && forall i :: 0 <= i < CLASSES ==> Linked(lists[i], bins[i], m)
  }

  /** Bin i lists exactly the free blocks of class i, each once; allocated blocks are in no bin. */
  ghost predicate Sorted(lists: Listing, s: Layout) {
    |lists| == CLASSES && forall i :: 0 <= i < CLASSES ==> Elems(lists[i]) == BinAddrs(s, i)
  }

  ghost predicate Discipline(s: Layout, lists: Listing, bins: Bins, m: Nodes) {
    && Tiles(s, HEADER, 0, POOL) && Aligned(s) && Holds(Sizes(m), s)
    && AllLinked(lists, bins, m) && Sorted(lists, s)
  }

  /** The bins can be read as disciplined at all. */
  ghost predicate Disciplined(s: Layout, bins: Bins, m: Nodes) {
    exists lists :: Discipline(s, lists, bins, m)
  }

  lemma {:induction false} BinnedBlock(s: Layout, lists: Listing, i: nat, a: nat)
    requires Tiles(s, HEADER, 0, POOL) && Sorted(lists, s) && i < CLASSES && a in lists[i]
    ensures var k := IndexAt(s, a); k < |s| && s[k].addr == a && s[k].free && Class(s[k].size) == i
  {
    assert a in Elems(lists[i]) && a in BinAddrs(s, i);
    var b :| b in s && b.free && Class(b.size) == i && b.addr == a;
    var k :| 0 <= k < |s| && s[k] == b;
    IndexAtTiled(s, HEADER, POOL, k);
  }

  // No block is in two bins.
  lemma {:induction false} BinsApart(s: Layout, lists: Listing, i: nat, j: nat, a: nat)
    requires Tiles(s, HEADER, 0, POOL) && Sorted(lists, s) && i < CLASSES && j < CLASSES
    requires a in lists[i] && a in lists[j]
    ensures i == j
  {
    BinnedBlock(s, lists, i, a);
    BinnedBlock(s, lists, j, a);
  }

  // ---------------------------------------------------------------- search

  // Bin and position of the first fitting block from bin i upward; bin CLASSES when none.
  ghost function BinFit(lists: Listing, s: Layout, n: nat, i: nat): (r: (nat, nat))
    requires |lists| == CLASSES && i <= CLASSES
    ensures i <= r.0 <= CLASSES
    ensures r.0 < CLASSES ==> r.1 == ListFit(lists[r.0], s, n) < |lists[r.0]|
    ensures forall l :: i <= l < r.0 ==> ListFit(lists[l], s, n) == |lists[l]|
    decreases CLASSES - i
  {
    if i == CLASSES then (CLASSES, 0)
    else
      var j := ListFit(lists[i], s, n);
      if j < |lists[i]| then (i, j) else BinFit(lists, s, n, i + 1)
  }

  /** In a disciplined state, searching only the bins from the request's class upward finds
      a block exactly when some free block anywhere fits. */
  lemma {:induction false} BinSearchComplete(s: Layout, lists: Listing, n: nat)
    requires Tiles(s, HEADER, 0, POOL) && Sorted(lists, s)
    ensures BinFit(lists, s, n, Class(n)).0 < CLASSES <==> FirstFit(s, n) < |s|
  {
    var k := FirstFit(s, n);
    var r := BinFit(lists, s, n, Class(n));
    if k < |s| {
      ClassMonotone(n, s[k].size);
      var c := Class(s[k].size);
      assert s[k] in s && s[k].addr in BinAddrs(s, c) && s[k].addr in Elems(lists[c]);
      var i :| 0 <= i < |lists[c]| && lists[c][i] == s[k].addr;
      IndexAtTiled(s, HEADER, POOL, k);
      assert ListFit(lists[c], s, n) < |lists[c]|;
    }
  }

  // ---------------------------------------------------------------- bins as lists

  ghost predicate Apart(lists: Listing) {
    |lists| == CLASSES &&
    forall i, j, a :: 0 <= i < CLASSES && 0 <= j < CLASSES && a in lists[i] && a in lists[j] ==> i == j
  }

  lemma {:induction false} SortedApart(s: Layout, lists: Listing)
    requires Tiles(s, HEADER, 0, POOL) && Sorted(lists, s)
    ensures Apart(lists)
  {
    forall i, j, a | 0 <= i < CLASSES && 0 <= j < CLASSES && a in lists[i] && a in lists[j] ensures i == j {
      BinsApart(s, lists, i, j, a);
    }
  }

  lemma {:induction false} PushBin(lists: Listing, bins: Bins, m: Nodes, i: nat, a: nat, m': Nodes)
    requires AllLinked(lists, bins, m) && Apart(lists) && i < CLASSES
    requires a in m && (forall l :: 0 <= l < CLASSES ==> a !in lists[l]) && Pushed(m, bins[i], a, m')
    ensures AllLinked(lists[i := [a] + lists[i]], bins[i := At(a)], m')
    ensures Apart(lists[i := [a] + lists[i]])
    ensures Sizes(m') == Sizes(m)
  {
    PushKeeps(lists[i], bins[i], m, a, m');
    PushReads(lists[i], bins[i], m);
    forall l | 0 <= l < CLASSES && l != i ensures Linked(lists[l], bins[l], m') {
      ChainFrame(lists[l], Null, m, m');
    }
  }

  lemma {:induction false} StoreBins(lists: Listing, bins: Bins, m: Nodes, a: nat, node: Node)
    requires AllLinked(lists, bins, m)
    requires a in m ==> node.next == m[a].next && node.prev == m[a].prev
    requires a !in m ==> forall l :: 0 <= l < CLASSES ==> a !in lists[l]
    ensures AllLinked(lists, bins, m[a := node])
    ensures Sizes(m[a := node]) == Sizes(m)[a := Header(node.size, node.free)]
  {
    forall l | 0 <= l < CLASSES ensures Linked(lists[l], bins[l], m[a := node]) {
      StoreKeeps(lists[l], bins[l], m, a, node);
    }
  }

  lemma {:induction false} UnlinkBin(lists: Listing, bins: Bins, m: Nodes, i: nat, j: nat, m': Nodes)
    requires AllLinked(lists, bins, m) && Apart(lists) && i < CLASSES && j < |lists[i]|
    requires lists[i][j] in m && Unlinked(m, lists[i][j], m')
    ensures var c := lists[i][j];
            AllLinked(lists[i := RemoveAt(lists[i], j)],
                      bins[i := if bins[i] == At(c) then m[c].next else bins[i]], m')
    ensures Sizes(m') == Sizes(m)
  {
    UnlinkKeeps(lists[i], bins[i], m, j, m');
    forall l | 0 <= l < CLASSES && l != i ensures Linked(lists[l], bins[l], m') {
      forall x | x in lists[l] && x in m
        ensures x in m' && m'[x].next == m[x].next && m'[x].prev == m[x].prev
      {
        assert x !in lists[i];
      }
      ChainFrame(lists[l], Null, m, m');
    }
  }

  // ---------------------------------------------------------------- the layout's bins

  ghost function CarveBin(s: Layout, k: nat, n: nat, i: nat): set<nat>
    requires k < |s| && n <= s[k].size
  {
    (if Splits(s[k], n, HEADER) && Class(s[k].size - n - HEADER) == i then {s[k].addr + HEADER + n} else {})
    + (BinAddrs(s, i) - {s[k].addr})
  }

  lemma {:induction false} CarveBinAddrs(s: Layout, k: nat, n: nat, i: nat)
    requires Tiles(s, HEADER, 0, POOL) && k < |s| && Fits(s[k], n)
    ensures BinAddrs(Carve(s, k, n, HEADER), i) == CarveBin(s, k, n, i)
  {
    CarveMembers(s, k, n, HEADER, POOL);
    var p := Pieces(s[k], n, HEADER);
    assert p[|p|-1] in p;
  }

  lemma {:induction false} FreshStart(s: Layout, k: nat, n: nat, lists: Listing)
    requires Tiles(s, HEADER, 0, POOL) && Sorted(lists, s) && k < |s| && Fits(s[k], n) && Splits(s[k], n, HEADER)
    ensures forall l :: 0 <= l < CLASSES ==> s[k].addr + HEADER + n !in lists[l]
  {
    var extra := s[k].addr + HEADER + n;
    forall l | 0 <= l < CLASSES ensures extra !in lists[l] {
      if extra in lists[l] {
        BinnedBlock(s, lists, l, extra);
        PayloadsIsolated(s, HEADER, POOL, s[k], s[IndexAt(s, extra)]);
        assert false;
      }
    }
  }

  // ---------------------------------------------------------------- what malloc leaves behind

  /** The trimmed block stays the head of its old bin: it was the head, its remainder went
      elsewhere, and its new size belongs to another class. */
  predicate HeadLost(b: Block, n: nat, isHead: bool)
    requires n <= b.size
  {
    && isHead && Splits(b, n, HEADER)
    && Class(n) != Class(b.size)
    && Class(b.size - n - HEADER) != Class(b.size)
  }

  // The lists once the remainder is pushed; the chosen block is then at the returned position.
  ghost function PushedLists(lists: Listing, b: Block, n: nat): Listing
    requires |lists| == CLASSES && n <= b.size
  {
    if Splits(b, n, HEADER) then
      var r := Class(b.size - n - HEADER);
      lists[r := [b.addr + HEADER + n] + lists[r]]
    else lists
  }

  ghost function PushedBins(bins: Bins, b: Block, n: nat): Bins
    requires |bins| == CLASSES && n <= b.size
  {
    if Splits(b, n, HEADER) then bins[Class(b.size - n - HEADER) := At(b.addr + HEADER + n)] else bins
  }

  ghost function PushedPosition(b: Block, n: nat, j: nat): nat
    requires n <= b.size
  {
    if Splits(b, n, HEADER) && Class(b.size - n - HEADER) == Class(b.size) then j + 1 else j
  }

  ghost function MallocLists(lists: Listing, b: Block, n: nat, j: nat): Listing
    requires |lists| == CLASSES && n <= b.size && j < |lists[Class(b.size)]|
  {
    var l1 := PushedLists(lists, b, n);
    var i := Class(b.size);
    l1[i := RemoveAt(l1[i], PushedPosition(b, n, j))]
  }

  lemma {:induction false} MallocSorted(s: Layout, k: nat, n: nat, lists: Listing, j: nat)
    requires Tiles(s, HEADER, 0, POOL) && Sorted(lists, s) && k < |s| && Fits(s[k], n)
    requires forall l :: 0 <= l < CLASSES ==> Distinct(PushedLists(lists, s[k], n)[l])
    requires var i := Class(s[k].size); j < |lists[i]| && lists[i][j] == s[k].addr
    ensures Sorted(MallocLists(lists, s[k], n, j), Carve(s, k, n, HEADER))
  {
    var b := s[k];
    var i := Class(b.size);
    var l1 := PushedLists(lists, b, n);
    var l2 := MallocLists(lists, b, n, j);
    var jj := PushedPosition(b, n, j);
    assert l1[i][jj] == b.addr;
    DistinctRemove(l1[i], jj);
    forall l | 0 <= l < CLASSES ensures Elems(l2[l]) == BinAddrs(Carve(s, k, n, HEADER), l) {
      PushedElems(lists, b, n, l);
      CarveBinAddrs(s, k, n, l);
      assert Elems(lists[l]) == BinAddrs(s, l);
      if l != i && b.addr in lists[l] { BinsApart(s, lists, l, i, b.addr); }
    }
  }

  lemma {:induction false} PushedElems(lists: Listing, b: Block, n: nat, l: nat)
    requires |lists| == CLASSES && l < CLASSES && n <= b.size
    ensures Elems(PushedLists(lists, b, n)[l]) ==
      (if Splits(b, n, HEADER) && Class(b.size - n - HEADER) == l then {b.addr + HEADER + n} else {}) + Elems(lists[l])
  {
    var extra := if Splits(b, n, HEADER) && Class(b.size - n - HEADER) == l then [b.addr + HEADER + n] else [];
    assert PushedLists(lists, b, n)[l] == extra + lists[l];
    assert Elems(PushedLists(lists, b, n)[l]) == Elems(extra) + Elems(lists[l]);
  }

  lemma {:induction false} MallocLinks(s: Layout, k: nat, n: nat, lists: Listing, bins: Bins, m: Nodes, j: nat,
                    m3: Nodes, m4: Nodes, m5: Nodes, bins': Bins)
    requires Tiles(s, HEADER, 0, POOL) && Sorted(lists, s) && k < |s| && Fits(s[k], n) && |bins| == CLASSES
    requires var i := Class(s[k].size); j < |lists[i]| && lists[i][j] == s[k].addr
    requires AllLinked(PushedLists(lists, s[k], n), PushedBins(bins, s[k], n), m3)
    requires Apart(PushedLists(lists, s[k], n))
    requires s[k].addr in m3 && m4 == m3[s[k].addr := m3[s[k].addr].(free := false)]
    requires Unlinked(m4, s[k].addr, m5)
    requires var c := s[k].addr;
             var b2 := PushedBins(bins, s[k], n);
             var q := Class(m4[c].size);
             bins' == if b2[q] == At(c) then b2[q := m4[c].next] else b2
    requires m4[s[k].addr].size == if Splits(s[k], n, HEADER) then n else s[k].size
    ensures Sizes(m5) == Sizes(m4)
    ensures !HeadLost(s[k], n, bins[Class(s[k].size)] == At(s[k].addr)) ==>
              AllLinked(MallocLists(lists, s[k], n, j), bins', m5)
    ensures HeadLost(s[k], n, bins[Class(s[k].size)] == At(s[k].addr)) ==> bins'[Class(s[k].size)] == At(s[k].addr)
  {
    var b := s[k];
    var c := b.addr;
    var i := Class(b.size);
    var l1 := PushedLists(lists, b, n);
    var b2 := PushedBins(bins, b, n);
    var jj := PushedPosition(b, n, j);
    assert l1[i][jj] == c;
    StoreBins(l1, b2, m3, c, m4[c]);
    UnlinkBin(l1, b2, m4, i, jj, m5);
    var q := Class(m4[c].size);
    if q != i {
      PushReads(l1[q], b2[q], m4);
      assert b2[q] != At(c);
    }
    if b2[i] != At(c) || q == i {
      assert bins' == b2[i := if b2[i] == At(c) then m4[c].next else b2[i]];
    }
  }

  /** A bin whose head is an allocated block cannot be read as disciplined in any way. */
  lemma {:induction false} LostHeadUndisciplined(s: Layout, k: nat, n: nat, bins: Bins, m: Nodes, i: nat)
    requires Tiles(s, HEADER, 0, POOL) && k < |s| && Fits(s[k], n) && i < CLASSES == |bins| && bins[i] == At(s[k].addr)
    ensures !Disciplined(Carve(s, k, n, HEADER), bins, m)
  {
    var t := Carve(s, k, n, HEADER);
    CarveTiles(s, k, n, HEADER, POOL);
    assert t[k] == Pieces(s[k], n, HEADER)[0];
    IndexAtTiled(t, HEADER, POOL, k);
    forall lists | Discipline(t, lists, bins, m) ensures false {
      assert Linked(lists[i], bins[i], m);
      PushReads(lists[i], bins[i], m);
      BinnedBlock(t, lists, i, s[k].addr);
    }
  }

  /** Once a fitting block is taken, the bins are disciplined if and only if the block is not
      a lost head; a lost head stays at the head of its old bin although it is allocated. */
  lemma {:induction false} MallocOutcome(s: Layout, k: nat, n: nat, lists: Listing, st: Store, j: nat)
    requires Discipline(s, lists, st.bins, st.m) && n % 4 == 0 && k < |s| && Fits(s[k], n)
    requires var i := Class(s[k].size); j < |lists[i]| && lists[i][j] == s[k].addr
    ensures s[k].addr in st.m && st.m[s[k].addr].size == s[k].size
    ensures var t := Carve(s, k, n, HEADER);
            var r := Taken(st, s[k].addr, n);
            var lost := HeadLost(s[k], n, j == 0);
            && (!lost ==> Discipline(t, MallocLists(lists, s[k], n, j), r.bins, r.m))
            && (Disciplined(t, r.bins, r.m) <==> !lost)
            && (lost ==> r.bins[Class(s[k].size)] == At(s[k].addr))
  {
    var c := s[k].addr;
    BlockReads(s, lists, st.bins, st.m, Class(s[k].size), j);
    IndexAtTiled(s, HEADER, POOL, k);
    HeadIsFirst(lists, st.bins, st.m, Class(s[k].size), j);
    CutTrimmed(s, k, n, lists, st, j);
    var r := Cut(st, c, n);
    var m4 := r.m[c := r.m[c].(free := false)];
    TrimmedReads(s, k, n, lists, st.bins, st.m, j, r.m);
    UnbinnedIsUnlinked(Store(r.bins, m4), c);
    MallocStores(s, k, n, lists, st.bins, st.m, j, r.m, m4, Taken(st, c, n).m, Taken(st, c, n).bins);
  }

  // What cutting a block does to disciplined bins.
  lemma {:induction false} CutTrimmed(s: Layout, k: nat, n: nat, lists: Listing, st: Store, j: nat)
    requires Discipline(s, lists, st.bins, st.m) && k < |s| && Fits(s[k], n)
    requires var i := Class(s[k].size); j < |lists[i]| && lists[i][j] == s[k].addr
    requires s[k].addr in st.m && st.m[s[k].addr].size == s[k].size
    ensures var r := Cut(st, s[k].addr, n);
      Trimmed(s, k, n, lists, st.bins, st.m, r.m) && r.bins == PushedBins(st.bins, s[k], n)
  {
    if Splits(s[k], n, HEADER) {
      var c := s[k].addr;
      var spare := Spare(st, c, n);
      var r := Binned(spare, c + HEADER + n);
      FreshStart(s, k, n, lists);
      HeadRead(lists, st.bins, st.m, Class(s[k].size - n - HEADER));
      BinnedIsPushed(spare, c + HEADER + n);
      SplitTrimmed(s, k, n, lists, st.bins, st.m, j, spare.m, r.m, Cut(st, c, n).m);
    } else {
      UnsplitTrimmed(s, k, n, lists, st.bins, st.m, j);
    }
  }

  // The stores of add_to_class and remove_from_class, where the links are in order.
  lemma {:induction false} BinnedIsPushed(st: Store, a: nat)
    requires a in st.m && |st.bins| == CLASSES
    requires var h := st.bins[Class(st.m[a].size)]; h != At(a) && (h != Null ==> h.addr in st.m)
    ensures var i := Class(st.m[a].size);
      Pushed(st.m, st.bins[i], a, Binned(st, a).m) && Binned(st, a).bins == st.bins[i := At(a)]
  {
  }

  lemma {:induction false} UnbinnedIsUnlinked(st: Store, a: nat)
    requires NeighboursInMemory(st.m, a) && |st.bins| == CLASSES
    ensures Unlinked(st.m, a, Unbinned(st, a).m)
    ensures var i := Class(st.m[a].size);
      Unbinned(st, a).bins == if st.bins[i] == At(a) then st.bins[i := st.m[a].next] else st.bins
  {
  }

  lemma {:induction false} MallocStores(s: Layout, k: nat, n: nat, lists: Listing, bins: Bins, m: Nodes, j: nat,
                      m3: Nodes, m4: Nodes, m5: Nodes, bins': Bins)
    requires Discipline(s, lists, bins, m) && n % 4 == 0 && k < |s| && Fits(s[k], n)
    requires var i := Class(s[k].size); j < |lists[i]| && lists[i][j] == s[k].addr
    requires Trimmed(s, k, n, lists, bins, m, m3)
    requires s[k].addr in m3 && m4 == m3[s[k].addr := m3[s[k].addr].(free := false)]
    requires Unlinked(m4, s[k].addr, m5)
    requires var c := s[k].addr;
             var b2 := PushedBins(bins, s[k], n);
             var q := Class(m4[c].size);
             bins' == if b2[q] == At(c) then b2[q := m4[c].next] else b2
    ensures var t := Carve(s, k, n, HEADER);
            var lost := HeadLost(s[k], n, bins[Class(s[k].size)] == At(s[k].addr));
            && (!lost ==> Discipline(t, MallocLists(lists, s[k], n, j), bins', m5))
            && (Disciplined(t, bins', m5) <==> !lost)
            && (lost ==> bins'[Class(s[k].size)] == At(s[k].addr))
  {
    var t := Carve(s, k, n, HEADER);
    var p := Pieces(s[k], n, HEADER);
    MallocLinks(s, k, n, lists, bins, m, j, m3, m4, m5, bins');
    if HeadLost(s[k], n, bins[Class(s[k].size)] == At(s[k].addr)) {
      LostHeadUndisciplined(s, k, n, bins', m5, Class(s[k].size));
    } else {
      CarveTiles(s, k, n, HEADER, POOL);
      CarveAligned(s, k, n);
      MallocSorted(s, k, n, lists, j);
      MallocHolds(s, k, n, lists, bins, m, m3, m4, m5);
      assert Discipline(t, MallocLists(lists, s[k], n, j), bins', m5);
    }
  }

  lemma {:induction false} MallocHolds(s: Layout, k: nat, n: nat, lists: Listing, bins: Bins, m: Nodes, m3: Nodes, m4: Nodes, m5: Nodes)
    requires Tiles(s, HEADER, 0, POOL) && Holds(Sizes(m), s) && k < |s| && Fits(s[k], n) && |lists| == |bins| == CLASSES
    requires Trimmed(s, k, n, lists, bins, m, m3)
    requires m4 == m3[s[k].addr := m3[s[k].addr].(free := false)] && Sizes(m5) == Sizes(m4)
    ensures Holds(Sizes(m5), Carve(s, k, n, HEADER))
  {
    var p := Pieces(s[k], n, HEADER);
    forall b | b in p ensures b.addr in Sizes(m4) && Sizes(m4)[b.addr] == Header(b.size, b.free) {
      assert b == p[0] || b == p[|p|-1];
    }
    CarvedHeaders(s, k, n, HEADER, POOL, Sizes(m), Sizes(m5));
  }

  /** The memory once the remainder, if any, is stored and binned and the block trimmed. */
  ghost predicate Trimmed(s: Layout, k: nat, n: nat, lists: Listing, bins: Bins, m: Nodes, m3: Nodes)
    requires k < |s| && n <= s[k].size && |lists| == |bins| == CLASSES
  {
    var c := s[k].addr;
    var extra := c + HEADER + n;
    && AllLinked(PushedLists(lists, s[k], n), PushedBins(bins, s[k], n), m3)
    && Apart(PushedLists(lists, s[k], n))
    && (forall l :: 0 <= l < CLASSES ==> Distinct(PushedLists(lists, s[k], n)[l]))
    && c in m3 && m3[c].free
    && m3[c].size == (if Splits(s[k], n, HEADER) then n else s[k].size)
    && (Splits(s[k], n, HEADER) ==> extra in m3 && m3[extra].size == s[k].size - n - HEADER && m3[extra].free)
    && (forall x :: x in m && x != c && (Splits(s[k], n, HEADER) ==> x != extra) ==>
          x in m3 && m3[x].size == m[x].size && m3[x].free == m[x].free)
  }

  lemma {:induction false} BlockReads(s: Layout, lists: Listing, bins: Bins, m: Nodes, i: nat, j: nat)
    requires Discipline(s, lists, bins, m) && i < CLASSES && j < |lists[i]|
    ensures var c := lists[i][j];
            var k := IndexAt(s, c);
            && c in m && m[c].next == Here(lists[i], j + 1) && m[c].free
            && k < |s| && s[k].addr == c && s[k].free && Class(s[k].size) == i && m[c].size == s[k].size
  {
    assert lists[i][j] in lists[i];
    BinnedBlock(s, lists, i, lists[i][j]);
    var k := IndexAt(s, lists[i][j]);
    assert s[k] in s && Sizes(m)[lists[i][j]] == Header(s[k].size, true);
    assert Linked(lists[i], bins[i], m);
    ChainAt(lists[i], Null, m, j);
  }

  lemma {:induction false} UnsplitTrimmed(s: Layout, k: nat, n: nat, lists: Listing, bins: Bins, m: Nodes, j: nat)
    requires Discipline(s, lists, bins, m) && k < |s| && Fits(s[k], n) && !Splits(s[k], n, HEADER)
    requires var i := Class(s[k].size); j < |lists[i]| && lists[i][j] == s[k].addr
    ensures Trimmed(s, k, n, lists, bins, m, m)
  {
    SortedApart(s, lists);
    BlockReads(s, lists, bins, m, Class(s[k].size), j);
    IndexAtTiled(s, HEADER, POOL, k);
    assert forall l :: 0 <= l < CLASSES ==> Linked(lists[l], bins[l], m);
  }

  lemma {:induction false} SplitTrimmed(s: Layout, k: nat, n: nat, lists: Listing, bins: Bins, m: Nodes, j: nat,
                     m1: Nodes, m2: Nodes, m3: Nodes)
    requires Discipline(s, lists, bins, m) && k < |s| && Fits(s[k], n) && Splits(s[k], n, HEADER)
    requires var i := Class(s[k].size); j < |lists[i]| && lists[i][j] == s[k].addr
    requires var extra := s[k].addr + HEADER + n;
             var rem := s[k].size - n - HEADER;
             && m1 == m[extra := Node(rem, true, Null, Null)]
             && Pushed(m1, bins[Class(rem)], extra, m2)
             && s[k].addr in m2 && m3 == m2[s[k].addr := m2[s[k].addr].(size := n)]
    ensures Trimmed(s, k, n, lists, bins, m, m3)
  {
    var c := s[k].addr;
    var extra := c + HEADER + n;
    var rem := s[k].size - n - HEADER;
    SortedApart(s, lists);
    FreshStart(s, k, n, lists);
    BlockReads(s, lists, bins, m, Class(s[k].size), j);
    IndexAtTiled(s, HEADER, POOL, k);
    FreshStore(lists, bins, m, extra, m1[extra]);
    PushBin(lists, bins, m1, Class(rem), extra, m2);
    StoreBins(PushedLists(lists, s[k], n), PushedBins(bins, s[k], n), m2, c, m3[c]);
    assert forall l :: 0 <= l < CLASSES ==>
      Linked(PushedLists(lists, s[k], n)[l], PushedBins(bins, s[k], n)[l], m3);
  }

  lemma {:induction false} FreshStore(lists: Listing, bins: Bins, m: Nodes, a: nat, node: Node)
    requires AllLinked(lists, bins, m) && forall l :: 0 <= l < CLASSES ==> a !in lists[l]
    ensures AllLinked(lists, bins, m[a := node])
  {
    forall l | 0 <= l < CLASSES ensures Linked(lists[l], bins[l], m[a := node]) {
      StoreKeeps(lists[l], bins[l], m, a, node);
    }
  }

  lemma {:induction false} InitialDiscipline(bins: Bins, m: Nodes)
    requires bins == [Null, Null, Null, Null, At(0)]
    requires m == map[0 := Node(POOL - HEADER, true, Null, Null)]
    ensures Discipline([Block(0, POOL - HEADER, true)], [[], [], [], [], [0]], bins, m)
  {
    var s := [Block(0, POOL - HEADER, true)];
    var lists: Listing := [[], [], [], [], [0]];
    InitialCoalesced(HEADER, POOL);
    assert s[0] in s;
    assert lists[4][1..] == [];
    assert Chain(lists[4][1..], At(0), m) && Distinct(lists[4][1..]);
    forall i | 0 <= i < CLASSES ensures Linked(lists[i], bins[i], m) && Elems(lists[i]) == BinAddrs(s, i) {
      assert i < 4 ==> lists[i] == [];
    }
  }

  lemma {:induction false} HeadRead(lists: Listing, bins: Bins, m: Nodes, i: nat)
    requires AllLinked(lists, bins, m) && i < CLASSES
    ensures bins[i] != Null ==> bins[i].addr in m && bins[i].addr in lists[i]
  {
    assert Linked(lists[i], bins[i], m);
    PushReads(lists[i], bins[i], m);
  }

  lemma {:induction false} HeadIsFirst(lists: Listing, bins: Bins, m: Nodes, i: nat, j: nat)
    requires AllLinked(lists, bins, m) && i < CLASSES && j < |lists[i]|
    ensures bins[i] == At(lists[i][j]) <==> j == 0
  {
    assert Linked(lists[i], bins[i], m);
    DistinctIndices(lists[i], 0, j);
  }

  lemma {:induction false} TrimmedReads(s: Layout, k: nat, n: nat, lists: Listing, bins: Bins, m: Nodes, j: nat, m3: Nodes)
    requires k < |s| && n <= s[k].size && |lists| == |bins| == CLASSES && Trimmed(s, k, n, lists, bins, m, m3)
    requires var i := Class(s[k].size); j < |lists[i]| && lists[i][j] == s[k].addr
    ensures NeighboursInMemory(m3[s[k].addr := m3[s[k].addr].(free := false)], s[k].addr)
  {
    var i := Class(s[k].size);
    var l1 := PushedLists(lists, s[k], n);
    var b2 := PushedBins(bins, s[k], n);
    assert Linked(l1[i], b2[i], m3);
    assert l1[i][PushedPosition(s[k], n, j)] == s[k].addr;
    UnlinkReads(l1[i], b2[i], m3, PushedPosition(s[k], n, j));
  }

  lemma {:induction false} LiveReads(s: Layout, lists: Listing, bins: Bins, m: Nodes, k: nat)
    requires Discipline(s, lists, bins, m) && k < |s| && !s[k].free
    ensures s[k].addr in m && m[s[k].addr].size == s[k].size
    ensures forall l :: 0 <= l < CLASSES ==> s[k].addr !in lists[l]
  {
    assert s[k] in s && Sizes(m)[s[k].addr] == Header(s[k].size, false);
    IndexAtTiled(s, HEADER, POOL, k);
    forall l | 0 <= l < CLASSES ensures s[k].addr !in lists[l] {
      if s[k].addr in lists[l] {
        BinnedBlock(s, lists, l, s[k].addr);
        assert false;
      }
    }
  }

  lemma {:induction false} ReleaseBinAddrs(s: Layout, k: nat, i: nat)
    requires k < |s| && !s[k].free
    ensures BinAddrs(Release(s, k), i) == (if Class(s[k].size) == i then {s[k].addr} else {}) + BinAddrs(s, i)
  {
    var t := Release(s, k);
    assert t[k] in t;
    forall b | b in t && b != t[k] ensures b in s {
      var j :| 0 <= j < |t| && t[j] == b;
      assert s[j] == b;
    }
    forall b | b in s && b.free ensures b in t {
      var j :| 0 <= j < |s| && s[j] == b;
      assert t[j] == b;
    }
  }

  lemma {:induction false} FreeOutcome(s: Layout, lists: Listing, st: Store, k: nat)
    requires Discipline(s, lists, st.bins, st.m) && k < |s| && !s[k].free
    ensures s[k].addr in st.m
    ensures var i := Class(s[k].size);
            var r := Freed(st, s[k].addr);
            Discipline(Release(s, k), lists[i := [s[k].addr] + lists[i]], r.bins, r.m)
  {
    var a := s[k].addr;
    LiveReads(s, lists, st.bins, st.m, k);
    HeadRead(lists, st.bins, st.m, Class(s[k].size));
    var m1 := st.m[a := st.m[a].(free := true)];
    BinnedIsPushed(Store(st.bins, m1), a);
    FreeStores(s, lists, st.bins, st.m, k, m1, Freed(st, a).m);
  }

  lemma {:induction false} FreeStores(s: Layout, lists: Listing, bins: Bins, m: Nodes, k: nat, m1: Nodes, m2: Nodes)
    requires Discipline(s, lists, bins, m) && k < |s| && !s[k].free
    requires s[k].addr in m && m1 == m[s[k].addr := m[s[k].addr].(free := true)]
    requires Pushed(m1, bins[Class(s[k].size)], s[k].addr, m2)
    ensures var i := Class(s[k].size);
            Discipline(Release(s, k), lists[i := [s[k].addr] + lists[i]], bins[i := At(s[k].addr)], m2)
  {
    var a := s[k].addr;
    var i := Class(s[k].size);
    var t := Release(s, k);
    LiveReads(s, lists, bins, m, k);
    SortedApart(s, lists);
    StoreBins(lists, bins, m, a, m1[a]);
    PushBin(lists, bins, m1, i, a, m2);
    FreeKeeps(s, k, HEADER, POOL);
    forall b | b in t ensures b.addr in Sizes(m2) && Sizes(m2)[b.addr] == Header(b.size, b.free) {
      var j :| 0 <= j < |t| && t[j] == b;
      assert s[j] in s;
      TilesDistinct(s, HEADER, 0, POOL, j, k);
    }
    var l2 := lists[i := [a] + lists[i]];
    forall l | 0 <= l < CLASSES ensures Elems(l2[l]) == BinAddrs(t, l) {
      ReleaseBinAddrs(s, k, l);
      assert Elems(lists[l]) == BinAddrs(s, l);
      assert l == i ==> Elems([a] + lists[i]) == {a} + Elems(lists[i]);
    }
  }

  // ---------------------------------------------------------------- the allocator

  class Heap {
    var memory: Nodes
    const bins: array<Ptr>
    ghost var layout: Layout
    ghost var lists: Listing

    ghost function Stored(): Store
      reads this, bins
    {
      Store(bins[..], memory)
    }

    /** What every call keeps, in order or not. */
    ghost predicate Sound()
      reads this, bins
    {
      bins.Length == CLASSES && Loose(layout, Stored())
    }

    ghost predicate Valid()
      reads this, bins
    {
      Sound() && Discipline(layout, lists, bins[..], memory)
    }

    constructor ()
      ensures Valid() && fresh(bins)
      ensures layout == [Block(0, POOL - HEADER, true)] && lists == [[], [], [], [], [0]]
    {
      memory := map[0 := Node(POOL - HEADER, true, Null, Null)];
      var b: array<Ptr> := new Ptr[CLASSES](_ => Null);
      b[CLASSES-1] := At(0);
      bins := b;
      layout := [Block(0, POOL - HEADER, true)];
      lists := [[], [], [], [], [0]];
      new;
      InitialDiscipline(bins[..], memory);
      InitialLoose(Stored());
    }

    /** The state after block j of bin i of the earlier state was allocated. Headers, tiling
        and links are good in any case; the bins are disciplined if and only if the block is
        not a lost head, which otherwise stays, allocated, at the head of its bin. */
    ghost predicate TakenFrom(s: Layout, f: Listing, n: nat, i: nat, j: nat, p: Ptr)
      reads this, bins
      requires |f| == CLASSES && i < CLASSES && j < |f[i]|
    {
      var k := IndexAt(s, f[i][j]);
      && k < |s| && Fits(s[k], n) && Class(s[k].size) == i
      && p == At(s[k].addr + HEADER)
      && layout == Carve(s, k, n, HEADER)
      && Sound() && IsLive(layout, f[i][j])
      && var lost := HeadLost(s[k], n, j == 0);
      && (Disciplined(layout, bins[..], memory) <==> !lost)
      && (!lost ==> Valid() && lists == MallocLists(f, s[k], n, j))
      && (lost ==> bins[i] == At(f[i][j]))
    }

    method AddToClass(block: nat)
      requires bins.Length == CLASSES && block in memory
      requires var h := bins[Class(memory[block].size)]; h != Null ==> h.addr in memory
      modifies this`memory, bins
      ensures Stored() == Binned(old(Stored()), block)
    {
      var i := GetClassId(memory[block].size);
      memory := memory[block := memory[block].(next := bins[i])];
      if bins[i] != Null {
        memory := memory[bins[i].addr := memory[bins[i].addr].(prev := At(block))];
      }
      memory := memory[block := memory[block].(prev := Null)];
      bins[i] := At(block);
    }

    method RemoveFromClass(block: nat)
      requires bins.Length == CLASSES && block in memory
      requires memory[block].prev != Null ==> memory[block].prev.addr in memory
      requires memory[block].next != Null ==> memory[block].next.addr in memory
      modifies this`memory, bins
      ensures Stored() == Unbinned(old(Stored()), block)
    {
      var i := GetClassId(memory[block].size);
      if memory[block].prev != Null {
        var before := memory[block].prev.addr;
        memory := memory[before := memory[before].(next := memory[block].next)];
      }
      if memory[block].next != Null {
        var after := memory[block].next.addr;
        memory := memory[after := memory[after].(prev := memory[block].prev)];
      }
      if bins[i] == At(block) {
        bins[i] := memory[block].next;
      }
    }

    /** Finds a block exactly when one fits. The bins are disciplined afterwards if and only
        if the chosen block is not a lost head. */
    method Malloc(r: nat) returns (p: Ptr)
      requires Valid() && r < SIZE_MAX_PLUS_ONE
      modifies this, bins
      ensures p == Null <==> forall b :: b in old(layout) ==> !Fits(b, Align4(r))
      ensures p == Null ==> Valid() && layout == old(layout) && lists == old(lists) && memory == old(memory)
      ensures bins.Length == CLASSES
      ensures var n := Align4(r);
              var (i, j) := BinFit(old(lists), old(layout), n, Class(n));
              p != Null ==> i < CLASSES && TakenFrom(old(layout), old(lists), n, i, j, p)
      ensures PayloadsUntouched(old(layout), HEADER, old(memory), memory)
    {
      var size := Align4(r);
      BinSearchComplete(layout, lists, size);
      ghost var (i, j) := BinFit(lists, layout, size, Class(size));
      var curr := Search(size);
      if curr == Null { return Null; }
      TakeListed(curr.addr, size, i, j);
      return At(curr.addr + HEADER);
    }

    // The outer loop of malloc: the bins from the request's class upward.
    method Search(size: nat) returns (curr: Ptr)
      requires Valid()
      ensures var (i, j) := BinFit(lists, layout, size, Class(size));
              curr == if i < CLASSES then At(lists[i][j]) else Null
      ensures var (i, j) := BinFit(lists, layout, size, Class(size));
              i < CLASSES ==>
                var k := IndexAt(layout, lists[i][j]);
                k < |layout| && Fits(layout[k], size) && Class(layout[k].size) == i
    {
      var classId := GetClassId(size);
      var i := classId;
      while i < CLASSES
        invariant classId <= i <= CLASSES
        invariant BinFit(lists, layout, size, classId) == BinFit(lists, layout, size, i)
      {
        curr := SearchBin(i, size);
        if curr != Null { return; }
        i := i + 1;
      }
      return Null;
    }

    // The inner loop of malloc: the first block of bin i that fits.
    method SearchBin(i: nat, size: nat) returns (curr: Ptr)
      requires Valid() && i < CLASSES
      ensures var j := ListFit(lists[i], layout, size);
              && curr == Here(lists[i], j)
              && (curr != Null ==>
                    var k := IndexAt(layout, lists[i][j]);
                    k < |layout| && Fits(layout[k], size) && Class(layout[k].size) == i && layout[k].addr == curr.addr)
    {
      curr := bins[i];
      ghost var j := 0;
      HeadRead(lists, bins[..], memory, i);
      assert Linked(lists[i], bins[..][i], memory);
      while curr != Null
        invariant j <= |lists[i]| && curr == Here(lists[i], j)
        invariant forall l :: 0 <= l < j ==>
                    IndexAt(layout, lists[i][l]) == |layout| || !Fits(layout[IndexAt(layout, lists[i][l])], size)
        decreases |lists[i]| - j
      {
        var c := curr.addr;
        BlockReads(layout, lists, bins[..], memory, i, j);
        if memory[c].free && memory[c].size >= size {
          return;
        }
        curr := memory[c].next;
        j := j + 1;
      }
    }

    // The body of malloc's success branch, for a block found in disciplined bins.
    method TakeListed(c: nat, size: nat, ghost i: nat, ghost j: nat)
      requires Valid() && size % 4 == 0 && i < CLASSES && j < |lists[i]| && lists[i][j] == c
      requires var k := IndexAt(layout, c); k < |layout| && Fits(layout[k], size) && Class(layout[k].size) == i
      modifies this, bins
      ensures bins.Length == CLASSES
      ensures TakenFrom(old(layout), old(lists), size, i, j, At(c + HEADER))
      ensures PayloadsUntouched(old(layout), HEADER, old(memory), memory)
    {
      ghost var k := IndexAt(layout, c);
      MallocOutcome(layout, k, size, lists, Stored(), j);
      TakenLive(layout, k, size);
      ghost var f := MallocLists(lists, layout[k], size, j);
      Take(c, size, k);
      lists := f;
    }

    /** The body of malloc's success branch: split if worthwhile, mark, unlink. It makes the
        stores of `Taken`, and keeps headers and links good even if the bins are not in order. */
    method Take(c: nat, size: nat, ghost k: nat)
      requires Sound() && size % 4 == 0 && k < |layout| && layout[k].addr == c && Fits(layout[k], size)
      modifies this, bins
      ensures Sound() && lists == old(lists)
      ensures c in old(memory) && size <= old(memory)[c].size && Stored() == Taken(old(Stored()), c, size)
      ensures layout == Carve(old(layout), k, size, HEADER)
      ensures PayloadsUntouched(old(layout), HEADER, old(memory), memory)
    {
      TakenLoose(layout, k, size, Stored());
      TakeReads(layout, k, size, Stored());
      Split(c, size);
      memory := memory[c := memory[c].(free := false)];
      RemoveFromClass(c);
      layout := Carve(layout, k, size, HEADER);
    }

    method Split(c: nat, size: nat)
      requires bins.Length == CLASSES && c in memory && size <= memory[c].size
      requires forall i :: 0 <= i < CLASSES && bins[i] != Null ==> bins[i].addr in memory
      modifies this`memory, bins
      ensures Stored() == Cut(old(Stored()), c, size)
    {
      var remaining := memory[c].size - size;
      if remaining > HEADER + 4 {
        var extra := c + HEADER + size;
        memory := memory[extra := Node(remaining - HEADER, true, Null, Null)];
        AddToClass(extra);
        memory := memory[c := memory[c].(size := size)];
      }
    }

    /** A free step always keeps the bins disciplined, and headers and links good in any case. */
    method Free(p: Ptr)
      requires Sound()
      requires p != Null ==> p.addr >= HEADER && IsLive(layout, p.addr - HEADER)
      modifies this, bins
      ensures Sound() && (old(Valid()) ==> Valid())
      ensures p == Null ==> layout == old(layout) && lists == old(lists) && Stored() == old(Stored())
      ensures p != Null ==> FreedFrom(old(layout), old(lists), old(Stored()), old(Valid()), p.addr - HEADER)
      ensures PayloadsUntouched(old(layout), HEADER, old(memory), memory)
    {
      if p != Null { FreeBlock(p.addr - HEADER); }
    }

    /** The state after the block at a of the earlier state was freed. */
    ghost predicate FreedFrom(s: Layout, f: Listing, st: Store, valid: bool, a: nat)
      reads this, bins
      requires IsLive(s, a)
    {
      var k := IndexAt(s, a);
      var i := Class(s[k].size);
      && layout == Release(s, k)
      && a in st.m && |st.bins| == CLASSES && Stored() == Freed(st, a)
      && (valid ==> |f| == CLASSES && lists == f[i := [a] + f[i]])
    }

    method FreeBlock(block: nat)
      requires Sound() && IsLive(layout, block)
      modifies this, bins
      ensures Sound() && (old(Valid()) ==> Valid())
      ensures FreedFrom(old(layout), old(lists), old(Stored()), old(Valid()), block)
      ensures PayloadsUntouched(old(layout), HEADER, old(memory), memory)
    {
      ghost var k := IndexAt(layout, block);
      FreedLoose(layout, k, Stored());
      ghost var f := lists;
      if Discipline(layout, lists, bins[..], memory) {
        FreeOutcome(layout, lists, Stored(), k);
        f := lists[Class(layout[k].size) := [block] + lists[Class(layout[k].size)]];
      }
      memory := memory[block := memory[block].(free := true)];
      AddToClass(block);
      layout := Release(layout, k);
      lists := f;
    }
  }

  // What the success branch of malloc dereferences.
  lemma {:induction false} TakeReads(s: Layout, k: nat, n: nat, st: Store)
    requires Loose(s, st) && k < |s| && Fits(s[k], n)
    ensures s[k].addr in st.m && st.m[s[k].addr].size == s[k].size
    ensures forall i :: 0 <= i < CLASSES && st.bins[i] != Null ==> st.bins[i].addr in st.m
    ensures var r := Cut(st, s[k].addr, n);
      var node := r.m[s[k].addr];
      (node.prev != Null ==> node.prev.addr in r.m) && (node.next != Null ==> node.next.addr in r.m)
  {
    CutLinks(s, k, n, st);
    CarveTop(s, k, n);
    assert forall i :: 0 <= i < CLASSES ==> LinkOk(s, st.bins[i]);
  }

  lemma {:induction false} InitialLoose(st: Store)
    requires st == Store([Null, Null, Null, Null, At(0)], map[0 := Node(POOL - HEADER, true, Null, Null)])
    ensures Loose([Block(0, POOL - HEADER, true)], st)
  {
    var s := [Block(0, POOL - HEADER, true)];
    InitialCoalesced(HEADER, POOL);
    assert s[0] in s && StartsAt(s, 0);
  }

  lemma {:induction false} TakenLive(s: Layout, k: nat, n: nat)
    requires Tiles(s, HEADER, 0, POOL) && k < |s| && Fits(s[k], n)
    ensures IsLive(Carve(s, k, n, HEADER), s[k].addr)
  {
    var t := Carve(s, k, n, HEADER);
    CarveTiles(s, k, n, HEADER, POOL);
    assert t[k] == Pieces(s[k], n, HEADER)[0];
    IndexAtTiled(t, HEADER, POOL, k);
  }

  /** Bin discipline is lost in a run of three legal calls: allocate 300 bytes, free them,
      allocate 30. The 300-byte block heads the last bin, its remainder of 236 bytes goes
      to another bin, and the trimmed block is looked for in the first one. */
  method LoseABinHead() returns (heap: Heap)
    ensures fresh(heap) && heap.Sound() && IsLive(heap.layout, 0) && heap.bins[4] == At(0)
    ensures !Disciplined(heap.layout, heap.bins[..], heap.memory)
  {
    heap := ReturnedHeap();
    ReturnedHead();
    var q := heap.Malloc(30);
  }

  // Allocate 300 bytes and free them.
  method ReturnedHeap() returns (heap: Heap)
    ensures fresh(heap) && fresh(heap.bins) && heap.Valid()
    ensures heap.layout == [Block(0, 300, true), Block(332, 32404, true)] && heap.lists == [[], [], [], [], [0, 332]]
  {
    heap := SplitHeap();
    ghost var was := heap.layout;
    assert IndexAt(was, 0) == 0 && Class(was[0].size) == 4;
    heap.Free(At(HEADER));
    assert [0] + [332] == [0, 332];
  }

  // Allocate 300 bytes.
  method SplitHeap() returns (heap: Heap)
    ensures fresh(heap) && fresh(heap.bins) && heap.Valid()
    ensures heap.layout == [Block(0, 300, false), Block(332, 32404, true)] && heap.lists == [[], [], [], [], [332]]
  {
    heap := new Heap();
    FirstSplit();
    var p := heap.Malloc(300);
  }

  lemma {:induction false} FirstSplit()
    ensures var s := [Block(0, POOL - HEADER, true)];
            var f: Listing := [[], [], [], [], [0]];
            && Align4(300) == 300
            && BinFit(f, s, 300, Class(300)) == (4, 0)
            && IndexAt(s, 0) == 0
            && Carve(s, 0, 300, HEADER) == [Block(0, 300, false), Block(332, 32404, true)]
            && MallocLists(f, s[0], 300, 0) == [[], [], [], [], [332]]
            && IndexAt([Block(0, 300, false), Block(332, 32404, true)], 0) == 0
  {
    var s := [Block(0, POOL - HEADER, true)];
    var f: Listing := [[], [], [], [], [0]];
    assert s[0].size == 32736 && Splits(s[0], 300, HEADER) && Class(32404) == 4;
    assert PushedLists(f, s[0], 300) == [[], [], [], [], [332, 0]] by {
      assert [332] + [0] == [332, 0];
    }
    assert RemoveAt([332, 0], 1) == [332];
    assert Carve(s, 0, 300, HEADER) == Pieces(s[0], 300, HEADER);
    assert ListFit(f[4], s, 300) == 0;
  }

  lemma {:induction false} ReturnedHead()
    ensures var s := [Block(0, 300, true), Block(332, 32404, true)];
            var f: Listing := [[], [], [], [], [0, 332]];
            && Align4(30) == 32
            && BinFit(f, s, 32, Class(32)) == (4, 0)
            && IndexAt(s, 0) == 0
            && HeadLost(s[0], 32, true)
            && Fits(s[0], 32)
  {
    var s := [Block(0, 300, true), Block(332, 32404, true)];
    var f: Listing := [[], [], [], [], [0, 332]];
    assert ListFit(f[4], s, 32) == 0;
    assert BinFit(f, s, 32, 4) == (4, 0);
    assert ListFit(f[3], s, 32) == ListFit(f[2], s, 32) == ListFit(f[1], s, 32) == ListFit(f[0], s, 32) == 0;
    assert BinFit(f, s, 32, 3) == (4, 0);
    assert BinFit(f, s, 32, 2) == (4, 0);
    assert BinFit(f, s, 32, 1) == (4, 0);
    assert BinFit(f, s, 32, 0) == (4, 0);
  }
}
