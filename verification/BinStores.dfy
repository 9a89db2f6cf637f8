/**
 What the segregated allocator stores, statement by statement, as functions of the bin heads
 and the headers. Nothing here assumes that the bins are in order: links may be stale, shared
 or cyclic. What survives in every case is `Loose`: the headers describe an exact tiling, and
 every bin head and every link leads to the start of a block.
 */
module BinStores {
  import opened HeapLayout
  import opened HeapMemory
  import opened FreeLinks

  const HEADER := 32
  const POOL := 32768
  const CLASSES := 5

  function Class(n: nat): nat {
    if n <= 32 then 0 else if n <= 64 then 1 else if n <= 128 then 2 else if n <= 256 then 3 else 4
  }

  type Bins = seq<Ptr>

  datatype Store = Store(bins: Bins, m: Nodes)

  function SetNext(m: Nodes, p: Ptr, v: Ptr): (r: Nodes)
    ensures r.Keys == m.Keys
  {
    if p.At? && p.addr in m then m[p.addr := m[p.addr].(next := v)] else m
  }

  function SetPrev(m: Nodes, p: Ptr, v: Ptr): (r: Nodes)
    ensures r.Keys == m.Keys
  {
    if p.At? && p.addr in m then m[p.addr := m[p.addr].(prev := v)] else m
  }

  // add_to_class.
  function Binned(st: Store, a: nat): (r: Store)
    requires a in st.m && |st.bins| == CLASSES
    ensures r.m.Keys == st.m.Keys && |r.bins| == CLASSES
  {
    var i := Class(st.m[a].size);
    var m1 := st.m[a := st.m[a].(next := st.bins[i])];
    var m2 := SetPrev(m1, st.bins[i], At(a));
    Store(st.bins[i := At(a)], m2[a := m2[a].(prev := Null)])
  }

  // remove_from_class. Every field is read again after the store before it.
  function Unbinned(st: Store, a: nat): (r: Store)
    requires a in st.m && |st.bins| == CLASSES
    ensures r.m.Keys == st.m.Keys && |r.bins| == CLASSES
  {
    var i := Class(st.m[a].size);
    var m1 := SetNext(st.m, st.m[a].prev, st.m[a].next);
    var m2 := SetPrev(m1, m1[a].next, m1[a].prev);
    Store(if st.bins[i] == At(a) then st.bins[i := m2[a].next] else st.bins, m2)
  }

  // The remainder of block c gets a header of its own.
  function Spare(st: Store, c: nat, n: nat): (r: Store)
    requires c in st.m && st.m[c].size - n > HEADER + 4
    ensures c in r.m && c + HEADER + n in r.m && r.bins == st.bins
  {
    st.(m := st.m[c + HEADER + n := Node(st.m[c].size - n - HEADER, true, Null, Null)])
  }

  function Resized(st: Store, c: nat, n: nat): Store
    requires c in st.m
  {
    st.(m := st.m[c := st.m[c].(size := n)])
  }

  // Cutting the remainder off block c, if it is large enough.
  function Cut(st: Store, c: nat, n: nat): (r: Store)
    requires c in st.m && n <= st.m[c].size && |st.bins| == CLASSES
    ensures c in r.m && |r.bins| == CLASSES
  {
    if st.m[c].size - n > HEADER + 4 then Resized(Binned(Spare(st, c, n), c + HEADER + n), c, n) else st
  }

  // The success branch of malloc, for block c.
  function Taken(st: Store, c: nat, n: nat): Store
    requires c in st.m && n <= st.m[c].size && |st.bins| == CLASSES
  {
    var r := Cut(st, c, n);
    Unbinned(r.(m := r.m[c := r.m[c].(free := false)]), c)
  }

  // free of block c.
  function Freed(st: Store, c: nat): Store
    requires c in st.m && |st.bins| == CLASSES
  {
    Binned(st.(m := st.m[c := st.m[c].(free := true)]), c)
  }

  // Binning writes links only.
  lemma {:induction false} BinnedSizes(st: Store, a: nat)
    requires a in st.m && |st.bins| == CLASSES
    ensures Sizes(Binned(st, a).m) == Sizes(st.m)
  {
    SameSizes(st.m, Binned(st, a).m);
  }

  lemma {:induction false} UnbinnedSizes(st: Store, a: nat)
    requires a in st.m && |st.bins| == CLASSES
    ensures Sizes(Unbinned(st, a).m) == Sizes(st.m)
  {
    SameSizes(st.m, Unbinned(st, a).m);
  }

  lemma {:induction false} NodeSizes(m: Nodes, a: nat, node: Node)
    ensures Sizes(m[a := node]) == Sizes(m)[a := Header(node.size, node.free)]
  {
  }

  // The headers once the remainder, if any, is cut off.
  ghost function CutHeaders(h: Headers, c: nat, n: nat, splits: bool, rest: int): Headers {
    if splits && rest >= 0 then h[c + HEADER + n := Header(rest, true)][c := Header(n, true)] else h
  }

  lemma {:induction false} CutSizes(st: Store, c: nat, n: nat)
    requires c in st.m && n <= st.m[c].size && st.m[c].free && |st.bins| == CLASSES
    ensures Sizes(Cut(st, c, n).m)
         == CutHeaders(Sizes(st.m), c, n, st.m[c].size - n > HEADER + 4, st.m[c].size - n - HEADER)
  {
    if st.m[c].size - n > HEADER + 4 {
      var extra := c + HEADER + n;
      NodeSizes(st.m, extra, Spare(st, c, n).m[extra]);
      RestSizes(Spare(st, c, n), c, extra, n);
    }
  }

  lemma {:induction false} RestSizes(st: Store, c: nat, extra: nat, n: nat)
    requires c in st.m && extra in st.m && st.m[c].free && |st.bins| == CLASSES
    ensures Sizes(Resized(Binned(st, extra), c, n).m) == Sizes(st.m)[c := Header(n, true)]
  {
    var r := Binned(st, extra);
    BinnedSizes(st, extra);
    assert Sizes(r.m)[c] == Sizes(st.m)[c];
    NodeSizes(r.m, c, r.m[c].(size := n));
  }

  // ---------------------------------------------------------------- links lead to blocks

  ghost predicate LinkOk(s: Layout, p: Ptr) {
    p == Null || StartsAt(s, p.addr)
  }

  ghost predicate LinksOk(s: Layout, st: Store) {
    && |st.bins| == CLASSES
    && (forall i :: 0 <= i < CLASSES ==> LinkOk(s, st.bins[i]))
    && (forall a :: StartsAt(s, a) ==> a in st.m && LinkOk(s, st.m[a].next) && LinkOk(s, st.m[a].prev))
  }

  /** What holds whether or not the bins are in order. */
  ghost predicate Loose(s: Layout, st: Store) {
    Tiles(s, HEADER, 0, POOL) && Aligned(s) && Holds(Sizes(st.m), s) && LinksOk(s, st)
  }

  // A store that changes links or flags of one block.
  lemma {:induction false} NodeLinks(s: Layout, st: Store, a: nat, node: Node)
    requires LinksOk(s, st) && StartsAt(s, a) && LinkOk(s, node.next) && LinkOk(s, node.prev)
    ensures LinksOk(s, st.(m := st.m[a := node]))
    ensures ChangedOnlyAtBlocks(s, st.m, st.m[a := node])
  {
    forall x: nat ensures SameEntry(st.m, st.m[a := node], x) || StartsAt(s, x) { }
  }

  lemma {:induction false} ChangedTrans(s: Layout, m: Nodes, m1: Nodes, m2: Nodes)
    requires ChangedOnlyAtBlocks(s, m, m1) && ChangedOnlyAtBlocks(s, m1, m2)
    ensures ChangedOnlyAtBlocks(s, m, m2)
  {
    forall x: nat ensures SameEntry(m, m2, x) || StartsAt(s, x) {
      assert SameEntry(m, m1, x) || StartsAt(s, x);
      assert SameEntry(m1, m2, x) || StartsAt(s, x);
    }
  }

  lemma {:induction false} SetNextLinks(s: Layout, st: Store, p: Ptr, v: Ptr)
    requires LinksOk(s, st) && LinkOk(s, p) && LinkOk(s, v)
    ensures LinksOk(s, st.(m := SetNext(st.m, p, v)))
    ensures ChangedOnlyAtBlocks(s, st.m, SetNext(st.m, p, v))
  {
    if p.At? { NodeLinks(s, st, p.addr, st.m[p.addr].(next := v)); }
  }

  lemma {:induction false} SetPrevLinks(s: Layout, st: Store, p: Ptr, v: Ptr)
    requires LinksOk(s, st) && LinkOk(s, p) && LinkOk(s, v)
    ensures LinksOk(s, st.(m := SetPrev(st.m, p, v)))
    ensures ChangedOnlyAtBlocks(s, st.m, SetPrev(st.m, p, v))
  {
    if p.At? { NodeLinks(s, st, p.addr, st.m[p.addr].(prev := v)); }
  }

  lemma {:induction false} BinnedLinks(s: Layout, st: Store, a: nat)
    requires LinksOk(s, st) && StartsAt(s, a)
    ensures LinksOk(s, Binned(st, a))
    ensures ChangedOnlyAtBlocks(s, st.m, Binned(st, a).m)
  {
    var i := Class(st.m[a].size);
    var m1 := st.m[a := st.m[a].(next := st.bins[i])];
    NodeLinks(s, st, a, m1[a]);
    SetPrevLinks(s, st.(m := m1), st.bins[i], At(a));
    var m2 := SetPrev(m1, st.bins[i], At(a));
    NodeLinks(s, st.(m := m2), a, m2[a].(prev := Null));
    ChangedTrans(s, st.m, m1, m2);
    ChangedTrans(s, st.m, m2, Binned(st, a).m);
  }

  lemma {:induction false} UnbinnedLinks(s: Layout, st: Store, a: nat)
    requires LinksOk(s, st) && StartsAt(s, a)
    ensures LinksOk(s, Unbinned(st, a))
    ensures ChangedOnlyAtBlocks(s, st.m, Unbinned(st, a).m)
  {
    var m1 := SetNext(st.m, st.m[a].prev, st.m[a].next);
    SetNextLinks(s, st, st.m[a].prev, st.m[a].next);
    SetPrevLinks(s, st.(m := m1), m1[a].next, m1[a].prev);
    ChangedTrans(s, st.m, m1, Unbinned(st, a).m);
  }

  // ---------------------------------------------------------------- malloc and free

  lemma {:induction false} CutLinks(s: Layout, k: nat, n: nat, st: Store)
    requires Loose(s, st) && k < |s| && Fits(s[k], n)
    ensures s[k].addr in st.m && st.m[s[k].addr].size == s[k].size
    ensures var t := Carve(s, k, n, HEADER);
      var r := Cut(st, s[k].addr, n);
      LinksOk(t, r) && ChangedOnlyAtBlocks(t, st.m, r.m)
  {
    assert s[k] in s && Sizes(st.m)[s[k].addr] == Header(s[k].size, true);
    CarvedLinks(s, k, n, st);
    if Splits(s[k], n, HEADER) {
      FreshLinks(Carve(s, k, n, HEADER), s[k].addr, n, st);
      SplitLinks(Carve(s, k, n, HEADER), s[k].addr, n, st);
    }
  }

  // Every link stays good when the layout gains a block start.
  lemma {:induction false} CarvedLinks(s: Layout, k: nat, n: nat, st: Store)
    requires LinksOk(s, st) && k < |s| && Fits(s[k], n)
    ensures var t := Carve(s, k, n, HEADER);
      && (forall p :: LinkOk(s, p) ==> LinkOk(t, p))
      && (forall a :: StartsAt(t, a) ==> StartsAt(s, a) || (Splits(s[k], n, HEADER) && a == s[k].addr + HEADER + n))
      && StartsAt(t, s[k].addr) && (Splits(s[k], n, HEADER) ==> StartsAt(t, s[k].addr + HEADER + n))
      && (!Splits(s[k], n, HEADER) ==> LinksOk(t, st))
  {
    var t := Carve(s, k, n, HEADER);
    var p := Pieces(s[k], n, HEADER);
    CarveStarts(s, k, n, HEADER);
    assert p[0] in p && p[|p|-1] in p;
    forall a | StartsAt(t, a) ensures StartsAt(s, a) || (Splits(s[k], n, HEADER) && a == s[k].addr + HEADER + n) {
      var b :| b in t && b.addr == a;
      var j :| 0 <= j < |t| && t[j] == b;
      if j < k { assert s[j] in s; } else if j >= k + |p| { assert s[j + 1 - |p|] in s; } else { assert b == p[j-k] && s[k] in s; }
    }
  }

  // The state in which the remainder of block c is stored and not yet binned.
  ghost predicate Splitting(t: Layout, c: nat, n: nat, st: Store) {
    && c in st.m && n <= st.m[c].size && st.m[c].free && |st.bins| == CLASSES && st.m[c].size - n > HEADER + 4
    && StartsAt(t, c) && StartsAt(t, c + HEADER + n)
    && (forall i :: 0 <= i < CLASSES ==> LinkOk(t, st.bins[i]))
    && (forall a :: StartsAt(t, a) && a != c + HEADER + n ==> a in st.m && LinkOk(t, st.m[a].next) && LinkOk(t, st.m[a].prev))
  }

  lemma {:induction false} FreshLinks(t: Layout, c: nat, n: nat, st: Store)
    requires Splitting(t, c, n, st)
    ensures LinksOk(t, Spare(st, c, n)) && ChangedOnlyAtBlocks(t, st.m, Spare(st, c, n).m)
  {
    forall x: nat ensures SameEntry(st.m, Spare(st, c, n).m, x) || StartsAt(t, x) { }
  }

  lemma {:induction false} SplitLinks(t: Layout, c: nat, n: nat, st: Store)
    requires c in st.m && n <= st.m[c].size && |st.bins| == CLASSES && st.m[c].size - n > HEADER + 4
    requires StartsAt(t, c) && StartsAt(t, c + HEADER + n)
    requires LinksOk(t, Spare(st, c, n)) && ChangedOnlyAtBlocks(t, st.m, Spare(st, c, n).m)
    ensures LinksOk(t, Cut(st, c, n)) && ChangedOnlyAtBlocks(t, st.m, Cut(st, c, n).m)
  {
    assert Cut(st, c, n) == Resized(Binned(Spare(st, c, n), c + HEADER + n), c, n);
    RestLinks(t, st.m, Spare(st, c, n), c, c + HEADER + n, n);
  }

  lemma {:induction false} RestLinks(t: Layout, m: Nodes, st: Store, c: nat, extra: nat, n: nat)
    requires LinksOk(t, st) && ChangedOnlyAtBlocks(t, m, st.m) && StartsAt(t, c) && StartsAt(t, extra)
    ensures var r := Resized(Binned(st, extra), c, n); LinksOk(t, r) && ChangedOnlyAtBlocks(t, m, r.m)
  {
    var r := Binned(st, extra);
    BinnedLinks(t, st, extra);
    ChangedTrans(t, m, st.m, r.m);
    NodeAgain(t, m, r, c, r.m[c].(size := n));
  }

  // One more store into a block's header, its links unchanged.
  lemma {:induction false} NodeAgain(t: Layout, m: Nodes, st: Store, a: nat, node: Node)
    requires LinksOk(t, st) && StartsAt(t, a) && ChangedOnlyAtBlocks(t, m, st.m)
    requires node.next == st.m[a].next && node.prev == st.m[a].prev
    ensures LinksOk(t, st.(m := st.m[a := node])) && ChangedOnlyAtBlocks(t, m, st.m[a := node])
  {
    NodeLinks(t, st, a, node);
    ChangedTrans(t, m, st.m, st.m[a := node]);
  }

  lemma {:induction false} TakenLinks(s: Layout, k: nat, n: nat, st: Store)
    requires Loose(s, st) && k < |s| && Fits(s[k], n)
    ensures s[k].addr in st.m && st.m[s[k].addr].size == s[k].size
    ensures var t := Carve(s, k, n, HEADER);
      LinksOk(t, Taken(st, s[k].addr, n)) && ChangedOnlyAtBlocks(t, st.m, Taken(st, s[k].addr, n).m)
  {
    var c := s[k].addr;
    var t := Carve(s, k, n, HEADER);
    CutLinks(s, k, n, st);
    CarveTop(s, k, n);
    var r := Cut(st, c, n);
    var r2 := r.(m := r.m[c := r.m[c].(free := false)]);
    NodeAgain(t, st.m, r, c, r2.m[c]);
    UnbinnedLinks(t, r2, c);
    ChangedTrans(t, st.m, r2.m, Taken(st, c, n).m);
  }

  lemma {:induction false} TakenSizes(s: Layout, k: nat, n: nat, st: Store)
    requires Tiles(s, HEADER, 0, POOL) && Holds(Sizes(st.m), s) && |st.bins| == CLASSES && k < |s| && Fits(s[k], n)
    requires s[k].addr in st.m && st.m[s[k].addr].size == s[k].size
    ensures Holds(Sizes(Taken(st, s[k].addr, n).m), Carve(s, k, n, HEADER))
  {
    var c := s[k].addr;
    assert s[k] in s && Sizes(st.m)[c] == Header(s[k].size, true);
    CutSizes(st, c, n);
    var r := Cut(st, c, n);
    var r2 := r.(m := r.m[c := r.m[c].(free := false)]);
    NodeSizes(r.m, c, r2.m[c]);
    UnbinnedSizes(r2, c);
    TakenHolds(s, k, n, Sizes(st.m), Sizes(r.m), Sizes(r2.m));
  }

  /** Malloc's stores keep every header and every link good, whatever the bins look like,
      and touch no live payload. */
  lemma {:induction false} TakenLoose(s: Layout, k: nat, n: nat, st: Store)
    requires Loose(s, st) && k < |s| && Fits(s[k], n) && n % 4 == 0
    ensures s[k].addr in st.m && st.m[s[k].addr].size == s[k].size
    ensures Loose(Carve(s, k, n, HEADER), Taken(st, s[k].addr, n))
    ensures PayloadsUntouched(s, HEADER, st.m, Taken(st, s[k].addr, n).m)
  {
    TakenLinks(s, k, n, st);
    TakenSizes(s, k, n, st);
    CarveTiles(s, k, n, HEADER, POOL);
    CarveAligned(s, k, n);
    CarveMissesPayloads(s, k, n, HEADER, POOL, st.m, Taken(st, s[k].addr, n).m);
  }

  lemma {:induction false} CarveTop(s: Layout, k: nat, n: nat)
    requires k < |s| && Fits(s[k], n)
    ensures StartsAt(Carve(s, k, n, HEADER), s[k].addr)
  {
    var t := Carve(s, k, n, HEADER);
    assert t[k] == Pieces(s[k], n, HEADER)[0] && t[k] in t;
  }

  lemma {:induction false} CarveAligned(s: Layout, k: nat, n: nat)
    requires Tiles(s, HEADER, 0, POOL) && Aligned(s) && k < |s| && n <= s[k].size && n % 4 == 0
    ensures Aligned(Carve(s, k, n, HEADER))
  {
    CarveMembers(s, k, n, HEADER, POOL);
    assert s[k] in s;
  }

  lemma {:induction false} TakenHolds(s: Layout, k: nat, n: nat, h: Headers, h1: Headers, h2: Headers)
    requires Tiles(s, HEADER, 0, POOL) && Holds(h, s) && k < |s| && Fits(s[k], n)
    requires h1 == CutHeaders(h, s[k].addr, n, Splits(s[k], n, HEADER), s[k].size - n - HEADER)
    requires s[k].addr in h1 && h2 == h1[s[k].addr := h1[s[k].addr].(free := false)]
    ensures Holds(h2, Carve(s, k, n, HEADER))
  {
    var p := Pieces(s[k], n, HEADER);
    assert s[k] in s;
    forall b | b in p ensures b.addr in h2 && h2[b.addr] == Header(b.size, b.free) {
      assert b == p[0] || b == p[|p|-1];
    }
    CarvedHeaders(s, k, n, HEADER, POOL, h, h2);
  }

  /** So do the stores of free. */
  lemma {:induction false} FreedLoose(s: Layout, k: nat, st: Store)
    requires Loose(s, st) && k < |s| && !s[k].free
    ensures s[k].addr in st.m
    ensures Loose(Release(s, k), Freed(st, s[k].addr))
    ensures PayloadsUntouched(s, HEADER, st.m, Freed(st, s[k].addr).m)
  {
    var c := s[k].addr;
    var t := Release(s, k);
    assert s[k] in s && Sizes(st.m)[c] == Header(s[k].size, false);
    var m1 := st.m[c := st.m[c].(free := true)];
    NodeLinks(s, st, c, m1[c]);
    BinnedLinks(s, st.(m := m1), c);
    BinnedSizes(st.(m := m1), c);
    ChangedTrans(s, st.m, m1, Freed(st, c).m);
    ChangesMissPayloads(s, HEADER, POOL, st.m, Freed(st, c).m);
    FreeKeeps(s, k, HEADER, POOL);
    ReleasedLinks(s, k, Freed(st, c));
    FreedHolds(s, k, Sizes(st.m), Sizes(Freed(st, c).m));
  }

  lemma {:induction false} ReleasedLinks(s: Layout, k: nat, st: Store)
    requires LinksOk(s, st) && k < |s|
    ensures LinksOk(Release(s, k), st)
  {
    var t := Release(s, k);
    ReleaseStarts(s, k);
    forall a | StartsAt(s, a) ensures StartsAt(t, a) {
      var b :| b in s && b.addr == a;
      var j :| 0 <= j < |s| && s[j] == b;
      assert t[j] in t && t[j].addr == a;
    }
    forall a | StartsAt(t, a) ensures StartsAt(s, a) {
      var b :| b in t && b.addr == a;
    }
  }

  lemma {:induction false} FreedHolds(s: Layout, k: nat, h: Headers, h1: Headers)
    requires Tiles(s, HEADER, 0, POOL) && Holds(h, s) && k < |s| && s[k].addr in h
    requires h1 == h[s[k].addr := h[s[k].addr].(free := true)]
    ensures Holds(h1, Release(s, k))
  {
    var t := Release(s, k);
    forall b | b in t ensures b.addr in h1 && h1[b.addr] == Header(b.size, b.free) {
      var j :| 0 <= j < |t| && t[j] == b;
      assert s[j] in s && s[k] in s;
      TilesDistinct(s, HEADER, 0, POOL, j, k);
    }
  }
}
