/**
 The layout shared by the free-list allocators: one fixed pool of bytes, cut into
 blocks that lie end to end. A block is a header of `h` bytes followed by `size`
 payload bytes. Allocation carves a block, freeing marks it and coalesces.
 */
module HeapLayout {
  import opened Lists

  datatype Ptr = Null | At(addr: nat)

  datatype Block = Block(addr: nat, size: nat, free: bool)

  type Layout = seq<Block>

  // One past the last byte of a block.
  function End(b: Block, h: nat): nat {
    b.addr + h + b.size
  }

  /** The blocks of `s` cover exactly the bytes from `lo` up to `hi`, in address order. */
  ghost predicate Tiles(s: Layout, h: nat, lo: nat, hi: nat) {
    if s == [] then lo == hi else s[0].addr == lo && Tiles(s[1..], h, End(s[0], h), hi)
  }

  ghost predicate NoAdjacentFree(s: Layout) {
    forall i :: 0 < i < |s| ==> !(s[i-1].free && s[i].free)
  }

  ghost predicate Aligned(s: Layout) {
    forall b :: b in s ==> b.size % 4 == 0
  }

  /** What holds between calls: exact tiling, aligned sizes, nothing left to coalesce. */
  ghost predicate Coalesced(s: Layout, h: nat, hi: nat) {
    s != [] && Tiles(s, h, 0, hi) && Aligned(s) && NoAdjacentFree(s)
  }

  ghost function Live(s: Layout): set<Block> {
    set b | b in s && !b.free
  }

  ghost function FreeAddrs(s: Layout): set<nat> {
    set b | b in s && b.free :: b.addr
  }

  ghost predicate Disjoint(lo1: nat, hi1: nat, lo2: nat, hi2: nat) {
    hi1 <= lo2 || hi2 <= lo1
  }

  // ---------------------------------------------------------------- size arithmetic

  const SIZE_MAX_PLUS_ONE := 0x1_0000_0000_0000_0000

  /** ALIGN4 on a 64-bit size_t, wrap-around included. */
  function Align4(r: nat): (n: nat)
    requires r < SIZE_MAX_PLUS_ONE
    ensures n % 4 == 0
  {
    (r + 3) % SIZE_MAX_PLUS_ONE / 4 * 4
  }

  /** Rounding covers the request exactly when the addition does not wrap;
      the last three requests wrap to a block of zero bytes. */
  lemma {:induction false} Align4Covers(r: nat)
    requires r < SIZE_MAX_PLUS_ONE
    ensures r <= Align4(r) <==> r + 3 < SIZE_MAX_PLUS_ONE
    ensures r <= Align4(r) ==> Align4(r) <= r + 3
    ensures r + 3 >= SIZE_MAX_PLUS_ONE ==> Align4(r) == 0
  {
    if r + 3 >= SIZE_MAX_PLUS_ONE {
      assert (r + 3) % SIZE_MAX_PLUS_ONE == r + 3 - SIZE_MAX_PLUS_ONE;
    }
  }

  // ---------------------------------------------------------------- operations on layouts

  predicate Fits(b: Block, n: nat) {
    b.free && n <= b.size
  }

  predicate Splits(b: Block, n: nat, h: nat) {
    b.size > n + h + 4
  }

  /** The pieces that replace a chosen block of which `n` bytes were asked for. */
  function Pieces(b: Block, n: nat, h: nat): Layout
    requires n <= b.size
  {
    if Splits(b, n, h)
    then [Block(b.addr, n, false), Block(b.addr + h + n, b.size - n - h, true)]
    else [Block(b.addr, b.size, false)]
  }

  function Carve(s: Layout, k: nat, n: nat, h: nat): Layout
    requires k < |s| && n <= s[k].size
  {
    s[..k] + Pieces(s[k], n, h) + s[k+1..]
  }

  function Release(s: Layout, k: nat): Layout
    requires k < |s|
  {
    s[k := s[k].(free := true)]
  }

  function Join(a: Block, b: Block, h: nat): Block {
    Block(a.addr, a.size + h + b.size, true)
  }

  /** The coalescing sweep, left to right. */
  function Coalesce(s: Layout, h: nat): Layout
    decreases |s|
  {
    if |s| < 2 then s
    else if s[0].free && s[1].free then Coalesce([Join(s[0], s[1], h)] + s[2..], h)
    else [s[0]] + Coalesce(s[1..], h)
  }

  /** The first fitting block in address order, or |s| when none fits. */
  function FirstFit(s: Layout, n: nat): (k: nat)
    ensures k <= |s|
    ensures k < |s| ==> Fits(s[k], n)
    ensures forall i :: 0 <= i < k ==> !Fits(s[i], n)
  {
    if s == [] then 0
    else if Fits(s[0], n) then 0
    else 1 + FirstFit(s[1..], n)
  }

  // ---------------------------------------------------------------- tiling

  lemma {:induction false} TilesAppend(a: Layout, b: Layout, h: nat, lo: nat, mid: nat, hi: nat)
    requires Tiles(a, h, lo, mid) && Tiles(b, h, mid, hi)
    ensures Tiles(a + b, h, lo, hi)
  {
    if a == [] {
      assert a + b == b;
    } else {
      TilesAppend(a[1..], b, h, End(a[0], h), mid, hi);
      assert (a + b)[1..] == a[1..] + b;
    }
  }

  /** Cutting a tiling anywhere leaves two tilings that meet. */
  lemma {:induction false} TilesCut(s: Layout, k: nat, h: nat, lo: nat, hi: nat) returns (mid: nat)
    requires Tiles(s, h, lo, hi) && k <= |s|
    ensures lo <= mid <= hi
    ensures Tiles(s[..k], h, lo, mid) && Tiles(s[k..], h, mid, hi)
    ensures k < |s| ==> mid == s[k].addr
    ensures k > 0 ==> mid == End(s[k-1], h)
  {
    if k == 0 {
      mid := lo;
      assert s[0..] == s;
      TilesSpan(s, h, lo, hi);
    } else {
      mid := TilesCut(s[1..], k - 1, h, End(s[0], h), hi);
      assert s[..k][1..] == s[1..][..k-1];
      assert s[k..] == s[1..][k-1..];
    }
  }

  lemma {:induction false} TilesSpan(s: Layout, h: nat, lo: nat, hi: nat)
    requires Tiles(s, h, lo, hi)
    ensures lo <= hi
    ensures forall b :: b in s ==> lo <= b.addr && End(b, h) <= hi
  {
    if s != [] {
      TilesSpan(s[1..], h, End(s[0], h), hi);
      forall b | b in s ensures lo <= b.addr && End(b, h) <= hi {
        assert b == s[0] || b in s[1..];
      }
    }
  }

  /** Blocks come in address order and never overlap, headers included. */
  lemma {:induction false} TilesOrdered(s: Layout, h: nat, lo: nat, hi: nat, i: nat, j: nat)
    requires Tiles(s, h, lo, hi) && i < j < |s|
    ensures End(s[i], h) <= s[j].addr
    ensures j == i + 1 ==> End(s[i], h) == s[j].addr
  {
    var mid := TilesCut(s, i + 1, h, lo, hi);
    TilesSpan(s[i+1..], h, mid, hi);
    assert s[j] == s[i+1..][j-i-1];
  }

  lemma {:induction false} TilesDistinct(s: Layout, h: nat, lo: nat, hi: nat, i: nat, j: nat)
    requires h > 0 && Tiles(s, h, lo, hi) && i < |s| && j < |s|
    ensures s[i].addr == s[j].addr ==> i == j
  {
    if i < j { TilesOrdered(s, h, lo, hi, i, j); }
    if j < i { TilesOrdered(s, h, lo, hi, j, i); }
  }

  lemma {:induction false} TilesNext(s: Layout, k: nat, h: nat, lo: nat, hi: nat)
    requires Tiles(s, h, lo, hi) && k < |s|
    ensures k + 1 < |s| ==> End(s[k], h) == s[k+1].addr
    ensures k + 1 == |s| ==> End(s[k], h) == hi
    ensures h > 0 ==> s[k].addr < hi && (End(s[k], h) < hi <==> k + 1 < |s|)
  {
    var mid := TilesCut(s, k + 1, h, lo, hi);
    if k + 1 < |s| {
      TilesSpan(s, h, lo, hi);
      assert End(s[k+1], h) <= hi;
    } else {
      assert s[k+1..] == [];
    }
  }

  /** The safety of allocated memory: a payload lies inside the pool and no other
      block, header or payload, reaches into it. */
  lemma {:induction false} PayloadsIsolated(s: Layout, h: nat, hi: nat, a: Block, b: Block)
    requires h > 0 && Tiles(s, h, 0, hi) && a in s && b in s && a != b
    ensures a.addr + h <= End(a, h) <= hi
    ensures Disjoint(a.addr, End(a, h), b.addr, End(b, h))
  {
    TilesSpan(s, h, 0, hi);
    var i :| 0 <= i < |s| && s[i] == a;
    var j :| 0 <= j < |s| && s[j] == b;
    if i < j { TilesOrdered(s, h, 0, hi, i, j); } else { TilesOrdered(s, h, 0, hi, j, i); }
  }

  // ---------------------------------------------------------------- carving

  lemma {:induction false} CarveKeeps(s: Layout, k: nat, n: nat, h: nat, hi: nat)
    requires h > 0 && h % 4 == 0 && n % 4 == 0 && Coalesced(s, h, hi)
    requires k < |s| && Fits(s[k], n)
    ensures Coalesced(Carve(s, k, n, h), h, hi)
  {
    CarveTiles(s, k, n, h, hi);
    var p := Pieces(s[k], n, h);
    var t := Carve(s, k, n, h);
    assert s[k] in s;
    forall b | b in t ensures b.size % 4 == 0 {
      assert b in s || b in p;
    }
    forall i | 0 < i < |t| ensures !(t[i-1].free && t[i].free) {
      if i < k {
        assert t[i-1] == s[i-1] && t[i] == s[i];
      } else if i >= k + |p| {
        assert t[i] == s[i + 1 - |p|];
        if i > k + |p| {
          assert t[i-1] == s[i - |p|];
        } else if |p| == 2 {
          assert s[k].free;
        }
      }
    }
  }

  lemma {:induction false} CarveTiles(s: Layout, k: nat, n: nat, h: nat, hi: nat)
    requires h > 0 && h % 4 == 0 && Tiles(s, h, 0, hi) && k < |s| && n <= s[k].size
    ensures Tiles(Carve(s, k, n, h), h, 0, hi)
  {
    var p := Pieces(s[k], n, h);
    var m0 := TilesCut(s, k, h, 0, hi);
    var m1 := TilesCut(s, k + 1, h, 0, hi);
    if Splits(s[k], n, h) {
      assert p[1..] == [p[1]] && p[1..][1..] == [];
      assert Tiles(p[1..], h, End(p[0], h), m1);
    } else {
      assert p[1..] == [];
    }
    assert Tiles(p, h, m0, m1);
    TilesAppend(s[..k], p, h, 0, m0, m1);
    TilesAppend(s[..k] + p, s[k+1..], h, 0, m1, hi);
  }

  /** What carving does to the chosen block: it is left whole if at most a header and four
      bytes would remain, and cut into the n bytes asked for and a free remainder otherwise. */
  lemma {:induction false} CarveWholeOrCut(s: Layout, k: nat, n: nat, h: nat)
    requires k < |s| && n <= s[k].size
    ensures s[k].size <= n + h + 4 ==> Carve(s, k, n, h) == s[k := s[k].(free := false)]
    ensures s[k].size > n + h + 4 ==>
      Carve(s, k, n, h) == s[..k] + [Block(s[k].addr, n, false), Block(s[k].addr + h + n, s[k].size - n - h, true)] + s[k+1..]
  {
  }

  /** Carving replaces one block by its pieces and leaves every other block in place. */
  lemma {:induction false} CarveMembers(s: Layout, k: nat, n: nat, h: nat, hi: nat)
    requires h > 0 && Tiles(s, h, 0, hi) && k < |s| && n <= s[k].size
    ensures forall b :: b in Carve(s, k, n, h) <==> b in Pieces(s[k], n, h) || (b in s && b != s[k])
    ensures forall b :: b in s && b != s[k] ==> b.addr != s[k].addr
    ensures forall b :: b in Pieces(s[k], n, h) ==>
              b == Pieces(s[k], n, h)[0] || (Splits(s[k], n, h) && b == Pieces(s[k], n, h)[1])
  {
    var p := Pieces(s[k], n, h);
    var t := Carve(s, k, n, h);
    forall b | b in s && b != s[k] ensures b in t && b.addr != s[k].addr {
      var j :| 0 <= j < |s| && s[j] == b;
      TilesDistinct(s, h, 0, hi, j, k);
      assert t[if j < k then j else j - 1 + |p|] == b;
    }
    forall b | b in p ensures b in t {
      var j :| 0 <= j < |p| && p[j] == b;
      assert t[k + j] == b;
    }
    forall b | b in t ensures b in p || (b in s && b != s[k]) {
      var j :| 0 <= j < |t| && t[j] == b;
      if j < k {
        assert b == s[j];
        TilesDistinct(s, h, 0, hi, j, k);
      } else if j < k + |p| {
        assert b == p[j - k];
      } else {
        assert b == s[j + 1 - |p|];
        TilesDistinct(s, h, 0, hi, j + 1 - |p|, k);
      }
    }
  }

  /** Carving adds exactly the returned block to the live set and takes at most the
      slack of an unsplit block beyond what was asked for. */
  lemma {:induction false} CarveLive(s: Layout, k: nat, n: nat, h: nat, hi: nat)
    requires h > 0 && Tiles(s, h, 0, hi) && k < |s| && Fits(s[k], n)
    ensures var b := Pieces(s[k], n, h)[0];
            && b !in Live(s)
            && Live(Carve(s, k, n, h)) == Live(s) + {b}
            && !b.free && b.addr == s[k].addr && n <= b.size <= n + h + 4
  {
    CarveMembers(s, k, n, h, hi);
    assert Pieces(s[k], n, h)[0] in Pieces(s[k], n, h);
  }

  // ---------------------------------------------------------------- coalescing

  lemma {:induction false} CoalesceTiles(s: Layout, h: nat, lo: nat, hi: nat)
    requires Tiles(s, h, lo, hi)
    ensures Tiles(Coalesce(s, h), h, lo, hi)
    decreases |s|
  {
    if |s| >= 2 {
      if s[0].free && s[1].free {
        var t := [Join(s[0], s[1], h)] + s[2..];
        assert s[1..][1..] == s[2..] == t[1..];
        CoalesceTiles(t, h, lo, hi);
      } else {
        CoalesceTiles(s[1..], h, End(s[0], h), hi);
        assert Coalesce(s, h)[1..] == Coalesce(s[1..], h);
      }
    }
  }

  lemma {:induction false} CoalesceNoAdjacent(s: Layout, h: nat)
    ensures NoAdjacentFree(Coalesce(s, h))
    ensures s != [] ==> Coalesce(s, h) != [] && Coalesce(s, h)[0].free == s[0].free
    decreases |s|
  {
    if |s| >= 2 {
      if s[0].free && s[1].free {
        CoalesceNoAdjacent([Join(s[0], s[1], h)] + s[2..], h);
      } else {
        CoalesceNoAdjacent(s[1..], h);
        var t := Coalesce(s, h);
        forall i | 0 < i < |t| ensures !(t[i-1].free && t[i].free) {
          assert t[i] == Coalesce(s[1..], h)[i-1];
          if i > 1 { assert t[i-1] == Coalesce(s[1..], h)[i-2]; }
        }
      }
    }
  }

  lemma {:induction false} LiveCons(b: Block, s: Layout)
    ensures Live([b] + s) == (if b.free then {} else {b}) + Live(s)
  {
    assert forall c :: c in [b] + s <==> c == b || c in s;
  }

  lemma {:induction false} CoalesceLive(s: Layout, h: nat)
    requires h % 4 == 0
    ensures Live(Coalesce(s, h)) == Live(s)
    ensures Aligned(s) ==> Aligned(Coalesce(s, h))
    decreases |s|
  {
    if |s| >= 2 {
      if s[0].free && s[1].free {
        var j := Join(s[0], s[1], h);
        var t := [j] + s[2..];
        CoalesceLive(t, h);
        assert s == [s[0], s[1]] + s[2..];
        forall b | b in t ensures b == j || b in s { }
        forall b | b in s ensures b == s[0] || b == s[1] || b in t { }
        assert Live(t) == Live(s);
        if Aligned(s) {
          assert s[0] in s && s[1] in s;
          assert Aligned(t);
        }
      } else {
        CoalesceLive(s[1..], h);
        LiveCons(s[0], s[1..]);
        LiveCons(s[0], Coalesce(s[1..], h));
        assert s == [s[0]] + s[1..];
      }
    }
  }

  lemma {:induction false} InitialCoalesced(h: nat, hi: nat)
    requires h <= hi && (hi - h) % 4 == 0
    ensures Coalesced([Block(0, hi - h, true)], h, hi)
    ensures Live([Block(0, hi - h, true)]) == {}
  {
    var s := [Block(0, hi - h, true)];
    assert s[1..] == [];
    assert Tiles(s[1..], h, End(s[0], h), hi);
  }

  lemma {:induction false} CoalesceKeeps(s: Layout, h: nat, hi: nat)
    requires h % 4 == 0 && s != [] && Tiles(s, h, 0, hi) && Aligned(s)
    ensures Coalesced(Coalesce(s, h), h, hi)
    ensures Live(Coalesce(s, h)) == Live(s)
  {
    CoalesceTiles(s, h, 0, hi);
    CoalesceNoAdjacent(s, h);
    CoalesceLive(s, h);
  }

  /** Freeing block k and sweeping re-establishes everything and removes exactly that
      block from the live set. */
  lemma {:induction false} FreeKeeps(s: Layout, k: nat, h: nat, hi: nat)
    requires h > 0 && h % 4 == 0 && s != [] && Tiles(s, h, 0, hi) && Aligned(s)
    requires k < |s| && !s[k].free
    ensures Tiles(Release(s, k), h, 0, hi) && Aligned(Release(s, k))
    ensures Live(Release(s, k)) == Live(s) - {s[k]}
    ensures Coalesced(Coalesce(Release(s, k), h), h, hi)
    ensures Live(Coalesce(Release(s, k), h)) == Live(s) - {s[k]}
  {
    var t := Release(s, k);
    ReleaseTiles(s, k, h, 0, hi);
    assert s[k] in s;
    forall b | b in t ensures b.size % 4 == 0 {
      var i :| 0 <= i < |t| && t[i] == b;
      assert s[i] in s && s[i].size == b.size;
    }
    forall b | b in Live(t) ensures b in Live(s) - {s[k]} {
      var i :| 0 <= i < |t| && t[i] == b;
      if b == s[k] { TilesDistinct(t, h, 0, hi, i, k); }
    }
    forall b | b in Live(s) - {s[k]} ensures b in Live(t) {
      var i :| 0 <= i < |s| && s[i] == b;
      assert t[i] == b;
    }
    CoalesceKeeps(t, h, hi);
  }

  lemma {:induction false} ReleaseTiles(s: Layout, k: nat, h: nat, lo: nat, hi: nat)
    requires k < |s| && Tiles(s, h, lo, hi)
    ensures Tiles(Release(s, k), h, lo, hi)
  {
    if k == 0 {
      assert Release(s, k)[1..] == s[1..];
    } else {
      ReleaseTiles(s[1..], k - 1, h, End(s[0], h), hi);
      assert Release(s, k)[1..] == Release(s[1..], k - 1);
    }
  }

  // ---------------------------------------------------------------- canonicity

  /** A coalesced layout is determined by its live blocks alone. */
  lemma {:induction false} CoalescedUnique(s: Layout, t: Layout, h: nat, lo: nat, hi: nat)
    requires h > 0 && Tiles(s, h, lo, hi) && Tiles(t, h, lo, hi)
    requires NoAdjacentFree(s) && NoAdjacentFree(t)
    requires Live(s) == Live(t)
    ensures s == t
    decreases |s|
  {
    if s == [] {
      if t != [] { TilesSpan(t[1..], h, End(t[0], h), hi); }
    } else if t == [] {
      TilesSpan(s[1..], h, End(s[0], h), hi);
    } else {
      HeadsAgree(s, t, h, lo, hi);
      LiveTail(s, h, lo, hi);
      LiveTail(t, h, lo, hi);
      NoAdjacentTail(s);
      NoAdjacentTail(t);
      CoalescedUnique(s[1..], t[1..], h, End(s[0], h), hi);
      assert s == [s[0]] + s[1..] && t == [t[0]] + t[1..];
    }
  }

  lemma {:induction false} NoAdjacentTail(s: Layout)
    requires s != [] && NoAdjacentFree(s)
    ensures NoAdjacentFree(s[1..])
  {
    forall i | 0 < i < |s[1..]| ensures !(s[1..][i-1].free && s[1..][i].free) {
      assert s[1..][i] == s[i+1] && s[1..][i-1] == s[i];
    }
  }

  lemma {:induction false} LiveTail(s: Layout, h: nat, lo: nat, hi: nat)
    requires h > 0 && s != [] && Tiles(s, h, lo, hi)
    ensures Live(s[1..]) == Live(s) - {s[0]}
  {
    TilesSpan(s[1..], h, End(s[0], h), hi);
    assert s == [s[0]] + s[1..];
    assert forall b :: b in s[1..] ==> b != s[0];
  }

  // The first allocated block of a coalesced layout is its first or second block.
  lemma {:induction false} FirstLive(s: Layout, h: nat, lo: nat, hi: nat)
    requires h > 0 && s != [] && Tiles(s, h, lo, hi) && NoAdjacentFree(s)
    ensures !s[0].free ==> s[0] in Live(s)
    ensures s[0].free && |s| > 1 ==> s[1] in Live(s)
    ensures forall b :: b in Live(s) ==> lo <= b.addr
    ensures s[0].free && |s| > 1 ==> forall b :: b in Live(s) ==> s[1].addr <= b.addr
    ensures s[0].free && |s| == 1 ==> Live(s) == {}
    ensures s[0].free && |s| > 1 ==> lo < s[1].addr == End(s[0], h)
    ensures s[0].free ==> forall b :: b in Live(s) ==> lo < b.addr
  {
    TilesSpan(s, h, lo, hi);
    if s[0].free && |s| > 1 {
      assert s[1..][0] == s[1];
      TilesSpan(s[1..], h, End(s[0], h), hi);
      assert s == [s[0]] + s[1..];
    }
  }

  lemma {:induction false} HeadsAgree(s: Layout, t: Layout, h: nat, lo: nat, hi: nat)
    requires h > 0 && s != [] && t != [] && Tiles(s, h, lo, hi) && Tiles(t, h, lo, hi)
    requires NoAdjacentFree(s) && NoAdjacentFree(t)
    requires Live(s) == Live(t)
    ensures s[0] == t[0]
  {
    FirstLive(s, h, lo, hi);
    FirstLive(t, h, lo, hi);
    if !s[0].free && !t[0].free {
      var j :| 0 <= j < |t| && t[j] == s[0];
      TilesDistinct(t, h, lo, hi, 0, j);
    } else {
      assert s[0].free && t[0].free;
      TilesNext(s, 0, h, lo, hi);
      TilesNext(t, 0, h, lo, hi);
      assert |s| > 1 <==> |t| > 1;
    }
  }

  /** Allocating and then freeing the result gives back the identical block sequence. */
  lemma {:induction false} CarveThenFreeRestores(s: Layout, k: nat, n: nat, h: nat, hi: nat)
    requires h > 0 && h % 4 == 0 && n % 4 == 0 && Coalesced(s, h, hi)
    requires k < |s| && Fits(s[k], n)
    ensures !Carve(s, k, n, h)[k].free && Carve(s, k, n, h)[k].addr == s[k].addr
    ensures Coalesce(Release(Carve(s, k, n, h), k), h) == s
  {
    var t := Carve(s, k, n, h);
    CarveKeeps(s, k, n, h, hi);
    CarveLive(s, k, n, h, hi);
    assert t[k] == Pieces(s[k], n, h)[0];
    FreeKeeps(t, k, h, hi);
    CoalescedUnique(Coalesce(Release(t, k), h), s, h, 0, hi);
  }

  // ---------------------------------------------------------------- freeing in any order

  // The index of the block that starts at `a`, or |s|.
  function IndexAt(s: Layout, a: nat): (k: nat)
    ensures k <= |s|
    ensures k < |s| ==> s[k].addr == a
    ensures k == |s| ==> forall b :: b in s ==> b.addr != a
  {
    if s == [] then 0 else if s[0].addr == a then 0 else 1 + IndexAt(s[1..], a)
  }

  ghost predicate IsLive(s: Layout, a: nat) {
    var k := IndexAt(s, a);
    k < |s| && !s[k].free
  }

  /** free() of the block whose header is at `a`. */
  function FreeAt(s: Layout, a: nat, h: nat): Layout
    requires IsLive(s, a)
  {
    Coalesce(Release(s, IndexAt(s, a)), h)
  }

  // A legal order of frees: each names a block that is still live.
  ghost predicate FreeableInOrder(s: Layout, order: seq<nat>, h: nat)
    decreases |order|
  {
    order == [] || (IsLive(s, order[0]) && FreeableInOrder(FreeAt(s, order[0], h), order[1..], h))
  }

  ghost function FreeAll(s: Layout, order: seq<nat>, h: nat): Layout
    requires FreeableInOrder(s, order, h)
    decreases |order|
  {
    if order == [] then s else FreeAll(FreeAt(s, order[0], h), order[1..], h)
  }

  ghost function LiveAddrs(s: Layout): set<nat> {
    set b | b in Live(s) :: b.addr
  }

  lemma {:induction false} IndexAtTiled(s: Layout, h: nat, hi: nat, k: nat)
    requires h > 0 && Tiles(s, h, 0, hi) && k < |s|
    ensures IndexAt(s, s[k].addr) == k
  {
    assert s[k] in s;
    TilesDistinct(s, h, 0, hi, IndexAt(s, s[k].addr), k);
  }

  lemma {:induction false} FreeAtKeeps(s: Layout, a: nat, h: nat, hi: nat)
    requires h > 0 && h % 4 == 0 && Coalesced(s, h, hi) && IsLive(s, a)
    ensures Coalesced(FreeAt(s, a, h), h, hi)
    ensures LiveAddrs(FreeAt(s, a, h)) == LiveAddrs(s) - {a}
  {
    var k := IndexAt(s, a);
    FreeKeeps(s, k, h, hi);
    forall b | b in Live(s) && b.addr == a ensures b == s[k] {
      var j :| 0 <= j < |s| && s[j] == b;
      TilesDistinct(s, h, 0, hi, j, k);
    }
  }

  /** Any enumeration of the live blocks, in any order, is a legal order of frees, and
      afterwards the pool is the single free block it started as. */
  lemma {:induction false} FreeAllRestoresInitial(s: Layout, order: seq<nat>, h: nat, hi: nat)
    requires h > 0 && h % 4 == 0 && Coalesced(s, h, hi)
    requires Distinct(order) && LiveAddrs(s) == set a | a in order
    ensures FreeableInOrder(s, order, h)
    ensures h <= hi && FreeAll(s, order, h) == [Block(0, hi - h, true)]
    decreases |order|
  {
    TilesSpan(s, h, 0, hi);
    assert s[0] in s;
    if order == [] {
      assert forall b :: b in Live(s) ==> b.addr in LiveAddrs(s);
      var t := [Block(0, hi - h, true)];
      assert t[1..] == [];
      CoalescedUnique(s, t, h, 0, hi);
    } else {
      assert order[0] in order && order[0] in LiveAddrs(s);
      var b :| b in Live(s) && b.addr == order[0];
      var i :| 0 <= i < |s| && s[i] == b;
      IndexAtTiled(s, h, hi, i);
      FreeAtKeeps(s, order[0], h, hi);
      var rest := order[1..];
      assert order == [order[0]] + rest;
      FreeAllRestoresInitial(FreeAt(s, order[0], h), rest, h, hi);
    }
  }
}
