/**
 Doubly linked free lists threaded through block headers, as the explicit free list and
 the segregated bins use them. `Linked(f, head, m)` says that following `next` from
 `head` visits exactly the blocks of `f`, that `prev` is its inverse and that the head
 has no predecessor.
 */
module FreeLinks {
  import opened HeapLayout
  import opened HeapMemory
  import opened Lists

  datatype Node = Node(size: nat, free: bool, next: Ptr, prev: Ptr)

  type Nodes = map<nat, Node>

  // The (size, free) part of every header.
  ghost function Sizes(m: Nodes): Headers {
    map a | a in m :: Header(m[a].size, m[a].free)
  }

  function Here(f: seq<nat>, i: int): Ptr {
    if 0 <= i < |f| then At(f[i]) else Null
  }

  // The blocks of f are linked in order, and the first has `before` as its predecessor.
  ghost predicate Chain(f: seq<nat>, before: Ptr, m: Nodes) {
    f == [] || (
      && f[0] in m
      && m[f[0]].prev == before
      && m[f[0]].next == Here(f, 1)
      && Chain(f[1..], At(f[0]), m)
    )
  }

  ghost predicate Linked(f: seq<nat>, head: Ptr, m: Nodes) {
    Distinct(f) && head == Here(f, 0) && Chain(f, Null, m)
  }

  lemma {:induction false} ChainFrame(f: seq<nat>, before: Ptr, m: Nodes, m': Nodes)
    requires Chain(f, before, m)
    requires forall x :: x in f && x in m ==> x in m' && m'[x].next == m[x].next && m'[x].prev == m[x].prev
    ensures Chain(f, before, m')
  {
    if f != [] {
      assert f[0] in f;
      assert forall x :: x in f[1..] ==> x in f;
      ChainFrame(f[1..], At(f[0]), m, m');
    }
  }

  lemma {:induction false} ChainAt(f: seq<nat>, before: Ptr, m: Nodes, i: nat)
    requires Chain(f, before, m) && i < |f|
    ensures f[i] in m && m[f[i]].next == Here(f, i + 1)
    ensures m[f[i]].prev == if i == 0 then before else At(f[i-1])
  {
    if i > 0 {
      ChainAt(f[1..], At(f[0]), m, i - 1);
      assert f[1..][i-1] == f[i];
      assert Here(f[1..], i) == Here(f, i + 1);
      assert i > 1 ==> f[1..][i-2] == f[i-1];
    }
  }

  /** m' is m after block `a` was put in front of the list that starts at `head`. */
  ghost predicate Pushed(m: Nodes, head: Ptr, a: nat, m': Nodes) {
    && m'.Keys == m.Keys
    && forall x :: x in m ==> m'[x] == if x == a then m[x].(next := head, prev := Null)
                                       else if head == At(x) then m[x].(prev := At(a))
                                       else m[x]
  }

  ghost predicate NeighboursInMemory(m: Nodes, a: nat) {
    && a in m
    && (m[a].prev != Null ==> m[a].prev.addr in m)
    && (m[a].next != Null ==> m[a].next.addr in m)
    && m[a].prev != At(a) && m[a].next != At(a)
    && (m[a].prev == m[a].next ==> m[a].prev == Null)
  }

  /** m' is m after the neighbours of block `a` were linked to each other. */
  ghost predicate Unlinked(m: Nodes, a: nat, m': Nodes)
    requires a in m
  {
    && m'.Keys == m.Keys
    && forall x :: x in m ==> m'[x] == if m[a].prev == At(x) then m[x].(next := m[a].next)
                                       else if m[a].next == At(x) then m[x].(prev := m[a].prev)
                                       else m[x]
  }

  // Pushing and unlinking write only links.
  lemma {:induction false} SameSizes(m: Nodes, m': Nodes)
    requires m'.Keys == m.Keys
    requires forall x :: x in m ==> m'[x].size == m[x].size && m'[x].free == m[x].free
    ensures Sizes(m') == Sizes(m)
  {
  }

  lemma {:induction false} PushKeeps(f: seq<nat>, head: Ptr, m: Nodes, a: nat, m': Nodes)
    requires Linked(f, head, m) && a in m && a !in f && Pushed(m, head, a, m')
    ensures Linked([a] + f, At(a), m')
    ensures Sizes(m') == Sizes(m)
    ensures forall x :: x in m && x !in [a] + f ==> m'[x] == m[x]
  {
    var g := [a] + f;
    assert g[1..] == f;
    DistinctCons(a, f);
    SameSizes(m, m');
    if f != [] {
      assert f[0] in f;
      assert forall x :: x in f[1..] ==> x in f && x != f[0];
      ChainFrame(f[1..], At(f[0]), m, m');
    }
  }

  lemma {:induction false} PushReads(f: seq<nat>, head: Ptr, m: Nodes)
    requires Linked(f, head, m)
    ensures head != Null ==> head.addr in m && head.addr in f
  {
    if f != [] { assert f[0] in f; }
  }

  lemma {:induction false} UnlinkReads(f: seq<nat>, head: Ptr, m: Nodes, i: nat)
    requires Linked(f, head, m) && i < |f|
    ensures NeighboursInMemory(m, f[i])
    ensures m[f[i]].next == Here(f, i + 1) && m[f[i]].prev == Here(f, i - 1)
    ensures head == At(f[i]) <==> i == 0
  {
    ChainAt(f, Null, m, i);
    DistinctIndices(f, 0, i);
    if i + 1 < |f| {
      ChainAt(f, Null, m, i + 1);
      DistinctIndices(f, i, i + 1);
    }
    if i > 0 {
      ChainAt(f, Null, m, i - 1);
      DistinctIndices(f, i - 1, i);
      if i + 1 < |f| { DistinctIndices(f, i - 1, i + 1); }
    }
  }

  /** Unlinking any element, first, middle or last, leaves the list without it. */
  lemma {:induction false} UnlinkKeeps(f: seq<nat>, head: Ptr, m: Nodes, i: nat, m': Nodes)
    requires Linked(f, head, m) && i < |f| && f[i] in m && Unlinked(m, f[i], m')
    ensures Linked(RemoveAt(f, i), if head == At(f[i]) then m[f[i]].next else head, m')
    ensures Sizes(m') == Sizes(m)
    ensures forall x :: x in m && x !in f ==> m'[x] == m[x]
  {
    UnlinkReads(f, head, m, i);
    DistinctRemove(f, i);
    SameSizes(m, m');
    ChainUnlink(f, Null, m, i, m');
    if i > 0 { assert f[i-1] in f; }
    if i + 1 < |f| { assert f[i+1] in f; }
    assert i == 0 ==> RemoveAt(f, i) == f[1..];
  }

  lemma {:induction false} ChainUnlink(f: seq<nat>, before: Ptr, m: Nodes, i: nat, m': Nodes)
    requires Distinct(f) && Chain(f, before, m) && i < |f| && f[i] in m && Unlinked(m, f[i], m')
    requires forall x :: x in f ==> before != At(x)
    ensures Chain(RemoveAt(f, i), before, m')
  {
    var g := RemoveAt(f, i);
    ChainAt(f, before, m, i);
    if i == 0 {
      assert g == f[1..];
      if |f| > 1 {
        assert f[1..][0] == f[1] && f[1] in f;
        assert forall x :: x in f[2..] ==> x in f[1..][1..] && x in f && x in f[1..];
        assert f[1..][1..] == f[2..];
        ChainFrame(f[2..], At(f[1]), m, m');
      }
    } else {
      assert f[1..][i-1] == f[i];
      ChainUnlink(f[1..], At(f[0]), m, i - 1, m');
      assert g[1..] == RemoveAt(f[1..], i - 1);
      assert f[0] in f;
      DistinctIndices(f, 0, i);
      if i + 1 < |f| { DistinctIndices(f, 0, i + 1); }
      DistinctIndices(f, 0, i - 1);
    }
  }

  // A store that leaves the links of listed blocks alone keeps the list.
  lemma {:induction false} StoreKeeps(f: seq<nat>, head: Ptr, m: Nodes, a: nat, node: Node)
    requires Linked(f, head, m)
    requires a in f && a in m ==> node.next == m[a].next && node.prev == m[a].prev
    ensures Linked(f, head, m[a := node])
    ensures Sizes(m[a := node]) == Sizes(m)[a := Header(node.size, node.free)]
  {
    ChainFrame(f, Null, m, m[a := node]);
  }

  // ---------------------------------------------------------------- searching a list

  // The position in list order of the first block that fits, or |f|.
  ghost function ListFit(f: seq<nat>, s: Layout, n: nat): (j: nat)
    ensures j <= |f|
    ensures forall i :: 0 <= i < j ==> IndexAt(s, f[i]) == |s| || !Fits(s[IndexAt(s, f[i])], n)
    ensures j < |f| ==> IndexAt(s, f[j]) < |s| && Fits(s[IndexAt(s, f[j])], n)
  {
    if f == [] then 0
    else if IndexAt(s, f[0]) < |s| && Fits(s[IndexAt(s, f[0])], n) then 0
    else 1 + ListFit(f[1..], s, n)
  }
}
