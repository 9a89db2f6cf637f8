/** What the slab pool's invariant gives for whole runs. */
module SlabPoolRuns {
  import opened Lists
  import opened SlabPool
  import opened SlabPoolSafety

  datatype Act = Act(t: nat, e: Event)

  // A run from the empty pool: any threads, any interleaving.
  ghost predicate IsRun(protect: bool, ss: seq<State>, acts: seq<Act>) {
    |ss| == |acts| + 1 && ss[0] == INITIAL && forall i :: 0 <= i < |acts| ==> StepAt(protect, ss, acts, i)
  }

  ghost predicate StepAt(protect: bool, ss: seq<State>, acts: seq<Act>, i: nat)
    requires i < |acts| == |ss| - 1
  {
    Step(protect, ss[i], acts[i].t, acts[i].e, ss[i+1])
  }

  // ---------------------------------------------------------------- safety of every run

  lemma {:induction false} InitialInv(protect: bool)
    ensures Inv(protect, INITIAL, View([], [[], [], [], [], [], [], [], [], [], [], []], map[]))
  {
  }

  /** Every state of every run has a view that satisfies the invariant: every block
      is in exactly one place and the lists are linked exactly as the view says. */
  lemma {:induction false} EveryStateSafe(protect: bool, ss: seq<State>, acts: seq<Act>, i: nat) returns (v: View)
    requires IsRun(protect, ss, acts) && i < |ss|
    ensures Inv(protect, ss[i], v)
    decreases i
  {
    if i == 0 {
      InitialInv(protect);
      v := View([], [[], [], [], [], [], [], [], [], [], [], []], map[]);
    } else {
      var w := EveryStateSafe(protect, ss, acts, i - 1);
      assert StepAt(protect, ss, acts, i - 1);
      v := EveryStepKeeps(protect, ss[i-1], w, acts[i-1].t, acts[i-1].e, ss[i]);
    }
  }

  /** Two lists never share a block, no listed block is private to a thread, no two threads
      have the same block in hand, and no owned block is nowhere. */
  lemma {:induction false} ExactlyOnePlace(protect: bool, s: State, v: View, b: nat)
    requires Inv(protect, s, v) && b in s.hdr
    ensures forall i :: 0 <= i < CLASSES ==> !(b in v.active && b in v.free[i])
    ensures forall i, j :: 0 <= i < CLASSES && 0 <= j < CLASSES && b in v.free[i] && b in v.free[j] ==> i == j
    ensures forall t, u :: Private(Pc(s, t)) == At(b) && Private(Pc(s, u)) == At(b) ==> t == u
    ensures forall t :: Private(Pc(s, t)) == At(b) ==> b !in v.active && forall i :: 0 <= i < CLASSES ==> b !in v.free[i]
    ensures forall t :: Claimed(Pc(s, t)) == At(b) ==> b in v.active && b !in s.live
    ensures forall t, u :: Claimed(Pc(s, t)) == At(b) && Claimed(Pc(s, u)) == At(b) ==> t == u
    ensures b in v.active || (exists i :: 0 <= i < CLASSES && b in v.free[i]) || (exists t :: Private(Pc(s, t)) == At(b))
  {
    forall t
      ensures Private(Pc(s, t)) == At(b) ==> v.place[b] == Transit(t)
      ensures Claimed(Pc(s, t)) == At(b) ==> v.place[b] == Active(By(t))
    {
      HandPlace(protect, s, v, t, b);
    }
    ListPlace(protect, s, v, b);
  }

  lemma {:induction false} HandPlace(protect: bool, s: State, v: View, t: nat, b: nat)
    requires |s.slabs| == CLASSES && ThreadOk(protect, s, v, t) && b in v.place
    ensures Private(Pc(s, t)) == At(b) ==> v.place[b] == Transit(t)
    ensures Claimed(Pc(s, t)) == At(b) ==> v.place[b] == Active(By(t))
  {
  }

  lemma {:induction false} ListPlace(protect: bool, s: State, v: View, b: nat)
    requires ListsOk(s, v) && b in v.place && b in s.hdr && BlockOk(protect, s, v, b)
    ensures b in v.active <==> v.place[b].Active?
    ensures forall i :: 0 <= i < CLASSES ==> (b in v.free[i] <==> v.place[b] == FreeOf(i))
    ensures b in v.active || (exists i :: 0 <= i < CLASSES && b in v.free[i]) || (exists t :: Private(Pc(s, t)) == At(b))
  {
    match v.place[b]
    case Active(_) =>
    case FreeOf(i) => assert b in v.free[i];
    case Transit(t) => assert Private(Pc(s, t)) == At(b);
  }

  /** When alloc returns, the block was in no client's hands, it is large enough for the
      request, and its payload lies within the memory behind it. */
  lemma {:induction false} HandedOutOnce(protect: bool, s: State, v: View, t: nat)
    requires Inv(protect, s, v) && Pc(s, t).ActiveUnlock?
    ensures var b := Pc(s, t).b;
            && b in s.hdr && b !in s.live
            && Exec(protect, s, t, Null).live == s.live + {b}
            && Pc(s, t).n <= s.hdr[b].size <= s.hdr[b].cap
  {
    assert ThreadOk(protect, s, v, t);
  }

  /** A block on the free list of class i has that class's size and capacity. */
  lemma {:induction false} ClassPurity(protect: bool, s: State, v: View, i: nat, b: nat)
    requires Inv(protect, s, v) && i < CLASSES && b in v.free[i]
    ensures b in s.hdr && s.hdr[b].size == s.hdr[b].cap == BlockSize(i)
  {
    PlacedFree(s, v, i, b);
    assert BlockOk(protect, s, v, b);
  }

  lemma {:induction false} PlacedFree(s: State, v: View, i: nat, b: nat)
    requires ListsOk(s, v) && i < CLASSES && b in v.free[i]
    ensures b in v.place && v.place[b] == FreeOf(i)
  {
  }

  /** The capacity of a block never changes while the pool owns it. With class purity: a
      block only ever returns to the class it was drawn from. */
  lemma {:induction false} CapacityFixed(protect: bool, s: State, v: View, t: nat, e: Event, s': State, b: nat)
    requires Inv(protect, s, v) && Step(protect, s, t, e, s') && b in s.hdr && b in s'.hdr
    ensures s'.hdr[b].cap == s.hdr[b].cap
    ensures Pc(s, t).PushPublish? && e.Run? ==> Pc(s, t).b in s.hdr && s.hdr[Pc(s, t).b].cap == BlockSize(Pc(s, t).i)
  {
    if e.Run? { ExecCapacity(protect, s, t, e.raw, b); }
    if Pc(s, t).PushPublish? { PushedCapacity(protect, s, v, t); }
  }

  // No statement changes the capacity of a block that exists before and after it.
  lemma {:induction false} ExecCapacity(protect: bool, s: State, t: nat, raw: Ptr, b: nat)
    requires |s.slabs| == |s.locks| == CLASSES && CanRun(s, t) && (raw.At? ==> raw.addr !in s.hdr)
    requires b in s.hdr && b in Exec(protect, s, t, raw).hdr
    ensures Exec(protect, s, t, raw).hdr[b].cap == s.hdr[b].cap
  {
    if Pc(s, t).Walk? {
      LinkCapacity(s, Pc(s, t).at, s.hdr[b].next, b);
    }
  }

  lemma {:induction false} LinkCapacity(s: State, l: Link, p: Ptr, b: nat)
    requires b in s.hdr
    ensures b in WriteLink(s, l, p).hdr && WriteLink(s, l, p).hdr[b].cap == s.hdr[b].cap
  {
  }

  // Block b belongs to the pool in all states from i to j.
  ghost predicate OwnedThroughout(ss: seq<State>, b: nat, i: nat, j: nat)
    decreases j
  {
    i <= j < |ss| && b in ss[j].hdr && (i < j ==> OwnedThroughout(ss, b, i, j - 1))
  }

  lemma {:induction false} CapacityOverRun(protect: bool, ss: seq<State>, acts: seq<Act>, b: nat, i: nat, j: nat)
    requires IsRun(protect, ss, acts) && OwnedThroughout(ss, b, i, j)
    ensures b in ss[i].hdr && ss[j].hdr[b].cap == ss[i].hdr[b].cap
    decreases j
  {
    if i < j {
      CapacityOverRun(protect, ss, acts, b, i, j - 1);
      var v := EveryStateSafe(protect, ss, acts, j - 1);
      assert StepAt(protect, ss, acts, j - 1);
      CapacityFixed(protect, ss[j-1], v, acts[j-1].t, acts[j-1].e, ss[j], b);
    }
  }

  /** A block that a thread has popped from class c and that is later pushed, by any thread,
      without having left the pool in between, goes back to class c. */
  lemma {:induction false} ReturnsToItsClass(protect: bool, ss: seq<State>, acts: seq<Act>, b: nat, i: nat, j: nat, t: nat, u: nat)
    requires IsRun(protect, ss, acts) && OwnedThroughout(ss, b, i, j)
    requires Pc(ss[i], t).PopUnlock? && Pc(ss[i], t).got == At(b)
    requires Pc(ss[j], u).PushPublish? && Pc(ss[j], u).b == b
    ensures Pc(ss[j], u).i == Pc(ss[i], t).i
  {
    var v := EveryStateSafe(protect, ss, acts, i);
    var w := EveryStateSafe(protect, ss, acts, j);
    CapacityOverRun(protect, ss, acts, b, i, j);
    PoppedCapacity(protect, ss[i], v, t);
    PushedCapacity(protect, ss[j], w, u);
    SizesInjective(Pc(ss[i], t).i, Pc(ss[j], u).i);
  }

  lemma {:induction false} PoppedCapacity(protect: bool, s: State, v: View, t: nat)
    requires Inv(protect, s, v) && Pc(s, t).PopUnlock? && Pc(s, t).got.At?
    ensures var b := Pc(s, t).got.addr; b in s.hdr && s.hdr[b].cap == BlockSize(Pc(s, t).i)
  {
    assert ThreadOk(protect, s, v, t);
  }

  lemma {:induction false} PushedCapacity(protect: bool, s: State, v: View, t: nat)
    requires Inv(protect, s, v) && Pc(s, t).PushPublish?
    ensures var b := Pc(s, t).b; b in s.hdr && s.hdr[b].cap == BlockSize(Pc(s, t).i)
  {
    assert ThreadOk(protect, s, v, t);
  }

  lemma {:induction false} SizesInjective(i: nat, j: nat)
    requires BlockSize(i) == BlockSize(j)
    ensures i == j
  {
    MonotoneSizes(0, i);
    if i < j { MonotoneSizes(i, j); }
    if j < i { MonotoneSizes(j, i); }
  }

  /** No deadlock: while any thread is busy, some thread can execute its next statement. */
  lemma {:induction false} SomeThreadCanRun(protect: bool, s: State, v: View, t: nat) returns (u: nat)
    requires Inv(protect, s, v) && !Pc(s, t).Idle?
    ensures CanRun(s, u)
  {
    assert ThreadOk(protect, s, v, t);
    if CanRun(s, t) {
      u := t;
    } else if Pc(s, t).ActiveLock? || Pc(s, t).FreeLock? {
      u := s.glb.tid;
      assert HoldsGlobal(Pc(s, u));
    } else {
      u := s.locks[Pc(s, t).i].tid;
      assert HoldsClass(Pc(s, u), Pc(s, t).i);
    }
  }

  /** In every state of every run, until an abort: an idle thread may start any allocation whose
      size does not wrap and free any block a client holds; a busy one can execute its next
      statement unless that takes a lock somebody holds; a client may write anywhere in a block
      it holds. */
  lemma {:induction false} WhoCanMove(protect: bool, ss: seq<State>, acts: seq<Act>, k: nat, t: nat, n: nat, b: nat, upto: nat, intact: bool)
    requires IsRun(protect, ss, acts) && k < |ss| && !ss[k].aborted
    ensures var s := ss[k];
      && ((exists s' :: Step(protect, s, t, StartAlloc(n), s')) <==>
            Pc(s, t).Idle? && Overhead(protect) + Actual(n) < SIZE_MAX_PLUS_ONE)
      && ((exists s' :: Step(protect, s, t, StartFree(b), s')) <==> Pc(s, t).Idle? && b in s.live)
      && ((exists s' :: Step(protect, s, t, Run(Null), s')) <==> !Pc(s, t).Idle? && !Waits(s, Pc(s, t)))
      && ((exists s' :: Step(protect, s, t, ClientWrite(b, upto, intact), s')) <==>
            b in s.live && b in s.hdr && upto <= s.hdr[b].size)
  {
    var s := ss[k];
    var v := EveryStateSafe(protect, ss, acts, k);
    assert ThreadOk(protect, s, v, t);
    Enabled(protect, s, t, n, b, upto, intact);
  }

  // The next statement takes a lock that somebody holds.
  predicate Waits(s: State, pc: PC) {
    match pc
    case PopLock(i, _) => i < |s.locks| && s.locks[i].Held?
    case PushLock(_, i) => i < |s.locks| && s.locks[i].Held?
    case ActiveLock(_, _) => s.glb.Held?
    case FreeLock(_) => s.glb.Held?
    case _ => false
  }

  lemma {:induction false} Enabled(protect: bool, s: State, t: nat, n: nat, b: nat, upto: nat, intact: bool)
    requires |s.slabs| == |s.locks| == CLASSES && !s.aborted
    requires Pc(s, t).PopLock? || Pc(s, t).PushLock? ==> Pc(s, t).i < CLASSES
    ensures (exists s' :: Step(protect, s, t, StartAlloc(n), s')) <==>
      Pc(s, t).Idle? && Overhead(protect) + Actual(n) < SIZE_MAX_PLUS_ONE
    ensures (exists s' :: Step(protect, s, t, StartFree(b), s')) <==> Pc(s, t).Idle? && b in s.live
    ensures (exists s' :: Step(protect, s, t, Run(Null), s')) <==> !Pc(s, t).Idle? && !Waits(s, Pc(s, t))
    ensures (exists s' :: Step(protect, s, t, ClientWrite(b, upto, intact), s')) <==>
      b in s.live && b in s.hdr && upto <= s.hdr[b].size
  {
    if Pc(s, t).Idle? {
      var s1 := Goto(s, t, if ClassOf(n) < CLASSES then PopLock(ClassOf(n), n) else Obtain(n, Null));
      if Overhead(protect) + Actual(n) < SIZE_MAX_PLUS_ONE { assert Step(protect, s, t, StartAlloc(n), s1); }
      if b in s.live { assert Step(protect, s, t, StartFree(b), Goto(s, t, FreeLock(b)).(live := s.live - {b})); }
    }
    if CanRun(s, t) { assert Step(protect, s, t, Run(Null), Exec(protect, s, t, Null)); }
    if b in s.live && b in s.hdr && upto <= s.hdr[b].size {
      assert Step(protect, s, t, ClientWrite(b, upto, intact), s.(hdr := s.hdr[b := Written(s.hdr[b], upto, intact)]));
    }
  }

  // ---------------------------------------------------------------- statistics and shutdown

  /** Whenever the global lock is free, no block on the active list is marked freed. */
  lemma {:induction false} ActiveUnfreed(protect: bool, s: State, v: View, b: nat)
    requires Inv(protect, s, v) && s.glb == Open && b in v.active
    ensures b in s.hdr && !s.hdr[b].freed
  {
    assert BlockOk(protect, s, v, b);
    match v.place[b].holder
    case Client =>
    case By(t) =>
      assert ThreadOk(protect, s, v, t);
      assert !HoldsGlobal(Pc(s, t));
  }

  ghost function Bytes(f: seq<nat>, hdr: map<nat, Header>): nat {
    if f == [] then 0 else Bytes(f[..|f|-1], hdr) + (if f[|f|-1] in hdr then hdr[f[|f|-1]].size else 0)
  }

  /** The statistics walk counts every active block; with no alloc or free in progress that
      is the number of blocks clients hold. */
  method DumpStats(ghost protect: bool, s: State, ghost v: View) returns (total: nat, bytes: nat)
    requires Inv(protect, s, v) && s.glb == Open
    ensures total == |v.active| && bytes == Bytes(v.active, s.hdr)
    ensures (forall t :: Claimed(Pc(s, t)) == Null) ==> total == |s.live|
  {
    total, bytes := 0, 0;
    var cur := s.active;
    ghost var k := 0;
    while cur.At?
      invariant k <= |v.active| && cur == if k < |v.active| then At(v.active[k]) else Null
      invariant total == k && bytes == Bytes(v.active[..k], s.hdr)
      decreases |v.active| - k
    {
      ChainAt(v.active, s.active, s.hdr, k);
      ActiveUnfreed(protect, s, v, v.active[k]);
      if !s.hdr[cur.addr].freed {
        total := total + 1;
        bytes := bytes + s.hdr[cur.addr].size;
      }
      assert v.active[..k+1][..k] == v.active[..k];
      cur := s.hdr[cur.addr].next;
      k := k + 1;
    }
    assert v.active[..k] == v.active;
    CountLive(protect, s, v);
  }

  lemma {:induction false} CountLive(protect: bool, s: State, v: View)
    requires Inv(protect, s, v)
    ensures (forall t :: Claimed(Pc(s, t)) == Null) ==> |v.active| == |s.live|
  {
    if forall t :: Claimed(Pc(s, t)) == Null {
      forall b ensures b in Elems(v.active) <==> b in s.live {
        if b in v.active { assert BlockOk(protect, s, v, b); }
      }
      assert Elems(v.active) == s.live;
      DistinctCard(v.active);
    }
  }

  lemma {:induction false} DistinctSnoc(f: seq<nat>, x: nat)
    requires Distinct(f) && x !in f
    ensures Distinct(f + [x])
  {
    if f == [] {
      assert (f + [x])[1..] == [];
    } else {
      DistinctSnoc(f[1..], x);
      assert (f + [x])[1..] == f[1..] + [x];
    }
  }

  /** Releases one list. A block's memory is gone once it is released, so its link has to
      be read before; afterwards exactly the blocks of the list are gone. */
  method ReleaseList(mem0: map<nat, Header>, head: Ptr, ghost f: seq<nat>, released0: seq<nat>)
    returns (released: seq<nat>, mem: map<nat, Header>)
    requires Chain(f, head, mem0) && Distinct(f) && Distinct(released0)
    requires forall b :: b in f ==> b !in released0
    ensures released == released0 + f && Distinct(released)
    ensures mem == mem0 - Elems(f)
  {
    released, mem := released0, mem0;
    var cur := head;
    ghost var k := 0;
    while cur.At?
      invariant k <= |f| && Chain(f[k..], cur, mem)
      invariant released == released0 + f[..k] && Distinct(released)
      invariant mem == mem0 - Elems(f[..k])
      decreases |f| - k
    {
      assert f[k..][0] == f[k] == cur.addr && f[k..][1..] == f[k+1..];
      ReleaseFacts(f, released0, k);
      var next := mem[cur.addr].next;
      ghost var before := mem;
      mem := mem - {cur.addr};
      released := released + [cur.addr];
      ChainFrame(f[k+1..], next, before, mem);
      cur := next;
      k := k + 1;
    }
    assert f[k..] == [] && f[..k] == f;
  }

  lemma {:induction false} ReleaseFacts(f: seq<nat>, released0: seq<nat>, k: nat)
    requires Distinct(f) && k < |f| && Distinct(released0 + f[..k]) && forall b :: b in f ==> b !in released0
    ensures Distinct(released0 + f[..k] + [f[k]]) && released0 + f[..k] + [f[k]] == released0 + f[..k+1]
    ensures f[k] !in f[k+1..] && Elems(f[..k+1]) == Elems(f[..k]) + {f[k]}
  {
    assert f[..k+1] == f[..k] + [f[k]];
    forall j | 0 <= j < |f| && j != k ensures f[j] != f[k] { DistinctIndices(f, j, k); }
    assert f[k] in f && f[k] !in released0 + f[..k];
    DistinctSnoc(released0 + f[..k], f[k]);
  }

  // The blocks of the first i free lists.
  ghost function FreeBelow(v: View, i: nat): set<nat> {
    set b | b in v.place && v.place[b].FreeOf? && v.place[b].class_ < i
  }

  // The first loop of destroy: the free lists, class by class.
  method ReleaseClasses(s: State, ghost v: View) returns (released: seq<nat>, mem: map<nat, Header>)
    requires ListsOk(s, v)
    ensures Distinct(released) && Elems(released) == FreeBelow(v, CLASSES)
    ensures mem == s.hdr - FreeBelow(v, CLASSES)
  {
    released, mem := [], s.hdr;
    for i := 0 to CLASSES
      invariant Distinct(released) && Elems(released) == FreeBelow(v, i)
      invariant mem == s.hdr - FreeBelow(v, i)
    {
      ghost var before := released;
      NextClass(s, v, i, mem, released);
      released, mem := ReleaseList(mem, s.slabs[i], v.free[i], released);
      assert Elems(before + v.free[i]) == Elems(before) + Elems(v.free[i]);
    }
  }

  lemma {:induction false} NextClass(s: State, v: View, i: nat, mem: map<nat, Header>, released: seq<nat>)
    requires ListsOk(s, v) && i < CLASSES && mem == s.hdr - FreeBelow(v, i) && Elems(released) == FreeBelow(v, i)
    ensures Chain(v.free[i], s.slabs[i], mem) && Distinct(v.free[i])
    ensures forall b :: b in v.free[i] ==> b !in released
    ensures FreeBelow(v, i + 1) == FreeBelow(v, i) + Elems(v.free[i])
  {
    assert Chain(v.free[i], s.slabs[i], s.hdr) && Distinct(v.free[i]);
    forall b | b in v.free[i] ensures b !in released && b !in FreeBelow(v, i) {
      assert b in released ==> b in Elems(released);
    }
    ChainFrame(v.free[i], s.slabs[i], s.hdr, mem);
  }

  /** Destroying the pool when no call is in progress returns every block the pool owns to
      the system exactly once, reads no block after that, and leaves nothing behind. */
  method Destroy(ghost protect: bool, s: State, ghost v: View) returns (released: seq<nat>, mem: map<nat, Header>)
    requires Inv(protect, s, v) && forall t :: Pc(s, t).Idle?
    ensures Distinct(released) && Elems(released) == s.hdr.Keys && mem == map[]
  {
    NothingInTransit(protect, s, v);
    released, mem := ReleaseClasses(s, v);
    ghost var before := released;
    ActiveAfterClasses(s, v, mem, released);
    released, mem := ReleaseList(mem, s.active, v.active, released);
    assert Elems(before + v.active) == Elems(before) + Elems(v.active);
  }

  lemma {:induction false} ActiveAfterClasses(s: State, v: View, mem: map<nat, Header>, released: seq<nat>)
    requires ListsOk(s, v) && mem == s.hdr - FreeBelow(v, CLASSES) && Elems(released) == FreeBelow(v, CLASSES)
    ensures Chain(v.active, s.active, mem) && forall b :: b in v.active ==> b !in released
  {
    forall b | b in v.active ensures b !in released && b !in FreeBelow(v, CLASSES) {
      assert b in released ==> b in Elems(released);
    }
    ChainFrame(v.active, s.active, s.hdr, mem);
  }

  lemma {:induction false} NothingInTransit(protect: bool, s: State, v: View)
    requires Inv(protect, s, v) && forall t :: Pc(s, t).Idle?
    ensures s.hdr.Keys == FreeBelow(v, CLASSES) + Elems(v.active)
  {
    forall b | b in v.place ensures b in v.active || b in FreeBelow(v, CLASSES) {
      assert BlockOk(protect, s, v, b);
    }
  }
}
