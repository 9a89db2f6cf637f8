/**
 The concurrent slab pool: eleven size classes, each with its own lock and free list, and
 one list of active blocks under a global lock. Both kinds of list are threaded through
 the same `next` field of the block header.

 The pool is a transition system over any number of threads. Every access to shared
 memory is a step of its own, locks are explicit, and a thread that wants a lock can only
 move when the lock is free.
 */
module SlabPool {
  import opened Lists

  datatype Ptr = Null | At(addr: nat)

  const CLASSES := 11
  const MIN_SIZE := 8
  const MAX_SIZE := 8192
  const TAIL := 8

  // ---------------------------------------------------------------- size classes

  function BlockSize(i: nat): nat {
    if i == 0 then MIN_SIZE else 2 * BlockSize(i - 1)
  }

  lemma {:induction false} BlockSizes()
    ensures BlockSize(0) == 8 && BlockSize(1) == 16 && BlockSize(2) == 32 && BlockSize(3) == 64
    ensures BlockSize(4) == 128 && BlockSize(5) == 256 && BlockSize(6) == 512 && BlockSize(7) == 1024
    ensures BlockSize(8) == 2048 && BlockSize(9) == 4096 && BlockSize(10) == MAX_SIZE && BlockSize(11) == 16384
  {
    assert BlockSize(3) == 64;
    assert BlockSize(5) == 256;
    assert BlockSize(7) == 1024;
    assert BlockSize(9) == 4096;
  }

  /** mem_pool_init: doubling from 8 while the size is at most 8192 gives eleven classes. */
  method InitClasses() returns (sizes: seq<nat>)
    ensures |sizes| == CLASSES && forall i :: 0 <= i < CLASSES ==> sizes[i] == BlockSize(i)
  {
    BlockSizes();
    sizes := [];
    var size := MIN_SIZE;
    for i := 0 to 32
      invariant |sizes| == i <= CLASSES && size == BlockSize(i)
      invariant forall l :: 0 <= l < i ==> sizes[l] == BlockSize(l)
    {
      if size > MAX_SIZE {
        MonotoneSizes(i, CLASSES);
        return;
      }
      if i >= CLASSES { MonotoneSizes(CLASSES, i); }
      sizes := sizes + [size];
      size := size * 2;
    }
  }

  lemma {:induction false} MonotoneSizes(i: nat, j: nat)
    requires i <= j
    ensures BlockSize(i) <= BlockSize(j)
    ensures i < j ==> 2 * BlockSize(i) <= BlockSize(j)
    decreases j
  {
    if i < j {
      MonotoneSizes(i, j - 1);
    }
  }

  // The first class from i on that covers n, or CLASSES when none does.
  function ClassFrom(n: nat, i: nat): nat
    requires i <= CLASSES
    decreases CLASSES - i
  {
    if i == CLASSES || n <= BlockSize(i) then i else ClassFrom(n, i + 1)
  }

  function ClassOf(n: nat): nat {
    ClassFrom(n, 0)
  }

  lemma {:induction false} ClassFromFirst(n: nat, i: nat)
    requires i <= CLASSES
    ensures i <= ClassFrom(n, i) <= CLASSES
    ensures ClassFrom(n, i) < CLASSES ==> n <= BlockSize(ClassFrom(n, i))
    ensures forall l :: i <= l < ClassFrom(n, i) ==> BlockSize(l) < n
    decreases CLASSES - i
  {
    if !(i == CLASSES || n <= BlockSize(i)) { ClassFromFirst(n, i + 1); }
  }

  /** find_slab_index over the table that init built; CLASSES stands for its -1. */
  method FindSlabIndex(sizes: seq<nat>, n: nat) returns (c: nat)
    requires |sizes| == CLASSES && forall i :: 0 <= i < CLASSES ==> sizes[i] == BlockSize(i)
    ensures c == ClassOf(n)
    ensures c < CLASSES <==> n <= MAX_SIZE
  {
    BlockSizes();
    for i := 0 to CLASSES
      invariant ClassOf(n) == ClassFrom(n, i)
      invariant i > 0 ==> BlockSize(i - 1) < n
    {
      if n <= sizes[i] {
        MonotoneSizes(i, CLASSES - 1);
        return i;
      }
    }
    return CLASSES;
  }

  // The payload size a block of a request gets.
  function Actual(n: nat): nat {
    if ClassOf(n) < CLASSES then BlockSize(ClassOf(n)) else n
  }

  /** A block size maps back to its own class, so a freed block returns where it came from. */
  lemma {:induction false} ClassOfBlockSize(i: nat)
    requires i < CLASSES
    ensures ClassOf(BlockSize(i)) == i
  {
    var c := ClassOf(BlockSize(i));
    ClassFromFirst(BlockSize(i), 0);
    if c < i { MonotoneSizes(c, i); }
  }

  /** Rounding never shrinks a request, less than doubles it above the smallest class, and
      is stable: the rounded size is in the request's class. */
  lemma {:induction false} RoundingBounds(n: nat)
    ensures n <= Actual(n)
    ensures MIN_SIZE < n <= MAX_SIZE ==> Actual(n) < 2 * n
    ensures n > MAX_SIZE <==> ClassOf(n) == CLASSES
    ensures ClassOf(Actual(n)) == ClassOf(n)
    ensures Actual(n) >= TAIL
  {
    BlockSizes();
    ClassFromFirst(n, 0);
    var c := ClassOf(n);
    if c < CLASSES {
      ClassOfBlockSize(c);
      MonotoneSizes(0, c);
      MonotoneSizes(c, CLASSES - 1);
      if c > 0 { assert BlockSize(c - 1) < n; }
    } else {
      assert BlockSize(CLASSES - 1) < n;
    }
  }

  /** A client may use all the bytes it asked for without damaging the tail guard exactly
      when its request leaves eight bytes of the rounded size unused; in particular never
      for a request that is a block size or exceeds the largest class. */
  lemma {:induction false} RequestClearOfGuard(n: nat)
    ensures n <= Actual(n) - TAIL <==> n <= MAX_SIZE && n + TAIL <= BlockSize(ClassOf(n))
    ensures n > MAX_SIZE || (exists i :: 0 <= i < CLASSES && n == BlockSize(i)) ==> n > Actual(n) - TAIL
  {
    RoundingBounds(n);
    if i :| 0 <= i < CLASSES && n == BlockSize(i) { ClassOfBlockSize(i); }
  }

  const SIZE_MAX_PLUS_ONE := 0x1_0000_0000_0000_0000
  const HEADER_BYTES := 216

  // What a block takes beside its payload.
  function Overhead(protect: bool): nat {
    HEADER_BYTES + if protect then TAIL else 0
  }

  // What is asked of the system's malloc, on a 64-bit size_t.
  function TotalSize(protect: bool, n: nat): nat {
    (Overhead(protect) + Actual(n)) % SIZE_MAX_PLUS_ONE
  }

  /** The memory obtained has room for header and payload exactly when the sum does not wrap:
      only requests at the very top of size_t are too large, and they get almost nothing. */
  lemma {:induction false} TotalSizeCovers(protect: bool, n: nat)
    requires n < SIZE_MAX_PLUS_ONE
    ensures TotalSize(protect, n) >= HEADER_BYTES + Actual(n) <==> Overhead(protect) + Actual(n) < SIZE_MAX_PLUS_ONE
    ensures Overhead(protect) + Actual(n) < SIZE_MAX_PLUS_ONE <==> n < SIZE_MAX_PLUS_ONE - Overhead(protect)
    ensures n >= SIZE_MAX_PLUS_ONE - Overhead(protect) ==> TotalSize(protect, n) < Overhead(protect)
  {
    RoundingBounds(n);
    BlockSizes();
    if n <= MAX_SIZE {
      MonotoneSizes(ClassOf(n), CLASSES - 1);
    }
  }

  // ---------------------------------------------------------------- state

  // guard and tail say whether the two guard words still hold their magic values; cap is
  // the payload capacity of the memory behind the block.
  datatype Header = Header(size: nat, freed: bool, guard: bool, tail: bool, next: Ptr, cap: nat)

  datatype Owner = Open | Held(tid: nat)

  // A link field: the head of the active list or the next field of a block.
  datatype Link = Head | NextOf(block: nat)

  // Where a thread stands. n is the request, i a class, b the block in hand.
  datatype PC =
    | Idle
    | PopLock(i: nat, n: nat)
    | Pop(i: nat, n: nat)
    | PopUnlock(i: nat, n: nat, got: Ptr)
    | Obtain(n: nat, got: Ptr)
    | InitHeader(b: nat, n: nat)
    | ActiveLock(b: nat, n: nat)
    | ActiveLink(b: nat, n: nat)
    | ActivePublish(b: nat, n: nat)
    | ActiveUnlock(b: nat, n: nat)
    | FreeLock(b: nat)
    | Check(b: nat)
    | Mark(b: nat)
    | Walk(b: nat, at: Link)
    | FreeUnlock(b: nat)
    | Classify(b: nat)
    | PushLock(b: nat, i: nat)
    | PushLink(b: nat, i: nat)
    | PushPublish(b: nat, i: nat)
    | PushUnlock(i: nat)

  datatype State = State(
    hdr: map<nat, Header>,   // the memory of the blocks the pool owns
    active: Ptr,
    slabs: seq<Ptr>,
    glb: Owner,
    locks: seq<Owner>,
    pcs: map<nat, PC>,
    live: set<nat>,          // blocks in the hands of clients
    aborted: bool)

  function Pc(s: State, t: nat): PC {
    if t in s.pcs then s.pcs[t] else Idle
  }

  function Goto(s: State, t: nat, pc: PC): State {
    s.(pcs := s.pcs[t := pc])
  }

  const INITIAL := State(
    map[], Null, [Null, Null, Null, Null, Null, Null, Null, Null, Null, Null, Null],
    Open, [Open, Open, Open, Open, Open, Open, Open, Open, Open, Open, Open],
    map[], {}, false)

  // ---------------------------------------------------------------- steps

  datatype Event =
    | StartAlloc(n: nat)
    | StartFree(b: nat)
    | Run(raw: Ptr)              // the thread's next statement; raw is what malloc would return
    | ClientWrite(b: nat, upto: nat, intact: bool) // intact: a guard word it overwrites holds its value again

  // Whether the next statement of t can execute: it needs a lock only if it takes one.
  predicate CanRun(s: State, t: nat)
    requires |s.locks| == CLASSES
  {
    match Pc(s, t)
    case Idle => false
    case PopLock(i, _) => i < CLASSES && s.locks[i] == Open
    case ActiveLock(_, _) => s.glb == Open
    case FreeLock(_) => s.glb == Open
    case PushLock(_, i) => i < CLASSES && s.locks[i] == Open
    case _ => true
  }

  function ReadLink(s: State, l: Link): Ptr {
    match l
    case Head => s.active
    case NextOf(a) => if a in s.hdr then s.hdr[a].next else Null
  }

  function WriteLink(s: State, l: Link, p: Ptr): State {
    match l
    case Head => s.(active := p)
    case NextOf(a) => if a in s.hdr then s.(hdr := s.hdr[a := s.hdr[a].(next := p)]) else s
  }

  // Everything mem_pool_alloc stores in the header and the tail word.
  function InitStores(h: Header, protect: bool, size: nat): Header {
    h.(size := size, freed := false, guard := protect, tail := protect || h.tail)
  }

  predicate GuardsHold(protect: bool, h: Header) {
    protect ==> h.guard && h.tail
  }

  /** One statement of thread t. */
  function Exec(protect: bool, s: State, t: nat, raw: Ptr): State
    requires |s.slabs| == |s.locks| == CLASSES && CanRun(s, t)
  {
    match Pc(s, t)
    case Idle => s
    case PopLock(i, n) => Goto(s, t, Pop(i, n)).(locks := s.locks[i := Held(t)])
    case Pop(i, n) =>
      if i < CLASSES && s.slabs[i].At? && s.slabs[i].addr in s.hdr then
        Goto(s, t, PopUnlock(i, n, s.slabs[i])).(slabs := s.slabs[i := s.hdr[s.slabs[i].addr].next])
      else Goto(s, t, PopUnlock(i, n, Null))
    case PopUnlock(i, n, got) =>
      if i < CLASSES then Goto(s, t, Obtain(n, got)).(locks := s.locks[i := Open]) else s
    case Obtain(n, got) =>
      if got.At? then Goto(s, t, InitHeader(got.addr, n))
      else if raw.At? then
        Goto(s, t, InitHeader(raw.addr, n)).(hdr := s.hdr[raw.addr := Header(0, false, false, false, Null, Actual(n))])
      else Goto(s, t, Idle)
    case InitHeader(b, n) =>
      if b in s.hdr then Goto(s, t, ActiveLock(b, n)).(hdr := s.hdr[b := InitStores(s.hdr[b], protect, Actual(n))]) else s
    case ActiveLock(b, n) => Goto(s, t, ActiveLink(b, n)).(glb := Held(t))
    case ActiveLink(b, n) =>
      if b in s.hdr then Goto(s, t, ActivePublish(b, n)).(hdr := s.hdr[b := s.hdr[b].(next := s.active)]) else s
    case ActivePublish(b, n) => Goto(s, t, ActiveUnlock(b, n)).(active := At(b))
    case ActiveUnlock(b, n) => Goto(s, t, Idle).(glb := Open, live := s.live + {b})
    case FreeLock(b) => Goto(s, t, Check(b)).(glb := Held(t))
    case Check(b) =>
      if b in s.hdr && !s.hdr[b].freed && GuardsHold(protect, s.hdr[b]) then Goto(s, t, Mark(b))
      else s.(aborted := true)
    case Mark(b) =>
      if b in s.hdr then Goto(s, t, Walk(b, Head)).(hdr := s.hdr[b := s.hdr[b].(freed := true)]) else s
    case Walk(b, l) =>
      var p := ReadLink(s, l);
      if p == At(b) && b in s.hdr then Goto(WriteLink(s, l, s.hdr[b].next), t, FreeUnlock(b))
      else if p.At? then Goto(s, t, Walk(b, NextOf(p.addr)))
      else Goto(s, t, FreeUnlock(b))
    case FreeUnlock(b) => Goto(s, t, Classify(b)).(glb := Open)
    case Classify(b) =>
      if b in s.hdr && ClassOf(s.hdr[b].size) < CLASSES then Goto(s, t, PushLock(b, ClassOf(s.hdr[b].size)))
      else Goto(s, t, Idle).(hdr := s.hdr - {b})
    case PushLock(b, i) => Goto(s, t, PushLink(b, i)).(locks := s.locks[i := Held(t)])
    case PushLink(b, i) =>
      if b in s.hdr && i < CLASSES then Goto(s, t, PushPublish(b, i)).(hdr := s.hdr[b := s.hdr[b].(next := s.slabs[i])]) else s
    case PushPublish(b, i) =>
      if i < CLASSES then Goto(s, t, PushUnlock(i)).(slabs := s.slabs[i := At(b)]) else s
    case PushUnlock(i) =>
      if i < CLASSES then Goto(s, t, Idle).(locks := s.locks[i := Open]) else s
  }

  // A client writes the first upto bytes of its payload. The tail guard is compared by value,
  // so what matters of a write that reaches it is whether the value is the same afterwards.
  function Written(h: Header, upto: nat, intact: bool): Header {
    if upto + TAIL <= h.size then h else h.(tail := intact)
  }

  /** A step of the system. Clients ask for sizes that do not wrap, free a block they hold,
      once, and write only to blocks they hold, inside the block; the system's malloc never
      hands out memory in use. */
  ghost predicate Step(protect: bool, s: State, t: nat, e: Event, s': State) {
    && |s.slabs| == |s.locks| == CLASSES && !s.aborted
    && match e
       case StartAlloc(n) =>
         && Pc(s, t).Idle? && Overhead(protect) + Actual(n) < SIZE_MAX_PLUS_ONE
         && s' == Goto(s, t, if ClassOf(n) < CLASSES then PopLock(ClassOf(n), n) else Obtain(n, Null))
       case StartFree(b) =>
         && Pc(s, t).Idle? && b in s.live
         && s' == Goto(s, t, FreeLock(b)).(live := s.live - {b})
       case Run(raw) =>
         && CanRun(s, t)
         && (raw.At? ==> raw.addr !in s.hdr)
         && s' == Exec(protect, s, t, raw)
       case ClientWrite(b, upto, intact) =>
         && b in s.live && b in s.hdr && upto <= s.hdr[b].size
         && s' == s.(hdr := s.hdr[b := Written(s.hdr[b], upto, intact)])
  }

  // A client that keeps off the last eight bytes of its blocks.
  ghost predicate Polite(s: State, e: Event) {
    e.ClientWrite? && e.b in s.hdr ==> e.upto + TAIL <= s.hdr[e.b].size
  }
}
