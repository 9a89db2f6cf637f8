/**
 Safety of the slab pool over every interleaving: each block the pool owns is in exactly
 one place, both kinds of list stay properly linked through the shared `next` field, and no
 block is handed out twice, whatever clients write into their blocks.
 */
module SlabPoolSafety {
  import opened Lists
  import opened SlabPool

  datatype Holder = Client | By(tid: nat)

  /** The one place a block is in: on the active list, held by a client or by the thread
      that is about to return or to free it; on the free list of a class; or in transit. */
  datatype Place = Active(holder: Holder) | FreeOf(class_: nat) | Transit(tid: nat)

  // The lists as sequences, and the place of every block.
  datatype View = View(active: seq<nat>, free: seq<seq<nat>>, place: map<nat, Place>)

  // ---------------------------------------------------------------- singly linked lists

  /** Following `next` from p visits exactly the blocks of f and then ends. */
  ghost predicate Chain(f: seq<nat>, p: Ptr, hdr: map<nat, Header>) {
    if f == [] then p == Null
    else p == At(f[0]) && f[0] in hdr && Chain(f[1..], hdr[f[0]].next, hdr)
  }

  lemma {:induction false} ChainFrame(f: seq<nat>, p: Ptr, hdr: map<nat, Header>, hdr': map<nat, Header>)
    requires Chain(f, p, hdr)
    requires forall x :: x in f && x in hdr ==> x in hdr' && hdr'[x].next == hdr[x].next
    ensures Chain(f, p, hdr')
  {
    if f != [] {
      assert f[0] in f;
      assert forall x :: x in f[1..] ==> x in f;
      ChainFrame(f[1..], hdr[f[0]].next, hdr, hdr');
    }
  }

  lemma {:induction false} ChainAt(f: seq<nat>, p: Ptr, hdr: map<nat, Header>, k: nat)
    requires Chain(f, p, hdr) && k < |f|
    ensures f[k] in hdr
    ensures hdr[f[k]].next == if k + 1 < |f| then At(f[k+1]) else Null
    ensures Chain(f[k+1..], hdr[f[k]].next, hdr)
  {
    if k == 0 {
      if |f| > 1 { assert f[1..][0] == f[1]; }
    } else {
      ChainAt(f[1..], hdr[f[0]].next, hdr, k - 1);
      assert f[1..][k-1] == f[k];
      assert f[1..][k..] == f[k+1..];
      if k + 1 < |f| { assert f[1..][k] == f[k+1]; }
    }
  }

  /** Storing the successor's address over the link that leads to f[k] removes f[k]. */
  lemma {:induction false} ChainUnlink(f: seq<nat>, p: Ptr, hdr: map<nat, Header>, k: nat)
    requires Distinct(f) && Chain(f, p, hdr) && 0 < k < |f|
    requires f[k] in hdr && f[k-1] in hdr
    ensures Chain(RemoveAt(f, k), p, hdr[f[k-1] := hdr[f[k-1]].(next := hdr[f[k]].next)])
  {
    var hdr' := hdr[f[k-1] := hdr[f[k-1]].(next := hdr[f[k]].next)];
    var g := RemoveAt(f, k);
    if k == 1 {
      assert g[1..] == f[2..];
      assert f[1..][0] == f[1] && f[1..][1..] == f[2..];
      assert forall x :: x in f[2..] ==> x in f[1..];
      ChainFrame(f[2..], hdr[f[1]].next, hdr, hdr');
    } else {
      assert f[1..][k-1] == f[k] && f[1..][k-2] == f[k-1];
      ChainUnlink(f[1..], hdr[f[0]].next, hdr, k - 1);
      assert g[1..] == RemoveAt(f[1..], k - 1);
      DistinctIndices(f, 0, k - 1);
    }
  }

  // ---------------------------------------------------------------- what a thread has in hand

  // The block only this thread can reach.
  function Private(pc: PC): Ptr {
    match pc
    case PopUnlock(_, _, got) => got
    case Obtain(_, got) => got
    case InitHeader(b, _) => At(b)
    case ActiveLock(b, _) => At(b)
    case ActiveLink(b, _) => At(b)
    case ActivePublish(b, _) => At(b)
    case FreeUnlock(b) => At(b)
    case Classify(b) => At(b)
    case PushLock(b, _) => At(b)
    case PushLink(b, _) => At(b)
    case PushPublish(b, _) => At(b)
    case _ => Null
  }

  // The active block this thread is about to return to its client, or to take off the list.
  function Claimed(pc: PC): Ptr {
    match pc
    case ActiveUnlock(b, _) => At(b)
    case FreeLock(b) => At(b)
    case Check(b) => At(b)
    case Mark(b) => At(b)
    case Walk(b, _) => At(b)
    case _ => Null
  }

  predicate HoldsGlobal(pc: PC) {
    pc.ActiveLink? || pc.ActivePublish? || pc.ActiveUnlock? || pc.Check? || pc.Mark? || pc.Walk? || pc.FreeUnlock?
  }

  predicate HoldsClass(pc: PC, i: nat) {
    match pc
    case Pop(c, _) => c == i
    case PopUnlock(c, _, _) => c == i
    case PushLink(_, c) => c == i
    case PushPublish(_, c) => c == i
    case PushUnlock(c) => c == i
    case _ => false
  }

  // ---------------------------------------------------------------- the invariant

  // A size some request rounds to, within the block's memory and large enough for the tail.
  ghost predicate Sized(h: Header) {
    TAIL <= h.size <= h.cap && (ClassOf(h.size) < CLASSES ==> h.size == h.cap == BlockSize(ClassOf(h.size)))
  }

  // A block as its client holds it.
  ghost predicate Usable(protect: bool, h: Header) {
    !h.freed && (protect ==> h.guard) && Sized(h)
  }

  // A block that is marked as freed.
  ghost predicate Dead(h: Header) {
    h.freed && Sized(h)
  }

  ghost predicate CursorAt(f: seq<nat>, l: Link, k: nat) {
    k < |f| && l == if k == 0 then Head else NextOf(f[k-1])
  }

  // What each statement may rely on when it is a thread's next one.
  ghost predicate ThreadOk(protect: bool, s: State, v: View, t: nat)
    requires |s.slabs| == CLASSES
  {
    var pc := Pc(s, t);
    && (Private(pc).At? ==> Private(pc).addr in s.hdr && Private(pc).addr in v.place && v.place[Private(pc).addr] == Transit(t))
    && (Claimed(pc).At? ==> Claimed(pc).addr in s.hdr && Claimed(pc).addr in v.place && v.place[Claimed(pc).addr] == Active(By(t)))
    && match pc
       case Idle => true
       case PopLock(i, n) => i < CLASSES && i == ClassOf(n)
       case Pop(i, n) => i < CLASSES && i == ClassOf(n)
       case PopUnlock(i, n, got) => i < CLASSES && i == ClassOf(n) && (got.At? ==> s.hdr[got.addr].cap == Actual(n))
       case Obtain(n, got) => got.At? ==> s.hdr[got.addr].cap == Actual(n)
       case InitHeader(b, n) => s.hdr[b].cap == Actual(n)
       case ActiveLock(b, n) => Usable(protect, s.hdr[b]) && n <= s.hdr[b].size
       case ActiveLink(b, n) => Usable(protect, s.hdr[b]) && n <= s.hdr[b].size
       case ActivePublish(b, n) => Usable(protect, s.hdr[b]) && n <= s.hdr[b].size && s.hdr[b].next == s.active
       case ActiveUnlock(b, n) => Usable(protect, s.hdr[b]) && n <= s.hdr[b].size
       case FreeLock(b) => Usable(protect, s.hdr[b])
       case Check(b) => Usable(protect, s.hdr[b])
       case Mark(b) => Usable(protect, s.hdr[b])
       case Walk(b, l) =>
         && Dead(s.hdr[b])
         && (exists k: nat :: CursorAt(v.active, l, k) && b in v.active[k..])
       case FreeUnlock(b) => Dead(s.hdr[b])
       case Classify(b) => Dead(s.hdr[b])
       case PushLock(b, i) => i < CLASSES && Dead(s.hdr[b]) && i == ClassOf(s.hdr[b].size)
       case PushLink(b, i) => i < CLASSES && Dead(s.hdr[b]) && i == ClassOf(s.hdr[b].size)
       case PushPublish(b, i) => i < CLASSES && Dead(s.hdr[b]) && i == ClassOf(s.hdr[b].size) && s.hdr[b].next == s.slabs[i]
       case PushUnlock(i) => i < CLASSES
  }

  ghost predicate BlockOk(protect: bool, s: State, v: View, b: nat)
    requires b in v.place && b in s.hdr
  {
    match v.place[b]
    case Active(Client) => b in s.live && Usable(protect, s.hdr[b])
    case Active(By(t)) => Claimed(Pc(s, t)) == At(b)
    case FreeOf(i) => i < CLASSES && s.hdr[b].size == s.hdr[b].cap == BlockSize(i) && s.hdr[b].freed
    case Transit(t) => Private(Pc(s, t)) == At(b)
  }

  ghost predicate ListsOk(s: State, v: View) {
    && |s.slabs| == |v.free| == CLASSES
    && Distinct(v.active) && Chain(v.active, s.active, s.hdr)
    && (forall i :: 0 <= i < CLASSES ==> Distinct(v.free[i]) && Chain(v.free[i], s.slabs[i], s.hdr))
    && (forall b :: b in v.active <==> b in v.place && v.place[b].Active?)
    && (forall i, b :: 0 <= i < CLASSES ==> (b in v.free[i] <==> b in v.place && v.place[b] == FreeOf(i)))
  }

  ghost predicate LocksOk(s: State) {
    && |s.locks| == CLASSES
    && (forall t :: s.glb == Held(t) <==> HoldsGlobal(Pc(s, t)))
    && (forall t, i :: 0 <= i < CLASSES ==> (s.locks[i] == Held(t) <==> HoldsClass(Pc(s, t), i)))
  }

  ghost predicate Inv(protect: bool, s: State, v: View) {
    && ListsOk(s, v)
    && LocksOk(s)
    && v.place.Keys == s.hdr.Keys
    && (forall b :: b in s.live ==> b in v.place && v.place[b] == Active(Client))
    && (forall b :: b in v.place ==> BlockOk(protect, s, v, b))
    && (forall t :: ThreadOk(protect, s, v, t))
  }

  // ---------------------------------------------------------------- framing other threads

  ghost predicate SameButNext(h: Header, h': Header) {
    h' == h.(next := h'.next)
  }

  /** What a step of t must leave alone for the assertions of every other thread to survive. */
  ghost predicate OthersFramed(s: State, v: View, s': State, v': View, t: nat) {
    && |s.slabs| == |s'.slabs| == |s.locks| == |s'.locks| == CLASSES
    && (forall u :: u != t ==> Pc(s', u) == Pc(s, u))
    && (forall u :: u != t ==> (s'.glb == Held(u) <==> s.glb == Held(u)))
    && (forall u :: u != t && s.glb == Held(u) ==> s'.active == s.active && v'.active == v.active)
    && (forall u, i :: u != t && 0 <= i < CLASSES ==> (s'.locks[i] == Held(u) <==> s.locks[i] == Held(u)))
    && (forall u, i :: u != t && 0 <= i < CLASSES && s.locks[i] == Held(u) ==> s'.slabs[i] == s.slabs[i])
    && (forall b :: b in v.place && b in s.hdr && v.place[b].Transit? && v.place[b].tid != t ==>
          b in v'.place && v'.place[b] == v.place[b] && b in s'.hdr && s'.hdr[b] == s.hdr[b])
    && (forall b :: b in v.place && b in s.hdr && v.place[b].Active? && v.place[b].holder.By? && v.place[b].holder.tid != t ==>
          b in v'.place && v'.place[b] == v.place[b] && b in s'.hdr && SameButNext(s.hdr[b], s'.hdr[b]))
  }

  lemma {:induction false} OthersKeep(protect: bool, s: State, v: View, s': State, v': View, t: nat, u: nat)
    requires OthersFramed(s, v, s', v', t) && u != t && ThreadOk(protect, s, v, u)
    requires HoldsGlobal(Pc(s, u)) ==> s.glb == Held(u)
    requires forall i :: 0 <= i < CLASSES && HoldsClass(Pc(s, u), i) ==> s.locks[i] == Held(u)
    ensures ThreadOk(protect, s', v', u)
  {
    var pc := Pc(s, u);
    assert Pc(s', u) == pc;
    if pc.PushPublish? { assert HoldsClass(pc, pc.i); }
  }

  /** From the acting thread's own assertion, its locks, the lists and the changed blocks,
      the whole invariant. */
  lemma {:induction false} StepKeeps(protect: bool, s: State, v: View, s': State, v': View, t: nat)
    requires Inv(protect, s, v) && OthersFramed(s, v, s', v', t)
    requires ListsOk(s', v') && v'.place.Keys == s'.hdr.Keys
    requires forall b :: b in s'.live ==> b in v'.place && v'.place[b] == Active(Client)
    requires forall b :: b in v'.place ==> BlockOk(protect, s', v', b)
    requires ThreadOk(protect, s', v', t)
    requires s'.glb == Held(t) <==> HoldsGlobal(Pc(s', t))
    requires forall i :: 0 <= i < CLASSES ==> (s'.locks[i] == Held(t) <==> HoldsClass(Pc(s', t), i))
    ensures Inv(protect, s', v')
  {
    forall u
      ensures ThreadOk(protect, s', v', u)
      ensures s'.glb == Held(u) <==> HoldsGlobal(Pc(s', u))
      ensures forall i :: 0 <= i < CLASSES ==> (s'.locks[i] == Held(u) <==> HoldsClass(Pc(s', u), i))
    {
      if u != t {
        assert ThreadOk(protect, s, v, u);
        OthersKeep(protect, s, v, s', v', t, u);
      }
    }
  }

  // ---------------------------------------------------------------- kinds of steps

  ghost predicate OnlyPc(s: State, s': State, t: nat) {
    forall u :: u != t ==> Pc(s', u) == Pc(s, u)
  }

  ghost predicate OwnLockChange(o: Owner, o': Owner, t: nat) {
    o' == o || (o == Open && o' == Held(t)) || (o == Held(t) && o' == Open)
  }

  /** Block b apart, every block keeps its place and its header, where listed blocks may
      have their next field changed. */
  ghost predicate ElseSame(s: State, v: View, s': State, v': View, b: nat) {
    && (forall x :: x != b ==> (x in v'.place <==> x in v.place))
    && (forall x :: x != b ==> (x in s'.live <==> x in s.live))
    && (forall x :: x != b && x in v.place && x in v'.place && x in s.hdr && x in s'.hdr ==>
          && v'.place[x] == v.place[x]
          && SameButNext(s.hdr[x], s'.hdr[x])
          && (v.place[x].Transit? ==> s'.hdr[x] == s.hdr[x]))
  }

  // Only t's locks change hands, and lists change only under their lock.
  ghost predicate LocksRespected(s: State, v: View, s': State, v': View, t: nat) {
    && |s.slabs| == |s'.slabs| == |s.locks| == |s'.locks| == CLASSES
    && OwnLockChange(s.glb, s'.glb, t)
    && (s.glb == Held(t) || (s'.active == s.active && v'.active == v.active))
    && (forall i :: 0 <= i < CLASSES ==>
          OwnLockChange(s.locks[i], s'.locks[i], t) && (s.locks[i] == Held(t) || s'.slabs[i] == s.slabs[i]))
  }

  ghost predicate OwnLocksOk(s: State, t: nat) {
    && |s.locks| == CLASSES
    && (s.glb == Held(t) <==> HoldsGlobal(Pc(s, t)))
    && (forall i :: 0 <= i < CLASSES ==> (s.locks[i] == Held(t) <==> HoldsClass(Pc(s, t), i)))
  }

  // Block b is not in the hands of another thread.
  ghost predicate Mine(v: View, b: nat, t: nat) {
    b in v.place ==>
      v.place[b].FreeOf? || v.place[b] == Transit(t) || v.place[b] == Active(By(t)) || v.place[b] == Active(Client)
  }

  lemma {:induction false} StepFrame(s: State, v: View, s': State, v': View, t: nat, b: nat)
    requires v.place.Keys == s.hdr.Keys && v'.place.Keys == s'.hdr.Keys && OnlyPc(s, s', t)
    requires ElseSame(s, v, s', v', b) && LocksRespected(s, v, s', v', t) && Mine(v, b, t)
    ensures OthersFramed(s, v, s', v', t)
  {
  }

  lemma {:induction false} StepBlocks(protect: bool, s: State, v: View, s': State, v': View, t: nat, b: nat)
    requires v.place.Keys == s.hdr.Keys && v'.place.Keys == s'.hdr.Keys && OnlyPc(s, s', t)
    requires ElseSame(s, v, s', v', b)
    requires forall x :: x in v.place ==> BlockOk(protect, s, v, x)
    requires Private(Pc(s, t)) == Null || Private(Pc(s, t)) == At(b)
    requires Claimed(Pc(s, t)) == Null || Claimed(Pc(s, t)) == At(b)
    requires b in v'.place ==> BlockOk(protect, s', v', b)
    ensures forall x :: x in v'.place ==> BlockOk(protect, s', v', x)
  {
    forall x | x in v'.place ensures BlockOk(protect, s', v', x) {
      if x != b { assert BlockOk(protect, s, v, x); }
    }
  }

  /** What has to be known of a step of t besides the lists it leaves: it changes at most
      the place and header of block b, which t has in hand before or after. */
  ghost predicate StepPost(protect: bool, s: State, v: View, s': State, v': View, t: nat, b: nat) {
    && OnlyPc(s, s', t) && v'.place.Keys == s'.hdr.Keys
    && ElseSame(s, v, s', v', b) && LocksRespected(s, v, s', v', t) && Mine(v, b, t) && OwnLocksOk(s', t)
    && (Private(Pc(s, t)) == Null || Private(Pc(s, t)) == At(b))
    && (Claimed(Pc(s, t)) == Null || Claimed(Pc(s, t)) == At(b))
    && (b in s'.live ==> b in v'.place && v'.place[b] == Active(Client))
    && OwnOk(protect, s', v', t, b)
  }

  ghost predicate OwnOk(protect: bool, s: State, v: View, t: nat, b: nat)
    requires |s.slabs| == CLASSES && v.place.Keys == s.hdr.Keys
  {
    (b in v.place ==> BlockOk(protect, s, v, b)) && ThreadOk(protect, s, v, t)
  }

  lemma {:induction false} PlaceStep(protect: bool, s: State, v: View, s': State, v': View, t: nat, b: nat)
    requires Inv(protect, s, v) && ListsOk(s', v') && StepPost(protect, s, v, s', v', t, b)
    ensures Inv(protect, s', v')
  {
    StepFrame(s, v, s', v', t, b);
    StepBlocks(protect, s, v, s', v', t, b);
    StepLive(s, v, s', v', b);
    StepKeeps(protect, s, v, s', v', t);
  }

  lemma {:induction false} StepLive(s: State, v: View, s': State, v': View, b: nat)
    requires v.place.Keys == s.hdr.Keys && v'.place.Keys == s'.hdr.Keys && ElseSame(s, v, s', v', b)
    requires forall x :: x in s.live ==> x in v.place && v.place[x] == Active(Client)
    requires b in s'.live ==> b in v'.place && v'.place[b] == Active(Client)
    ensures forall x :: x in s'.live ==> x in v'.place && v'.place[x] == Active(Client)
  {
  }

  // The facts about the acting thread that its statement starts from.
  ghost predicate Acting(protect: bool, s: State, v: View, t: nat) {
    && |s.slabs| == |s.locks| == CLASSES && v.place.Keys == s.hdr.Keys
    && OwnLocksOk(s, t) && ThreadOk(protect, s, v, t)
    && (Private(Pc(s, t)).At? ==> Private(Pc(s, t)).addr !in s.live)
    && (Claimed(Pc(s, t)).At? ==> Claimed(Pc(s, t)).addr !in s.live)
  }

  lemma {:induction false} ActingFacts(protect: bool, s: State, v: View, t: nat)
    requires Inv(protect, s, v)
    ensures Acting(protect, s, v, t)
  {
    assert ThreadOk(protect, s, v, t);
  }

  // The block a thread has in hand, or one the pool does not own.
  ghost function InHand(s: State, t: nat): nat {
    if Private(Pc(s, t)).At? then Private(Pc(s, t)).addr
    else if Claimed(Pc(s, t)).At? then Claimed(Pc(s, t)).addr
    else Unowned(s)
  }

  ghost function Unowned(s: State): (b: nat)
    ensures b !in s.hdr && b !in s.live
  {
    FreshExists(s.hdr.Keys + s.live);
    var b: nat :| b !in s.hdr.Keys + s.live;
    b
  }

  lemma {:induction false} FreshExists(xs: set<nat>)
    ensures exists b: nat :: b !in xs
  {
    var m := Bound(xs);
    assert m !in xs;
  }

  lemma {:induction false} Bound(xs: set<nat>) returns (m: nat)
    ensures forall x :: x in xs ==> x < m
    decreases |xs|
  {
    if xs == {} {
      m := 0;
    } else {
      var x :| x in xs;
      var m' := Bound(xs - {x});
      m := if x < m' then m' else x + 1;
      forall y | y in xs ensures y < m { assert y == x || y in xs - {x}; }
    }
  }

  /** A statement that only moves the thread on, possibly taking or releasing a lock. */
  lemma {:induction false} ControlStep(protect: bool, s: State, v: View, s': State, t: nat)
    requires Inv(protect, s, v) && OnlyPc(s, s', t)
    requires s'.hdr == s.hdr && s'.active == s.active && s'.slabs == s.slabs && s'.live == s.live
    requires Private(Pc(s', t)) == Private(Pc(s, t)) && Claimed(Pc(s', t)) == Claimed(Pc(s, t))
    requires LocksRespected(s, v, s', v, t) && OwnLocksOk(s', t)
    requires ThreadOk(protect, s', v, t)
    ensures Inv(protect, s', v)
  {
    var b := InHand(s, t);
    ControlPost(protect, s, v, s', t, b);
    ListsFrame(s, v, s', v);
    PlaceStep(protect, s, v, s', v, t, b);
  }

  lemma {:induction false} ControlPost(protect: bool, s: State, v: View, s': State, t: nat, b: nat)
    requires |s.slabs| == CLASSES && v.place.Keys == s.hdr.Keys && ThreadOk(protect, s, v, t) && OnlyPc(s, s', t)
    requires s'.hdr == s.hdr && s'.active == s.active && s'.slabs == s.slabs && s'.live == s.live
    requires Private(Pc(s', t)) == Private(Pc(s, t)) && Claimed(Pc(s', t)) == Claimed(Pc(s, t))
    requires LocksRespected(s, v, s', v, t) && OwnLocksOk(s', t)
    requires ThreadOk(protect, s', v, t)
    requires b == InHand(s, t) && (b in s.live ==> b in v.place && v.place[b] == Active(Client))
    ensures StepPost(protect, s, v, s', v, t, b)
  {
    InHandMine(protect, s, v, t, s');
    assert OwnOk(protect, s', v, t, b);
  }

  lemma {:induction false} InHandMine(protect: bool, s: State, v: View, t: nat, s': State)
    requires |s.slabs| == CLASSES && ThreadOk(protect, s, v, t) && v.place.Keys == s.hdr.Keys
    requires s'.hdr == s.hdr && Private(Pc(s', t)) == Private(Pc(s, t)) && Claimed(Pc(s', t)) == Claimed(Pc(s, t))
    ensures var b := InHand(s, t);
            && Mine(v, b, t)
            && (Private(Pc(s, t)) == Null || Private(Pc(s, t)) == At(b))
            && (Claimed(Pc(s, t)) == Null || Claimed(Pc(s, t)) == At(b))
            && (b in v.place ==> BlockOk(protect, s', v, b) && v.place[b] != Active(Client))
  {
  }

  // Lists survive any change that leaves their heads and the next fields of their members alone.
  lemma {:induction false} ListsFrame(s: State, v: View, s': State, v': View)
    requires ListsOk(s, v) && s'.active == s.active && s'.slabs == s.slabs
    requires v'.active == v.active && v'.free == v.free
    requires forall b :: (b in v'.place && v'.place[b].Active?) <==> (b in v.place && v.place[b].Active?)
    requires forall b, i :: (b in v'.place && v'.place[b] == FreeOf(i)) <==> (b in v.place && v.place[b] == FreeOf(i))
    requires forall b :: b in v.place && b in s.hdr && !v.place[b].Transit? ==>
               b in s'.hdr && s'.hdr[b].next == s.hdr[b].next
    ensures ListsOk(s', v')
  {
    ChainFrame(v.active, s.active, s.hdr, s'.hdr);
    forall i | 0 <= i < CLASSES ensures Chain(v.free[i], s.slabs[i], s'.hdr) {
      ChainFrame(v.free[i], s.slabs[i], s.hdr, s'.hdr);
    }
  }

  /** A statement that writes the header of a block only this thread can reach. */
  lemma {:induction false} PrivateWrite(protect: bool, s: State, v: View, s': State, t: nat, b: nat, h: Header)
    requires Inv(protect, s, v) && OnlyPc(s, s', t)
    requires b in v.place && v.place[b] == Transit(t) && s'.hdr == s.hdr[b := h]
    requires s'.active == s.active && s'.slabs == s.slabs && s'.live == s.live
    requires s'.glb == s.glb && s'.locks == s.locks && OwnLocksOk(s', t)
    requires Private(Pc(s', t)) == Private(Pc(s, t)) == At(b) && Claimed(Pc(s', t)) == Claimed(Pc(s, t)) == Null
    requires ThreadOk(protect, s', v, t)
    ensures Inv(protect, s', v)
  {
    ListsFrame(s, v, s', v);
    PlaceStep(protect, s, v, s', v, t, b);
  }

  // ---------------------------------------------------------------- statements that move a block

  // Popping moves the head of a free list into the hands of the thread.
  lemma {:induction false} PopTakes(protect: bool, s: State, v: View, s': State, t: nat) returns (v': View)
    requires Inv(protect, s, v)
    requires Pc(s, t).Pop? && Pc(s, t).i < |s.slabs| && |s.slabs| == |v.free| && v.free[Pc(s, t).i] != []
    requires var i := Pc(s, t).i;
             && s.slabs[i].At? && s.slabs[i].addr in s.hdr
             && s' == Goto(s, t, PopUnlock(i, Pc(s, t).n, s.slabs[i])).(slabs := s.slabs[i := s.hdr[s.slabs[i].addr].next])
    ensures Inv(protect, s', v') && v'.active == v.active
    ensures v'.free == v.free[Pc(s, t).i := v.free[Pc(s, t).i][1..]]
  {
    ActingFacts(protect, s, v, t);
    var b := s.slabs[Pc(s, t).i].addr;
    var i := Pc(s, t).i;
    assert Chain(v.free[i], s.slabs[i], s.hdr);
    assert b == v.free[i][0] && b in v.free[i];
    assert BlockOk(protect, s, v, b);
    v' := v.(free := v.free[Pc(s, t).i := v.free[Pc(s, t).i][1..]], place := v.place[b := Transit(t)]);
    PopLists(s, v, s', v', i, b);
    PopTakesPost(protect, s, v, s', v', t);
    PlaceStep(protect, s, v, s', v', t, b);
  }

  lemma {:induction false} PopTakesPost(protect: bool, s: State, v: View, s': State, v': View, t: nat)
    requires Acting(protect, s, v, t)
    requires Pc(s, t).Pop? && Pc(s, t).i < |s.slabs| && |s.slabs| == |v.free| && v.free[Pc(s, t).i] != []
    requires var i := Pc(s, t).i;
             && s.slabs[i].At? && s.slabs[i].addr in s.hdr
             && s' == Goto(s, t, PopUnlock(i, Pc(s, t).n, s.slabs[i])).(slabs := s.slabs[i := s.hdr[s.slabs[i].addr].next])
    requires var b := s.slabs[Pc(s, t).i].addr;
             b !in s.live && b in v.place && v.place[b] == FreeOf(Pc(s, t).i) && s.hdr[b].cap == BlockSize(Pc(s, t).i)
    requires var b := s.slabs[Pc(s, t).i].addr; v' == v.(free := v.free[Pc(s, t).i := v.free[Pc(s, t).i][1..]], place := v.place[b := Transit(t)])
    ensures StepPost(protect, s, v, s', v', t, s.slabs[Pc(s, t).i].addr)
  {
    RoundingBounds(Pc(s, t).n);
  }

  // Memory fresh from the system is private to the thread.
  lemma {:induction false} ObtainTakes(protect: bool, s: State, v: View, s': State, t: nat, raw: nat) returns (v': View)
    requires Inv(protect, s, v)
    requires Pc(s, t).Obtain? && Pc(s, t).got == Null && raw !in s.hdr
    requires var n := Pc(s, t).n;
             s' == Goto(s, t, InitHeader(raw, n)).(hdr := s.hdr[raw := Header(0, false, false, false, Null, Actual(n))])
    ensures Inv(protect, s', v') && v'.active == v.active && v'.free == v.free
  {
    ActingFacts(protect, s, v, t);
    var b := raw;
    v' := v.(place := v.place[b := Transit(t)]);
    ListsFrame(s, v, s', v');
    ObtainTakesPost(protect, s, v, s', v', t, raw);
    PlaceStep(protect, s, v, s', v', t, b);
  }

  lemma {:induction false} ObtainTakesPost(protect: bool, s: State, v: View, s': State, v': View, t: nat, raw: nat)
    requires Acting(protect, s, v, t)
    requires Pc(s, t).Obtain? && Pc(s, t).got == Null && raw !in s.hdr
    requires var n := Pc(s, t).n;
             s' == Goto(s, t, InitHeader(raw, n)).(hdr := s.hdr[raw := Header(0, false, false, false, Null, Actual(n))])
    requires raw !in s.live
    requires var b := raw; v' == v.(place := v.place[b := Transit(t)])
    ensures StepPost(protect, s, v, s', v', t, raw)
  {
  }

  /** Publishing puts the private block at the front of the active list. */
  lemma {:induction false} PublishActive(protect: bool, s: State, v: View, s': State, t: nat) returns (v': View)
    requires Inv(protect, s, v)
    requires Pc(s, t).ActivePublish?
    requires s' == Goto(s, t, ActiveUnlock(Pc(s, t).b, Pc(s, t).n)).(active := At(Pc(s, t).b))
    ensures Inv(protect, s', v') && v'.active == [Pc(s, t).b] + v.active && v'.free == v.free
  {
    ActingFacts(protect, s, v, t);
    var b := Pc(s, t).b;
    v' := v.(active := [b] + v.active, place := v.place[b := Active(By(t))]);
    ActiveLists(s, v, s', v', b);
    PublishActivePost(protect, s, v, s', v', t);
    PlaceStep(protect, s, v, s', v', t, b);
  }

  lemma {:induction false} PublishActivePost(protect: bool, s: State, v: View, s': State, v': View, t: nat)
    requires Acting(protect, s, v, t)
    requires Pc(s, t).ActivePublish?
    requires s' == Goto(s, t, ActiveUnlock(Pc(s, t).b, Pc(s, t).n)).(active := At(Pc(s, t).b))
    requires var b := Pc(s, t).b; v' == v.(active := [b] + v.active, place := v.place[b := Active(By(t))])
    ensures StepPost(protect, s, v, s', v', t, Pc(s, t).b)
  {
  }

  // The block passes to the client.
  lemma {:induction false} ReturnToClient(protect: bool, s: State, v: View, s': State, t: nat) returns (v': View)
    requires Inv(protect, s, v)
    requires Pc(s, t).ActiveUnlock?
    requires s' == Goto(s, t, Idle).(glb := Open, live := s.live + {Pc(s, t).b})
    ensures Inv(protect, s', v') && v'.active == v.active && v'.free == v.free
  {
    ActingFacts(protect, s, v, t);
    var b := Pc(s, t).b;
    v' := v.(place := v.place[b := Active(Client)]);
    ListsFrame(s, v, s', v');
    ReturnToClientPost(protect, s, v, s', v', t);
    PlaceStep(protect, s, v, s', v', t, b);
  }

  lemma {:induction false} ReturnToClientPost(protect: bool, s: State, v: View, s': State, v': View, t: nat)
    requires Acting(protect, s, v, t)
    requires Pc(s, t).ActiveUnlock?
    requires s' == Goto(s, t, Idle).(glb := Open, live := s.live + {Pc(s, t).b})
    requires var b := Pc(s, t).b; v' == v.(place := v.place[b := Active(Client)])
    ensures StepPost(protect, s, v, s', v', t, Pc(s, t).b)
  {
  }

  /** Pushing puts the private block at the front of its class's free list. */
  lemma {:induction false} PublishFree(protect: bool, s: State, v: View, s': State, t: nat) returns (v': View)
    requires Inv(protect, s, v)
    requires Pc(s, t).PushPublish? && Pc(s, t).i < |s.slabs| && |s.slabs| == |v.free|
    requires s' == Goto(s, t, PushUnlock(Pc(s, t).i)).(slabs := s.slabs[Pc(s, t).i := At(Pc(s, t).b)])
    ensures Inv(protect, s', v') && v'.active == v.active
    ensures v'.free == v.free[Pc(s, t).i := [Pc(s, t).b] + v.free[Pc(s, t).i]]
  {
    ActingFacts(protect, s, v, t);
    var b := Pc(s, t).b;
    v' := v.(free := v.free[Pc(s, t).i := [b] + v.free[Pc(s, t).i]], place := v.place[b := FreeOf(Pc(s, t).i)]);
    PushLists(s, v, s', v', Pc(s, t).i, b);
    PublishFreePost(protect, s, v, s', v', t);
    PlaceStep(protect, s, v, s', v', t, b);
  }

  lemma {:induction false} PublishFreePost(protect: bool, s: State, v: View, s': State, v': View, t: nat)
    requires Acting(protect, s, v, t)
    requires Pc(s, t).PushPublish? && Pc(s, t).i < |s.slabs| && |s.slabs| == |v.free|
    requires s' == Goto(s, t, PushUnlock(Pc(s, t).i)).(slabs := s.slabs[Pc(s, t).i := At(Pc(s, t).b)])
    requires var b := Pc(s, t).b; v' == v.(free := v.free[Pc(s, t).i := [b] + v.free[Pc(s, t).i]], place := v.place[b := FreeOf(Pc(s, t).i)])
    ensures StepPost(protect, s, v, s', v', t, Pc(s, t).b)
  {
    var b, i := Pc(s, t).b, Pc(s, t).i;
    assert HoldsClass(Pc(s, t), i) && s.locks[i] == Held(t);
    assert Pc(s', t) == PushUnlock(i);
    PublishFreeOwn(protect, s, v, s', v', t);
  }

  lemma {:induction false} PublishFreeOwn(protect: bool, s: State, v: View, s': State, v': View, t: nat)
    requires Acting(protect, s, v, t)
    requires Pc(s, t).PushPublish? && Pc(s, t).i < |s.slabs| && |s.slabs| == |v.free|
    requires s' == Goto(s, t, PushUnlock(Pc(s, t).i)).(slabs := s.slabs[Pc(s, t).i := At(Pc(s, t).b)])
    requires var b := Pc(s, t).b; v' == v.(free := v.free[Pc(s, t).i := [b] + v.free[Pc(s, t).i]], place := v.place[b := FreeOf(Pc(s, t).i)])
    ensures OwnOk(protect, s', v', t, Pc(s, t).b)
  {
    var b, i := Pc(s, t).b, Pc(s, t).i;
    assert Pc(s', t) == PushUnlock(i);
    assert s.hdr[b].size == s.hdr[b].cap == BlockSize(i);
  }

  // The memory of an oversized block goes back to the system.
  lemma {:induction false} ReturnToSystem(protect: bool, s: State, v: View, s': State, t: nat) returns (v': View)
    requires Inv(protect, s, v)
    requires Pc(s, t).Classify?
    requires s' == Goto(s, t, Idle).(hdr := s.hdr - {Pc(s, t).b})
    ensures Inv(protect, s', v') && v'.active == v.active && v'.free == v.free
  {
    ActingFacts(protect, s, v, t);
    var b := Pc(s, t).b;
    v' := v.(place := v.place - {b});
    ListsFrame(s, v, s', v');
    ReturnToSystemPost(protect, s, v, s', v', t);
    PlaceStep(protect, s, v, s', v', t, b);
  }

  lemma {:induction false} ReturnToSystemPost(protect: bool, s: State, v: View, s': State, v': View, t: nat)
    requires Acting(protect, s, v, t)
    requires Pc(s, t).Classify?
    requires s' == Goto(s, t, Idle).(hdr := s.hdr - {Pc(s, t).b})
    requires var b := Pc(s, t).b; v' == v.(place := v.place - {b})
    ensures StepPost(protect, s, v, s', v', t, Pc(s, t).b)
  {
  }

  // A client starts to free a block it holds.
  lemma {:induction false} ClientFrees(protect: bool, s: State, v: View, s': State, t: nat, b: nat) returns (v': View)
    requires Inv(protect, s, v) && Pc(s, t).Idle? && b in s.live
    requires s' == Goto(s, t, FreeLock(b)).(live := s.live - {b})
    ensures Inv(protect, s', v') && v'.active == v.active && v'.free == v.free
  {
    ActingFacts(protect, s, v, t);
    v' := v.(place := v.place[b := Active(By(t))]);
    assert BlockOk(protect, s, v, b);
    ListsFrame(s, v, s', v');
    ClientFreesPost(protect, s, v, s', v', t, b);
    PlaceStep(protect, s, v, s', v', t, b);
  }

  lemma {:induction false} ClientFreesPost(protect: bool, s: State, v: View, s': State, v': View, t: nat, b: nat)
    requires Acting(protect, s, v, t) && Pc(s, t).Idle?
    requires b in s.hdr && v.place[b] == Active(Client) && Usable(protect, s.hdr[b])
    requires s' == Goto(s, t, FreeLock(b)).(live := s.live - {b})
    requires v' == v.(place := v.place[b := Active(By(t))])
    ensures StepPost(protect, s, v, s', v', t, b)
  {
    ClientFreesOwn(protect, s, v, s', v', t, b);
  }

  lemma {:induction false} ClientFreesOwn(protect: bool, s: State, v: View, s': State, v': View, t: nat, b: nat)
    requires Acting(protect, s, v, t) && Pc(s, t).Idle?
    requires b in s.hdr && v.place[b] == Active(Client) && Usable(protect, s.hdr[b])
    requires s' == Goto(s, t, FreeLock(b)).(live := s.live - {b})
    requires v' == v.(place := v.place[b := Active(By(t))])
    ensures OwnOk(protect, s', v', t, b) && OwnLocksOk(s', t)
  {
    assert Pc(s', t) == FreeLock(b);
  }

  /** Marking: the block is still listed while it counts as freed, but only under the lock. */
  lemma {:induction false} MarkKeeps(protect: bool, s: State, v: View, s': State, t: nat)
    requires Inv(protect, s, v) && Pc(s, t).Mark? && Pc(s, t).b in s.hdr
    requires var b := Pc(s, t).b; s' == Goto(s, t, Walk(b, Head)).(hdr := s.hdr[b := s.hdr[b].(freed := true)])
    ensures Inv(protect, s', v)
  {
    ActingFacts(protect, s, v, t);
    var b := Pc(s, t).b;
    assert b in v.active;
    ListsFrame(s, v, s', v);
    MarkPost(protect, s, v, s', t);
    PlaceStep(protect, s, v, s', v, t, b);
  }

  lemma {:induction false} MarkPost(protect: bool, s: State, v: View, s': State, t: nat)
    requires Acting(protect, s, v, t) && Pc(s, t).Mark? && Pc(s, t).b in s.hdr && Pc(s, t).b in v.active
    requires var b := Pc(s, t).b; s' == Goto(s, t, Walk(b, Head)).(hdr := s.hdr[b := s.hdr[b].(freed := true)])
    ensures StepPost(protect, s, v, s', v, t, Pc(s, t).b)
  {
    assert CursorAt(v.active, Head, 0) && v.active[0..] == v.active;
  }

  // ---------------------------------------------------------------- the walk

  // The link the cursor stands on leads to the k-th active block.
  lemma {:induction false} CursorReads(s: State, v: View, l: Link, k: nat)
    requires ListsOk(s, v) && CursorAt(v.active, l, k)
    ensures ReadLink(s, l) == At(v.active[k]) && v.active[k] in s.hdr
    ensures k > 0 ==> v.active[k-1] in s.hdr
  {
    ChainAt(v.active, s.active, s.hdr, k);
    if k > 0 { ChainAt(v.active, s.active, s.hdr, k - 1); }
  }

  // How far along the list a link is.
  ghost function CursorIndex(f: seq<nat>, l: Link): nat {
    match l
    case Head => 0
    case NextOf(a) => if a in f then Find(f, a) + 1 else |f|
  }

  lemma {:induction false} CursorIndexIs(f: seq<nat>, l: Link, k: nat)
    requires Distinct(f) && CursorAt(f, l, k)
    ensures CursorIndex(f, l) == k
  {
    if k > 0 { DistinctIndices(f, Find(f, f[k-1]), k - 1); }
  }

  lemma {:induction false} WalkTurn(f: seq<nat>, l: Link, k: nat, b: nat)
    requires Distinct(f) && CursorAt(f, l, k) && b in f[k..]
    ensures CursorIndex(f, l) == k
    ensures f[k] != b ==> CursorIndex(f, NextOf(f[k])) == k + 1 < |f|
  {
    CursorIndexIs(f, l, k);
    assert f[k..] == [f[k]] + f[k+1..];
    if f[k] != b { CursorIndexIs(f, NextOf(f[k]), k + 1); }
  }

  // One turn of the walk: one link further along the same list, or one block taken out of it.
  ghost predicate WalkMoved(f: seq<nat>, l: Link, f': seq<nat>, pc': PC) {
    && CursorIndex(f, l) < |f|
    && if pc'.Walk? then f' == f && CursorIndex(f, pc'.at) == CursorIndex(f, l) + 1 < |f|
       else pc'.FreeUnlock? && |f'| == |f| - 1
  }

  // What a statement of t does to the active list.
  ghost predicate ActiveAfter(s: State, v: View, s': State, v': View, t: nat) {
    match Pc(s, t)
    case ActivePublish(b, _) => v'.active == [b] + v.active
    case Walk(_, l) => WalkMoved(v.active, l, v'.active, Pc(s', t))
    case _ => v'.active == v.active
  }

  // What a statement at pc does to the free lists: each is a stack.
  ghost predicate FreeAfter(v: View, v': View, pc: PC) {
    match pc
    case Pop(i, _) => i < |v.free| && v'.free == if v.free[i] == [] then v.free else v.free[i := v.free[i][1..]]
    case PushPublish(b, i) => i < |v.free| && v'.free == v.free[i := [b] + v.free[i]]
    case _ => v'.free == v.free
  }

  /** The walk never runs off the list: it steps to the next link or finds its block. */
  lemma {:induction false} WalkKeeps(protect: bool, s: State, v: View, t: nat) returns (v': View)
    requires Inv(protect, s, v) && Pc(s, t).Walk?
    ensures Inv(protect, Exec(protect, s, t, Null), v')
    ensures ReadLink(s, Pc(s, t).at).At?
    ensures WalkMoved(v.active, Pc(s, t).at, v'.active, Pc(Exec(protect, s, t, Null), t)) && v'.free == v.free
  {
    ActingFacts(protect, s, v, t);
    var b, l := Pc(s, t).b, Pc(s, t).at;
    var k: nat :| CursorAt(v.active, l, k) && b in v.active[k..];
    CursorReads(s, v, l, k);
    WalkTurn(v.active, l, k, b);
    var s' := Exec(protect, s, t, Null);
    if v.active[k] == b {
      assert s' == Goto(WriteLink(s, l, s.hdr[b].next), t, FreeUnlock(b));
      v' := WalkUnlinks(protect, s, v, s', t, k);
    } else {
      v' := v;
      WalkAdvances(protect, s, v, s', t, k);
    }
  }

  lemma {:induction false} WalkAdvances(protect: bool, s: State, v: View, s': State, t: nat, k: nat)
    requires Inv(protect, s, v) && Pc(s, t).Walk? && CursorAt(v.active, Pc(s, t).at, k)
    requires v.active[k] != Pc(s, t).b && Pc(s, t).b in v.active[k..]
    requires s' == Goto(s, t, Walk(Pc(s, t).b, NextOf(v.active[k])))
    ensures Inv(protect, s', v)
  {
    ActingFacts(protect, s, v, t);
    WalkAdvancesOwn(protect, s, v, s', t, k);
    ControlStep(protect, s, v, s', t);
  }

  lemma {:induction false} WalkAdvancesOwn(protect: bool, s: State, v: View, s': State, t: nat, k: nat)
    requires Acting(protect, s, v, t) && Pc(s, t).Walk? && CursorAt(v.active, Pc(s, t).at, k)
    requires v.active[k] != Pc(s, t).b && Pc(s, t).b in v.active[k..]
    requires s' == Goto(s, t, Walk(Pc(s, t).b, NextOf(v.active[k])))
    ensures ThreadOk(protect, s', v, t) && OwnLocksOk(s', t)
  {
    assert v.active[k..] == [v.active[k]] + v.active[k+1..];
    assert CursorAt(v.active, NextOf(v.active[k]), k + 1) && Pc(s, t).b in v.active[k+1..];
  }

  lemma {:induction false} WalkUnlinks(protect: bool, s: State, v: View, s': State, t: nat, k: nat) returns (v': View)
    requires Inv(protect, s, v) && Pc(s, t).Walk? && CursorAt(v.active, Pc(s, t).at, k)
    requires v.active[k] == Pc(s, t).b && Pc(s, t).b in s.hdr && (k > 0 ==> v.active[k-1] in s.hdr)
    requires s' == Goto(WriteLink(s, Pc(s, t).at, s.hdr[Pc(s, t).b].next), t, FreeUnlock(Pc(s, t).b))
    ensures Inv(protect, s', v') && v'.active == RemoveAt(v.active, k) && v'.free == v.free
  {
    ActingFacts(protect, s, v, t);
    var b := Pc(s, t).b;
    v' := v.(active := RemoveAt(v.active, k), place := v.place[b := Transit(t)]);
    UnlinkLists(s, v, s', v', Pc(s, t).at, k);
    if k > 0 {
      DistinctIndices(v.active, k - 1, k);
      assert v.active[k-1] in v.active;
    }
    WalkUnlinksPost(protect, s, v, s', v', t, k);
    PlaceStep(protect, s, v, s', v', t, b);
  }

  lemma {:induction false} WalkUnlinksPost(protect: bool, s: State, v: View, s': State, v': View, t: nat, k: nat)
    requires Acting(protect, s, v, t) && Pc(s, t).Walk? && CursorAt(v.active, Pc(s, t).at, k)
    requires v.active[k] == Pc(s, t).b && Pc(s, t).b in s.hdr
    requires k > 0 ==> v.active[k-1] in s.hdr && v.active[k-1] != v.active[k] && v.place[v.active[k-1]].Active?
    requires s' == Goto(WriteLink(s, Pc(s, t).at, s.hdr[Pc(s, t).b].next), t, FreeUnlock(Pc(s, t).b))
    requires v' == v.(active := RemoveAt(v.active, k), place := v.place[Pc(s, t).b := Transit(t)])
    ensures StepPost(protect, s, v, s', v', t, Pc(s, t).b)
  {
    var b := Pc(s, t).b;
    var w := WriteLink(s, Pc(s, t).at, s.hdr[b].next);
    WrittenLink(s, v, k, Pc(s, t).at, w);
    assert Pc(s', t) == FreeUnlock(b);
    assert ElseSame(s, v, s', v', b);
    WalkUnlinksOwn(protect, s, v, s', v', t, k);
  }

  lemma {:induction false} WalkUnlinksOwn(protect: bool, s: State, v: View, s': State, v': View, t: nat, k: nat)
    requires Acting(protect, s, v, t) && Pc(s, t).Walk? && CursorAt(v.active, Pc(s, t).at, k)
    requires v.active[k] == Pc(s, t).b && Pc(s, t).b in s.hdr
    requires k > 0 ==> v.active[k-1] in s.hdr && v.active[k-1] != v.active[k] && v.place[v.active[k-1]].Active?
    requires s' == Goto(WriteLink(s, Pc(s, t).at, s.hdr[Pc(s, t).b].next), t, FreeUnlock(Pc(s, t).b))
    requires v' == v.(active := RemoveAt(v.active, k), place := v.place[Pc(s, t).b := Transit(t)])
    ensures OwnOk(protect, s', v', t, Pc(s, t).b)
  {
    var b := Pc(s, t).b;
    var w := WriteLink(s, Pc(s, t).at, s.hdr[b].next);
    WrittenLink(s, v, k, Pc(s, t).at, w);
    assert Pc(s', t) == FreeUnlock(b);
    assert s'.hdr[b] == s.hdr[b];
  }

  lemma {:induction false} WrittenLink(s: State, v: View, k: nat, l: Link, w: State)
    requires CursorAt(v.active, l, k) && v.active[k] in s.hdr && v.place.Keys == s.hdr.Keys
    requires k > 0 ==> v.active[k-1] in s.hdr && v.active[k-1] != v.active[k] && v.place[v.active[k-1]].Active?
    requires w == WriteLink(s, l, s.hdr[v.active[k]].next)
    ensures w.hdr.Keys == s.hdr.Keys && w.hdr[v.active[k]] == s.hdr[v.active[k]]
    ensures w == s.(active := w.active, hdr := w.hdr)
    ensures forall x :: x in s.hdr ==> SameButNext(s.hdr[x], w.hdr[x]) && (v.place[x].Transit? ==> w.hdr[x] == s.hdr[x])
  {
  }

  lemma {:induction false} UnlinkLists(s: State, v: View, s': State, v': View, l: Link, k: nat)
    requires ListsOk(s, v) && CursorAt(v.active, l, k) && v.active[k] in s.hdr && (k > 0 ==> v.active[k-1] in s.hdr)
    requires s'.hdr == WriteLink(s, l, s.hdr[v.active[k]].next).hdr
    requires s'.active == WriteLink(s, l, s.hdr[v.active[k]].next).active && s'.slabs == s.slabs
    requires v.active[k] in v.place && v'.place.Keys == v.place.Keys && v'.place[v.active[k]].Transit?
    requires forall x :: x in v.place && x != v.active[k] ==> v'.place[x] == v.place[x]
    requires v'.active == RemoveAt(v.active, k) && v'.free == v.free
    ensures ListsOk(s', v')
  {
    UnlinkActive(s, v, s', v', l, k);
    UnlinkMembers(s, v, v', k);
    assert v.active[k] in v.active && (k > 0 ==> v.active[k-1] in v.active);
    forall i | 0 <= i < CLASSES ensures Distinct(v'.free[i]) && Chain(v'.free[i], s'.slabs[i], s'.hdr) {
      assert Chain(v.free[i], s.slabs[i], s.hdr);
      ChainFrame(v.free[i], s.slabs[i], s.hdr, s'.hdr);
    }
  }

  lemma {:induction false} UnlinkMembers(s: State, v: View, v': View, k: nat)
    requires ListsOk(s, v) && k < |v.active| && v'.free == v.free
    requires v.active[k] in v.place && v'.place.Keys == v.place.Keys && v'.place[v.active[k]].Transit?
    requires forall x :: x in v.place && x != v.active[k] ==> v'.place[x] == v.place[x]
    requires forall x :: x in v'.active <==> x in v.active && x != v.active[k]
    ensures forall b :: b in v'.active <==> b in v'.place && v'.place[b].Active?
    ensures forall i, b :: 0 <= i < CLASSES ==> (b in v'.free[i] <==> b in v'.place && v'.place[b] == FreeOf(i))
  {
    assert v.active[k] in v.active;
  }

  lemma {:induction false} UnlinkActive(s: State, v: View, s': State, v': View, l: Link, k: nat)
    requires Distinct(v.active) && Chain(v.active, s.active, s.hdr) && CursorAt(v.active, l, k)
    requires v.active[k] in s.hdr && (k > 0 ==> v.active[k-1] in s.hdr)
    requires s'.hdr == WriteLink(s, l, s.hdr[v.active[k]].next).hdr
    requires s'.active == WriteLink(s, l, s.hdr[v.active[k]].next).active && v'.active == RemoveAt(v.active, k)
    ensures Distinct(v'.active) && Chain(v'.active, s'.active, s'.hdr)
    ensures forall x :: x in v'.active <==> x in v.active && x != v.active[k]
  {
    var f := v.active;
    DistinctRemove(f, k);
    assert forall x :: x in v'.active <==> x in Elems(v'.active);
    assert forall x :: x in f <==> x in Elems(f);
    if k == 0 {
      assert v'.active == f[1..];
    } else {
      ChainUnlink(f, s.active, s.hdr, k);
    }
  }

  // ---------------------------------------------------------------- the lists after a move

  lemma {:induction false} PopLists(s: State, v: View, s': State, v': View, i: nat, b: nat)
    requires ListsOk(s, v) && i < CLASSES && v.free[i] != [] && b == v.free[i][0] && b in s.hdr
    requires s'.hdr == s.hdr && s'.active == s.active && s'.slabs == s.slabs[i := s.hdr[b].next]
    requires v'.active == v.active && v'.free == v.free[i := v.free[i][1..]]
    requires v'.place.Keys == v.place.Keys && v'.place[b].Transit?
    requires forall x :: x in v.place && x != b ==> v'.place[x] == v.place[x]
    ensures ListsOk(s', v')
  {
    var f := v.free[i];
    assert Chain(f, s.slabs[i], s.hdr) && Distinct(f);
    assert b in f && v.place[b] == FreeOf(i);
    DistinctTail(f);
  }

  lemma {:induction false} ActiveLists(s: State, v: View, s': State, v': View, b: nat)
    requires ListsOk(s, v) && b in s.hdr && s.hdr[b].next == s.active
    requires s'.hdr == s.hdr && s'.active == At(b) && s'.slabs == s.slabs
    requires b in v.place && v.place[b].Transit? && v'.place.Keys == v.place.Keys && v'.place[b].Active?
    requires forall x :: x in v.place && x != b ==> v'.place[x] == v.place[x]
    requires v'.active == [b] + v.active && v'.free == v.free
    ensures ListsOk(s', v')
  {
    assert b !in v.active;
    DistinctCons(b, v.active);
    assert v'.active[1..] == v.active;
  }

  lemma {:induction false} PushLists(s: State, v: View, s': State, v': View, i: nat, b: nat)
    requires ListsOk(s, v) && i < CLASSES && b in s.hdr && s.hdr[b].next == s.slabs[i]
    requires s'.hdr == s.hdr && s'.active == s.active && s'.slabs == s.slabs[i := At(b)]
    requires v'.active == v.active && v'.free == v.free[i := [b] + v.free[i]]
    requires b in v.place && v.place[b].Transit? && v'.place == v.place[b := FreeOf(i)]
    ensures ListsOk(s', v')
  {
    assert b !in v.free[i];
    assert Chain(v.free[i], s.slabs[i], s.hdr) && Distinct(v.free[i]);
    DistinctCons(b, v.free[i]);
    assert ([b] + v.free[i])[1..] == v.free[i];
  }

  // ---------------------------------------------------------------- every step

  // What a statement that only takes or releases a lock leaves its thread with.
  ghost predicate LockStepOk(protect: bool, s: State, v: View, t: nat)
    requires |s.slabs| == |s.locks| == CLASSES && CanRun(s, t)
  {
    var s' := Exec(protect, s, t, Null);
    && OnlyPc(s, s', t) && s'.hdr == s.hdr && s'.active == s.active && s'.slabs == s.slabs && s'.live == s.live
    && Private(Pc(s', t)) == Private(Pc(s, t)) && Claimed(Pc(s', t)) == Claimed(Pc(s, t))
    && LocksRespected(s, v, s', v, t) && OwnLocksOk(s', t)
    && ThreadOk(protect, s', v, t)
  }

  lemma {:induction false} ClassLockOwn(protect: bool, s: State, v: View, t: nat)
    requires Acting(protect, s, v, t) && CanRun(s, t) && (Pc(s, t).PopLock? || Pc(s, t).PushLock?)
    ensures LockStepOk(protect, s, v, t)
  {
    var s' := Exec(protect, s, t, Null);
    if Pc(s, t).PopLock? {
      assert Pc(s', t) == Pop(Pc(s, t).i, Pc(s, t).n);
    } else {
      assert Pc(s', t) == PushLink(Pc(s, t).b, Pc(s, t).i);
    }
  }

  lemma {:induction false} ClassLockKeeps(protect: bool, s: State, v: View, t: nat)
    requires Inv(protect, s, v) && CanRun(s, t) && (Pc(s, t).PopLock? || Pc(s, t).PushLock?)
    ensures Inv(protect, Exec(protect, s, t, Null), v)
  {
    ActingFacts(protect, s, v, t);
    ClassLockOwn(protect, s, v, t);
    ControlStep(protect, s, v, Exec(protect, s, t, Null), t);
  }

  lemma {:induction false} ClassUnlockKeeps(protect: bool, s: State, v: View, t: nat)
    requires Inv(protect, s, v) && CanRun(s, t) && (Pc(s, t).PopUnlock? || Pc(s, t).PushUnlock?)
    ensures Inv(protect, Exec(protect, s, t, Null), v)
  {
    ActingFacts(protect, s, v, t);
    ControlStep(protect, s, v, Exec(protect, s, t, Null), t);
  }

  lemma {:induction false} GlobalLockOwn(protect: bool, s: State, v: View, t: nat)
    requires Acting(protect, s, v, t) && CanRun(s, t) && (Pc(s, t).ActiveLock? || Pc(s, t).FreeLock? || Pc(s, t).FreeUnlock?)
    ensures LockStepOk(protect, s, v, t)
  {
    var s' := Exec(protect, s, t, Null);
    if Pc(s, t).ActiveLock? {
      assert Pc(s', t) == ActiveLink(Pc(s, t).b, Pc(s, t).n);
    } else if Pc(s, t).FreeLock? {
      assert Pc(s', t) == Check(Pc(s, t).b);
    } else {
      assert Pc(s', t) == Classify(Pc(s, t).b);
    }
  }

  lemma {:induction false} GlobalLockKeeps(protect: bool, s: State, v: View, t: nat)
    requires Inv(protect, s, v) && CanRun(s, t) && (Pc(s, t).ActiveLock? || Pc(s, t).FreeLock? || Pc(s, t).FreeUnlock?)
    ensures Inv(protect, Exec(protect, s, t, Null), v)
  {
    ActingFacts(protect, s, v, t);
    GlobalLockOwn(protect, s, v, t);
    ControlStep(protect, s, v, Exec(protect, s, t, Null), t);
  }

  /** No double free is seen and the head guard is intact: the checks of free fail exactly
      when protection is on and the tail guard is damaged. */
  lemma {:induction false} CheckOutcome(protect: bool, s: State, v: View, t: nat)
    requires Inv(protect, s, v) && Pc(s, t).Check?
    ensures Pc(s, t).b in s.hdr
    ensures Exec(protect, s, t, Null) ==
      if protect && !s.hdr[Pc(s, t).b].tail then s.(aborted := true) else Goto(s, t, Mark(Pc(s, t).b))
  {
    assert ThreadOk(protect, s, v, t);
  }

  lemma {:induction false} CheckKeeps(protect: bool, s: State, v: View, t: nat)
    requires Inv(protect, s, v) && Pc(s, t).Check?
    ensures Inv(protect, Exec(protect, s, t, Null), v)
  {
    ActingFacts(protect, s, v, t);
    ControlStep(protect, s, v, Exec(protect, s, t, Null), t);
  }

  lemma {:induction false} PopKeeps(protect: bool, s: State, v: View, t: nat) returns (v': View)
    requires Inv(protect, s, v) && Pc(s, t).Pop?
    ensures Inv(protect, Exec(protect, s, t, Null), v') && v'.active == v.active
    ensures FreeAfter(v, v', Pc(s, t))
  {
    ActingFacts(protect, s, v, t);
    var i := Pc(s, t).i;
    var s' := Exec(protect, s, t, Null);
    assert Chain(v.free[i], s.slabs[i], s.hdr);
    if v.free[i] == [] {
      v' := v;
      ControlStep(protect, s, v, s', t);
    } else {
      v' := PopTakes(protect, s, v, s', t);
    }
  }

  lemma {:induction false} ObtainKeeps(protect: bool, s: State, v: View, t: nat, raw: Ptr) returns (v': View)
    requires Inv(protect, s, v) && Pc(s, t).Obtain? && (raw.At? ==> raw.addr !in s.hdr)
    ensures Inv(protect, Exec(protect, s, t, raw), v') && v'.active == v.active && v'.free == v.free
  {
    ActingFacts(protect, s, v, t);
    var s' := Exec(protect, s, t, raw);
    if Pc(s, t).got == Null && raw.At? {
      assert raw.addr !in s.live;
      v' := ObtainTakes(protect, s, v, s', t, raw.addr);
    } else {
      v' := v;
      ControlStep(protect, s, v, s', t);
    }
  }

  lemma {:induction false} InitKeeps(protect: bool, s: State, v: View, t: nat)
    requires Inv(protect, s, v) && Pc(s, t).InitHeader?
    ensures Inv(protect, Exec(protect, s, t, Null), v)
  {
    ActingFacts(protect, s, v, t);
    var s' := Exec(protect, s, t, Null);
    RoundingBounds(Pc(s, t).n);
    PrivateWrite(protect, s, v, s', t, Pc(s, t).b, s'.hdr[Pc(s, t).b]);
  }

  lemma {:induction false} ActiveLinkKeeps(protect: bool, s: State, v: View, t: nat)
    requires Inv(protect, s, v) && Pc(s, t).ActiveLink?
    ensures Inv(protect, Exec(protect, s, t, Null), v)
  {
    ActingFacts(protect, s, v, t);
    var s' := Exec(protect, s, t, Null);
    PrivateWrite(protect, s, v, s', t, Pc(s, t).b, s'.hdr[Pc(s, t).b]);
  }

  lemma {:induction false} PushLinkKeeps(protect: bool, s: State, v: View, t: nat)
    requires Inv(protect, s, v) && Pc(s, t).PushLink?
    ensures Inv(protect, Exec(protect, s, t, Null), v)
  {
    ActingFacts(protect, s, v, t);
    var s' := Exec(protect, s, t, Null);
    PrivateWrite(protect, s, v, s', t, Pc(s, t).b, s'.hdr[Pc(s, t).b]);
  }

  lemma {:induction false} ClassifyKeeps(protect: bool, s: State, v: View, t: nat) returns (v': View)
    requires Inv(protect, s, v) && Pc(s, t).Classify?
    ensures Inv(protect, Exec(protect, s, t, Null), v') && v'.active == v.active && v'.free == v.free
  {
    ActingFacts(protect, s, v, t);
    var s' := Exec(protect, s, t, Null);
    if ClassOf(s.hdr[Pc(s, t).b].size) < CLASSES {
      v' := v;
      ControlStep(protect, s, v, s', t);
    } else {
      v' := ReturnToSystem(protect, s, v, s', t);
    }
  }

  lemma {:induction false} RunKeeps(protect: bool, s: State, v: View, t: nat, raw: Ptr) returns (v': View)
    requires Inv(protect, s, v) && CanRun(s, t) && (raw.At? ==> raw.addr !in s.hdr)
    ensures Inv(protect, Exec(protect, s, t, raw), v')
    ensures ActiveAfter(s, v, Exec(protect, s, t, raw), v', t) && FreeAfter(v, v', Pc(s, t))
  {
    ActingFacts(protect, s, v, t);
    var s' := Exec(protect, s, t, raw);
    assert !Pc(s, t).Obtain? ==> s' == Exec(protect, s, t, Null);
    match Pc(s, t)
    case Pop(_, _) => v' := PopKeeps(protect, s, v, t);
    case Obtain(_, _) => v' := ObtainKeeps(protect, s, v, t, raw);
    case ActivePublish(_, _) => v' := PublishActive(protect, s, v, s', t);
    case ActiveUnlock(_, _) => v' := ReturnToClient(protect, s, v, s', t);
    case Walk(_, _) => v' := WalkKeeps(protect, s, v, t);
    case Classify(_) => v' := ClassifyKeeps(protect, s, v, t);
    case PushPublish(_, _) => v' := PublishFree(protect, s, v, s', t);
    case _ => RunInPlace(protect, s, v, t); v' := v;
  }

  // The statements that move no block.
  lemma {:induction false} RunInPlace(protect: bool, s: State, v: View, t: nat)
    requires Inv(protect, s, v) && CanRun(s, t)
    requires var pc := Pc(s, t);
      !(pc.Pop? || pc.Obtain? || pc.ActivePublish? || pc.ActiveUnlock? || pc.Walk? || pc.Classify? || pc.PushPublish?)
    ensures Inv(protect, Exec(protect, s, t, Null), v)
  {
    match Pc(s, t)
    case InitHeader(_, _) => InitKeeps(protect, s, v, t);
    case ActiveLink(_, _) => ActiveLinkKeeps(protect, s, v, t);
    case Check(_) => CheckKeeps(protect, s, v, t);
    case Mark(_) => ActingFacts(protect, s, v, t); MarkKeeps(protect, s, v, Exec(protect, s, t, Null), t);
    case PushLink(_, _) => PushLinkKeeps(protect, s, v, t);
    case PopLock(_, _) => ClassLockKeeps(protect, s, v, t);
    case PushLock(_, _) => ClassLockKeeps(protect, s, v, t);
    case PopUnlock(_, _, _) => ClassUnlockKeeps(protect, s, v, t);
    case PushUnlock(_) => ClassUnlockKeeps(protect, s, v, t);
    case _ => GlobalLockKeeps(protect, s, v, t);
  }

  // A client writes into a block it holds, perhaps over the tail guard.
  lemma {:induction false} WriteKeeps(protect: bool, s: State, v: View, s': State, b: nat, upto: nat, intact: bool)
    requires Inv(protect, s, v) && b in s.live && b in s.hdr
    requires s' == s.(hdr := s.hdr[b := Written(s.hdr[b], upto, intact)])
    ensures Inv(protect, s', v)
  {
    // No thread moves, so a thread that does not exist may stand for the acting one.
    FreshExists(s.pcs.Keys);
    var u: nat :| u !in s.pcs.Keys;
    ActingFacts(protect, s, v, u);
    assert BlockOk(protect, s, v, b);
    WritePost(protect, s, v, s', u, b);
    ListsFrame(s, v, s', v);
    PlaceStep(protect, s, v, s', v, u, b);
  }

  lemma {:induction false} WritePost(protect: bool, s: State, v: View, s': State, u: nat, b: nat)
    requires Acting(protect, s, v, u) && Pc(s, u).Idle? && b in s.live && b in s.hdr
    requires v.place[b] == Active(Client) && Usable(protect, s.hdr[b])
    requires s' == s.(hdr := s'.hdr) && s'.hdr.Keys == s.hdr.Keys
    requires forall x :: x in s.hdr ==> s'.hdr[x] == if x == b then s.hdr[b].(tail := s'.hdr[b].tail) else s.hdr[x]
    ensures StepPost(protect, s, v, s', v, u, b)
  {
  }

  /** The invariant survives every step of every thread and every client that keeps to the
      bytes of its blocks. */
  lemma {:induction false} EveryStepKeeps(protect: bool, s: State, v: View, t: nat, e: Event, s': State) returns (v': View)
    requires Inv(protect, s, v) && Step(protect, s, t, e, s')
    ensures Inv(protect, s', v')
    ensures if e.Run? then ActiveAfter(s, v, s', v', t) && FreeAfter(v, v', Pc(s, t))
            else v'.active == v.active && v'.free == v.free
  {
    match e
    case StartAlloc(n) =>
      ActingFacts(protect, s, v, t);
      ClassFromFirst(n, 0);
      ControlStep(protect, s, v, s', t);
      v' := v;
    case StartFree(b) =>
      v' := ClientFrees(protect, s, v, s', t, b);
    case Run(raw) =>
      v' := RunKeeps(protect, s, v, t, raw);
    case ClientWrite(b, upto, intact) =>
      WriteKeeps(protect, s, v, s', b, upto, intact);
      v' := v;
  }
}
