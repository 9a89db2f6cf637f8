/**
 Which block a call gets or gives back. An allocation takes the block on top of its class's
 free list, and asks the system for memory only if that list was empty when it looked; a
 freed block goes on top of the list of its class, and back to the system only if it is too
 large for any class.
 */
module SlabPoolReuse {
  import opened Lists
  import opened SlabPool
  import opened SlabPoolSafety
  import opened SlabPoolRuns
  import opened SlabPoolProgress

  // ---------------------------------------------------------------- what a thread was asked to do

  // The last call thread t made before act k; Run(Null) if it made none.
  ghost function LastCall(acts: seq<Act>, t: nat, k: nat): Event
    requires k <= |acts|
    decreases k
  {
    if k == 0 then Run(Null)
    else if acts[k-1].t == t && (acts[k-1].e.StartAlloc? || acts[k-1].e.StartFree?) then acts[k-1].e
    else LastCall(acts, t, k - 1)
  }

  // The statement at pc belongs to call e.
  predicate Serves(pc: PC, e: Event) {
    match pc
    case Idle => true
    case PopLock(_, n) => e == StartAlloc(n)
    case Pop(_, n) => e == StartAlloc(n)
    case PopUnlock(_, n, _) => e == StartAlloc(n)
    case Obtain(n, _) => e == StartAlloc(n)
    case InitHeader(_, n) => e == StartAlloc(n)
    case ActiveLock(_, n) => e == StartAlloc(n)
    case ActiveLink(_, n) => e == StartAlloc(n)
    case ActivePublish(_, n) => e == StartAlloc(n)
    case ActiveUnlock(_, n) => e == StartAlloc(n)
    case FreeLock(b) => e == StartFree(b)
    case Check(b) => e == StartFree(b)
    case Mark(b) => e == StartFree(b)
    case Walk(b, _) => e == StartFree(b)
    case FreeUnlock(b) => e == StartFree(b)
    case Classify(b) => e == StartFree(b)
    case PushLock(b, _) => e == StartFree(b)
    case PushLink(b, _) => e == StartFree(b)
    case PushPublish(b, _) => e == StartFree(b)
    case PushUnlock(_) => e.StartFree?
  }

  lemma {:induction false} ServesStep(protect: bool, s: State, t: nat, raw: Ptr, e: Event)
    requires |s.slabs| == |s.locks| == CLASSES && CanRun(s, t) && Serves(Pc(s, t), e)
    ensures Serves(Pc(Exec(protect, s, t, raw), t), e)
  {
  }

  /** In every state of every run each thread is serving the last call it made, for the size
      or the block that call named. */
  lemma {:induction false} EveryCallServed(protect: bool, ss: seq<State>, acts: seq<Act>, k: nat, t: nat)
    requires IsRun(protect, ss, acts) && k < |ss|
    ensures Serves(Pc(ss[k], t), LastCall(acts, t, k))
    decreases k
  {
    if k > 0 {
      EveryCallServed(protect, ss, acts, k - 1, t);
      assert StepAt(protect, ss, acts, k - 1);
      var a := acts[k-1];
      if a.e.Run? {
        if a.t == t {
          ServesStep(protect, ss[k-1], t, a.e.raw, LastCall(acts, t, k - 1));
        } else {
          ExecOthers(protect, ss[k-1], a.t, a.e.raw);
        }
      }
    }
  }

  // ---------------------------------------------------------------- the block an allocation gets

  // The call is past its look at the free list of its class.
  predicate HasPopped(pc: PC) {
    pc.PopUnlock? || pc.Obtain? || pc.InitHeader? || pc.ActiveLock? || pc.ActiveLink? || pc.ActivePublish? || pc.ActiveUnlock?
  }

  // What a call past its look has in hand, if the list it looked at started with head.
  predicate FromHead(pc: PC, head: Ptr) {
    match pc
    case PopUnlock(_, _, got) => got == head
    case Obtain(_, got) => got == head
    case InitHeader(b, _) => head == Null || head == At(b)
    case ActiveLock(b, _) => head == Null || head == At(b)
    case ActiveLink(b, _) => head == Null || head == At(b)
    case ActivePublish(b, _) => head == Null || head == At(b)
    case ActiveUnlock(b, _) => head == Null || head == At(b)
    case _ => false
  }

  // Act j is the look of t's present call, for n bytes, at the free list of its class.
  ghost predicate LookedAt(ss: seq<State>, acts: seq<Act>, t: nat, n: nat, j: nat, k: nat)
    requires |ss| == |acts| + 1 && k <= |acts|
  {
    && j < k && acts[j].t == t && acts[j].e.Run? && Pc(ss[j], t) == Pop(ClassOf(n), n)
    && SameCall(acts, j + 1, k, t)
  }

  // The look itself takes what the list starts with.
  lemma {:induction false} LookTakesHead(protect: bool, s: State, v: View, t: nat, raw: Ptr)
    requires Inv(protect, s, v) && Pc(s, t).Pop?
    ensures var i := Pc(s, t).i;
      && i < CLASSES && i == ClassOf(Pc(s, t).n)
      && s.slabs[i] == (if v.free[i] == [] then Null else At(v.free[i][0]))
      && Pc(Exec(protect, s, t, raw), t) == PopUnlock(i, Pc(s, t).n, s.slabs[i])
  {
    assert ThreadOk(protect, s, v, t);
    assert Chain(v.free[Pc(s, t).i], s.slabs[Pc(s, t).i], s.hdr);
  }

  lemma {:induction false} PastLook(protect: bool, s: State, t: nat, raw: Ptr, head: Ptr)
    requires |s.slabs| == |s.locks| == CLASSES && CanRun(s, t) && HasPopped(Pc(Exec(protect, s, t, raw), t)) && !Pc(s, t).Pop?
    ensures HasPopped(Pc(s, t)) && Pc(s, t).n == Pc(Exec(protect, s, t, raw), t).n
    ensures FromHead(Pc(s, t), head) ==> FromHead(Pc(Exec(protect, s, t, raw), t), head)
  {
  }

  /** Every allocation of a size that has a class looks at the free list of that class, once,
      and what it has in hand afterwards is what that list started with. */
  lemma {:induction false} CallLooked(protect: bool, ss: seq<State>, acts: seq<Act>, k: nat, t: nat) returns (j: nat)
    requires IsRun(protect, ss, acts) && k < |ss| && HasPopped(Pc(ss[k], t)) && Pc(ss[k], t).n <= MAX_SIZE
    ensures ClassOf(Pc(ss[k], t).n) < CLASSES && LookedAt(ss, acts, t, Pc(ss[k], t).n, j, k)
    ensures ClassOf(Pc(ss[k], t).n) < |ss[j].slabs| && FromHead(Pc(ss[k], t), ss[j].slabs[ClassOf(Pc(ss[k], t).n)])
    decreases k
  {
    RoundingBounds(Pc(ss[k], t).n);
    var n := Pc(ss[k], t).n;
    LookOrPast(protect, ss, acts, k - 1, t);
    if Pc(ss[k-1], t) == Pop(ClassOf(n), n) {
      j := k - 1;
    } else {
      j := CallLooked(protect, ss, acts, k - 1, t);
      StillFromHead(protect, ss, acts, k - 1, t, ss[j].slabs[ClassOf(n)]);
    }
  }

  // The act before: the look itself, or a later one of the same call, or another thread's.
  lemma {:induction false} LookOrPast(protect: bool, ss: seq<State>, acts: seq<Act>, k: nat, t: nat)
    requires IsRun(protect, ss, acts) && k < |acts| && HasPopped(Pc(ss[k+1], t)) && Pc(ss[k+1], t).n <= MAX_SIZE
    ensures var n := Pc(ss[k+1], t).n;
      if Pc(ss[k], t) == Pop(ClassOf(n), n) then
        && acts[k].t == t && acts[k].e.Run? && ClassOf(n) < |ss[k].slabs| && FromHead(Pc(ss[k+1], t), ss[k].slabs[ClassOf(n)])
      else
        && HasPopped(Pc(ss[k], t)) && Pc(ss[k], t).n == n
        && (acts[k].t == t ==> acts[k].e.Run? || acts[k].e.ClientWrite?)
  {
    assert StepAt(protect, ss, acts, k);
    var a := acts[k];
    RoundingBounds(Pc(ss[k+1], t).n);
    if a.t == t && a.e.Run? {
      if Pc(ss[k], t).Pop? {
        var v := EveryStateSafe(protect, ss, acts, k);
        LookTakesHead(protect, ss[k], v, t, a.e.raw);
      } else {
        PastLook(protect, ss[k], t, a.e.raw, Null);
      }
    } else if a.e.Run? {
      ExecOthers(protect, ss[k], a.t, a.e.raw);
    }
  }

  lemma {:induction false} StillFromHead(protect: bool, ss: seq<State>, acts: seq<Act>, k: nat, t: nat, head: Ptr)
    requires IsRun(protect, ss, acts) && k < |acts| && HasPopped(Pc(ss[k], t)) && HasPopped(Pc(ss[k+1], t)) && FromHead(Pc(ss[k], t), head)
    requires acts[k].t == t ==> acts[k].e.Run? || acts[k].e.ClientWrite?
    ensures FromHead(Pc(ss[k+1], t), head)
  {
    assert StepAt(protect, ss, acts, k);
    if acts[k].e.Run? {
      if acts[k].t == t {
        PastLook(protect, ss[k], t, acts[k].e.raw, head);
      } else {
        ExecOthers(protect, ss[k], acts[k].t, acts[k].e.raw);
      }
    }
  }

  /** When an allocation returns, it returns a block for the size it was asked for: if the free
      list of its class was not empty when the call looked, the block on top of that list. */
  lemma {:induction false} HandsOutTop(protect: bool, ss: seq<State>, acts: seq<Act>, k: nat, w: View) returns (j: nat)
    requires IsRun(protect, ss, acts) && k < |acts| && acts[k].e.Run? && Pc(ss[k], acts[k].t).ActiveUnlock?
    requires Pc(ss[k], acts[k].t).n <= MAX_SIZE
    ensures var t, b, n := acts[k].t, Pc(ss[k], acts[k].t).b, Pc(ss[k], acts[k].t).n;
      && LastCall(acts, t, k) == StartAlloc(n)
      && b !in ss[k].live && ss[k+1].live == ss[k].live + {b}
      && LookedAt(ss, acts, t, n, j, k)
      && (Inv(protect, ss[j], w) ==> w.free[ClassOf(n)] == [] || b == w.free[ClassOf(n)][0])
  {
    var t := acts[k].t;
    var v := EveryStateSafe(protect, ss, acts, k);
    assert StepAt(protect, ss, acts, k);
    EveryCallServed(protect, ss, acts, k, t);
    HandedOutOnce(protect, ss[k], v, t);
    j := CallLooked(protect, ss, acts, k, t);
    if Inv(protect, ss[j], w) { LookTakesHead(protect, ss[j], w, t, Null); }
  }

  /** Memory is obtained from the system for a size that has a class only if the free list of
      that class was empty when the call looked. */
  lemma {:induction false} ObtainsIfEmpty(protect: bool, ss: seq<State>, acts: seq<Act>, k: nat, b: nat) returns (j: nat)
    requires IsRun(protect, ss, acts) && k < |acts| && b !in ss[k].hdr && b in ss[k+1].hdr
    ensures var t := acts[k].t;
      && acts[k].e == Run(At(b)) && Pc(ss[k], t).Obtain? && LastCall(acts, t, k) == StartAlloc(Pc(ss[k], t).n)
      && var n := Pc(ss[k], t).n;
         n <= MAX_SIZE ==> LookedAt(ss, acts, t, n, j, k) && ClassOf(n) < |ss[j].slabs| && ss[j].slabs[ClassOf(n)] == Null
  {
    var t := acts[k].t;
    assert StepAt(protect, ss, acts, k);
    KeysGrow(protect, ss[k], acts[k], ss[k+1], b);
    EveryCallServed(protect, ss, acts, k, t);
    j := 0;
    if Pc(ss[k], t).n <= MAX_SIZE { j := CallLooked(protect, ss, acts, k, t); }
  }

  lemma {:induction false} KeysGrow(protect: bool, s: State, a: Act, s': State, b: nat)
    requires Step(protect, s, a.t, a.e, s') && b !in s.hdr && b in s'.hdr
    ensures a.e == Run(At(b)) && Pc(s, a.t).Obtain? && Pc(s, a.t).got == Null
  {
  }

  /** An allocation ends only by handing out its block, or because it had nothing in hand and
      the system had no memory. */
  lemma {:induction false} AllocEnds(protect: bool, ss: seq<State>, acts: seq<Act>, k: nat, t: nat)
    requires IsRun(protect, ss, acts) && k < |acts| && IsAlloc(Pc(ss[k], t)) && !IsAlloc(Pc(ss[k+1], t))
    ensures acts[k].t == t && Pc(ss[k+1], t).Idle?
    ensures (Pc(ss[k], t).ActiveUnlock? && acts[k].e.Run? && ss[k+1].live == ss[k].live + {Pc(ss[k], t).b})
         || (Pc(ss[k], t).Obtain? && Pc(ss[k], t).got == Null && acts[k].e == Run(Null))
  {
    assert StepAt(protect, ss, acts, k);
    if acts[k].e.Run? {
      if acts[k].t == t {
        ExecAllocEnds(protect, ss[k], t, acts[k].e.raw);
      } else {
        ExecOthers(protect, ss[k], acts[k].t, acts[k].e.raw);
      }
    }
  }

  lemma {:induction false} ExecAllocEnds(protect: bool, s: State, t: nat, raw: Ptr)
    requires |s.slabs| == |s.locks| == CLASSES && CanRun(s, t) && IsAlloc(Pc(s, t)) && !IsAlloc(Pc(Exec(protect, s, t, raw), t))
    ensures Pc(Exec(protect, s, t, raw), t).Idle?
    ensures (Pc(s, t).ActiveUnlock? && Exec(protect, s, t, raw).live == s.live + {Pc(s, t).b})
         || (Pc(s, t).Obtain? && Pc(s, t).got == Null && raw == Null)
  {
  }

  // ---------------------------------------------------------------- the block a free gives back

  /** A block leaves the pool for the system only if it is too large for any class. */
  lemma {:induction false} OnlyOversizedLeave(protect: bool, ss: seq<State>, acts: seq<Act>, k: nat, b: nat)
    requires IsRun(protect, ss, acts) && k < |acts| && b in ss[k].hdr && b !in ss[k+1].hdr
    ensures LastCall(acts, acts[k].t, k) == StartFree(b) && ss[k].hdr[b].size > MAX_SIZE
  {
    assert StepAt(protect, ss, acts, k);
    KeysShrink(protect, ss[k], acts[k], ss[k+1], b);
    EveryCallServed(protect, ss, acts, k, acts[k].t);
    RoundingBounds(ss[k].hdr[b].size);
  }

  lemma {:induction false} KeysShrink(protect: bool, s: State, a: Act, s': State, b: nat)
    requires Step(protect, s, a.t, a.e, s') && b in s.hdr && b !in s'.hdr
    ensures a.e.Run? && Pc(s, a.t) == Classify(b) && ClassOf(s.hdr[b].size) == CLASSES
  {
    ClassFromFirst(s.hdr[b].size, 0);
  }

  lemma {:induction false} ChainUniqueFree(protect: bool, s: State, v: View, w: View)
    requires Inv(protect, s, v) && Inv(protect, s, w)
    ensures v.free == w.free
  {
    forall i | 0 <= i < CLASSES ensures v.free[i] == w.free[i] {
      assert Chain(v.free[i], s.slabs[i], s.hdr) && Chain(w.free[i], s.slabs[i], s.hdr);
      ChainUnique(v.free[i], w.free[i], s.slabs[i], s.hdr);
    }
  }

  /** The free lists are stacks: over every act of every run a list changes only by the block
      that a free puts on its top, or by the block an allocation takes from there. */
  lemma {:induction false} FreeListsAreStacks(protect: bool, ss: seq<State>, acts: seq<Act>, k: nat, v: View, w: View)
    requires IsRun(protect, ss, acts) && k < |acts| && Inv(protect, ss[k], v) && Inv(protect, ss[k+1], w)
    ensures if acts[k].e.Run? then FreeAfter(v, w, Pc(ss[k], acts[k].t)) else w.free == v.free
  {
    assert StepAt(protect, ss, acts, k);
    var x := EveryStepKeeps(protect, ss[k], v, acts[k].t, acts[k].e, ss[k+1]);
    ChainUniqueFree(protect, ss[k+1], x, w);
  }

  // The acts from k up to l are all statements of t.
  ghost predicate OwnRuns(acts: seq<Act>, t: nat, k: nat, l: nat)
    requires l <= |acts|
  {
    forall j :: k <= j < l ==> acts[j].t == t && acts[j].e.Run?
  }

  /** Freeing a block and allocating a size of its class right after, with no statement of
      another thread in between, hands out the same block again. */
  lemma {:induction false} FreeThenAlloc(protect: bool, ss: seq<State>, acts: seq<Act>, k: nat, t: nat, b: nat, i: nat, n: nat)
    requires IsRun(protect, ss, acts) && k + 12 <= |acts| && Pc(ss[k], t) == PushPublish(b, i) && ClassOf(n) == i
    requires OwnRuns(acts, t, k, k + 2) && acts[k+2] == Act(t, StartAlloc(n)) && OwnRuns(acts, t, k + 3, k + 12)
    ensures LastCall(acts, t, k) == StartFree(b) && Pc(ss[k+12], t) == Idle && b in ss[k+12].live
  {
    EveryCallServed(protect, ss, acts, k, t);
    PublishThenStart(protect, ss, acts, k, t, b, i, n);
    TakeFromTop(protect, ss, acts, k + 3, t, b, i, n);
    HandOut(protect, ss, acts, k + 7, t, b, n);
  }

  lemma {:induction false} PublishThenStart(protect: bool, ss: seq<State>, acts: seq<Act>, k: nat, t: nat, b: nat, i: nat, n: nat)
    requires IsRun(protect, ss, acts) && k + 3 <= |acts| && Pc(ss[k], t) == PushPublish(b, i) && ClassOf(n) == i
    requires OwnRuns(acts, t, k, k + 2) && acts[k+2] == Act(t, StartAlloc(n))
    ensures i < CLASSES == |ss[k+3].slabs| && Pc(ss[k+3], t) == PopLock(i, n) && ss[k+3].slabs[i] == At(b)
  {
    ClassInRange(protect, ss, acts, k, t);
    assert StepAt(protect, ss, acts, k);
    assert Pc(ss[k+1], t) == PushUnlock(i) && ss[k+1].slabs[i] == At(b);
    assert StepAt(protect, ss, acts, k + 1);
    assert Pc(ss[k+2], t) == Idle && ss[k+2].slabs[i] == At(b);
    assert StepAt(protect, ss, acts, k + 2);
  }

  lemma {:induction false} ClassInRange(protect: bool, ss: seq<State>, acts: seq<Act>, k: nat, t: nat)
    requires IsRun(protect, ss, acts) && k < |ss| && Pc(ss[k], t).PushPublish?
    ensures Pc(ss[k], t).i < CLASSES
  {
    var v := EveryStateSafe(protect, ss, acts, k);
    assert ThreadOk(protect, ss[k], v, t);
  }

  lemma {:induction false} TakeFromTop(protect: bool, ss: seq<State>, acts: seq<Act>, k: nat, t: nat, b: nat, i: nat, n: nat)
    requires IsRun(protect, ss, acts) && k + 4 <= |acts| && OwnRuns(acts, t, k, k + 4)
    requires i < CLASSES == |ss[k].slabs| && Pc(ss[k], t) == PopLock(i, n) && ss[k].slabs[i] == At(b)
    ensures Pc(ss[k+4], t) == InitHeader(b, n)
  {
    assert StepAt(protect, ss, acts, k);
    assert Pc(ss[k+1], t) == Pop(i, n) && ss[k+1].slabs[i] == At(b);
    LookAt(protect, ss, acts, k + 1, t);
    assert StepAt(protect, ss, acts, k + 2);
    assert Pc(ss[k+3], t) == Obtain(n, At(b));
    assert StepAt(protect, ss, acts, k + 3);
  }

  lemma {:induction false} LookAt(protect: bool, ss: seq<State>, acts: seq<Act>, k: nat, t: nat)
    requires IsRun(protect, ss, acts) && k < |acts| && acts[k].t == t && acts[k].e.Run? && Pc(ss[k], t).Pop?
    ensures var pc := Pc(ss[k], t); pc.i < |ss[k].slabs| && Pc(ss[k+1], t) == PopUnlock(pc.i, pc.n, ss[k].slabs[pc.i])
  {
    var v := EveryStateSafe(protect, ss, acts, k);
    LookTakesHead(protect, ss[k], v, t, acts[k].e.raw);
    assert StepAt(protect, ss, acts, k);
  }

  lemma {:induction false} HandOut(protect: bool, ss: seq<State>, acts: seq<Act>, k: nat, t: nat, b: nat, n: nat)
    requires IsRun(protect, ss, acts) && k + 5 <= |acts| && Pc(ss[k], t) == InitHeader(b, n) && OwnRuns(acts, t, k, k + 5)
    ensures Pc(ss[k+5], t) == Idle && b in ss[k+5].live
  {
    InHandOwned(protect, ss, acts, k, t);
    assert StepAt(protect, ss, acts, k);
    assert Pc(ss[k+1], t) == ActiveLock(b, n) && b in ss[k+1].hdr;
    assert StepAt(protect, ss, acts, k + 1);
    assert Pc(ss[k+2], t) == ActiveLink(b, n) && b in ss[k+2].hdr;
    assert StepAt(protect, ss, acts, k + 2);
    assert Pc(ss[k+3], t) == ActivePublish(b, n);
    assert StepAt(protect, ss, acts, k + 3);
    assert Pc(ss[k+4], t) == ActiveUnlock(b, n);
    assert StepAt(protect, ss, acts, k + 4);
  }

  lemma {:induction false} InHandOwned(protect: bool, ss: seq<State>, acts: seq<Act>, k: nat, t: nat)
    requires IsRun(protect, ss, acts) && k < |ss| && Pc(ss[k], t).InitHeader?
    ensures Pc(ss[k], t).b in ss[k].hdr
  {
    var v := EveryStateSafe(protect, ss, acts, k);
    assert ThreadOk(protect, ss[k], v, t);
  }

  // ---------------------------------------------------------------- freeing twice

  /** Freeing a block that is already on a free list is noticed: whichever thread comes to
      check it, the program aborts. */
  lemma {:induction false} DoubleFreeAborts(protect: bool, ss: seq<State>, acts: seq<Act>, k: nat, v: View, i: nat, b: nat, t: nat, raw: Ptr)
    requires IsRun(protect, ss, acts) && k < |ss| && Inv(protect, ss[k], v) && i < CLASSES && b in v.free[i]
    ensures |ss[k].slabs| == |ss[k].locks| == CLASSES
    ensures Exec(protect, Goto(ss[k], t, Check(b)), t, raw).aborted
  {
    ListedDead(protect, ss[k], v, i, b);
    DeadChecked(protect, Goto(ss[k], t, Check(b)), t, b, raw);
  }

  lemma {:induction false} ListedDead(protect: bool, s: State, v: View, i: nat, b: nat)
    requires Inv(protect, s, v) && i < CLASSES && b in v.free[i]
    ensures b in s.hdr && s.hdr[b].freed
  {
    PlacedFree(s, v, i, b);
    assert BlockOk(protect, s, v, b);
  }

  lemma {:induction false} DeadChecked(protect: bool, s: State, t: nat, b: nat, raw: Ptr)
    requires |s.slabs| == |s.locks| == CLASSES && Pc(s, t) == Check(b) && b in s.hdr && s.hdr[b].freed
    ensures Exec(protect, s, t, raw).aborted
  {
  }
}
