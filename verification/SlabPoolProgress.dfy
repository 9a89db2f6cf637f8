/**
 How long calls of the slab pool take. Every call has a bounded number of statements left
 once its list cannot grow any more, and as long as no new calls are made every statement of
 every thread uses up part of one measure, in every schedule.
 */
module SlabPoolProgress {
  import opened Lists
  import opened SlabPool
  import opened SlabPoolSafety
  import opened SlabPoolRuns

  // ---------------------------------------------------------------- statements left

  // How many statements a thread has left at most: f is the active list, and room is how long
  // the list may still become before a thread that frees has the global lock.
  ghost function Left(f: seq<nat>, room: nat, pc: PC): nat {
    match pc
    case Idle => 0
    case PopLock(_, _) => 9
    case Pop(_, _) => 8
    case PopUnlock(_, _, _) => 7
    case Obtain(_, _) => 6
    case InitHeader(_, _) => 5
    case ActiveLock(_, _) => 4
    case ActiveLink(_, _) => 3
    case ActivePublish(_, _) => 2
    case ActiveUnlock(_, _) => 1
    case FreeLock(_) => 10 + room
    case Check(_) => 9 + room
    case Mark(_) => 8 + room
    case Walk(_, l) => if CursorIndex(f, l) <= |f| then 7 + |f| - CursorIndex(f, l) else 7
    case FreeUnlock(_) => 6
    case Classify(_) => 5
    case PushLock(_, _) => 4
    case PushLink(_, _) => 3
    case PushPublish(_, _) => 2
    case PushUnlock(_) => 1
  }

  // The thread holds the global lock and its list is fixed, or its walk is still to come.
  predicate Frees(pc: PC) {
    pc.Check? || pc.Mark? || pc.Walk?
  }

  /** A statement of the thread uses up at least one of the statements it has left. */
  lemma {:induction false} OwnLeft(protect: bool, s: State, v: View, t: nat, raw: Ptr, v': View, room: nat, room': nat)
    requires |s.slabs| == |s.locks| == CLASSES && CanRun(s, t) && ThreadOk(protect, s, v, t)
    requires ActiveAfter(s, v, Exec(protect, s, t, raw), v', t) && !Exec(protect, s, t, raw).aborted
    requires |v.active| <= room && (Pc(s, t).FreeLock? || Pc(s, t).Check? ==> room' <= room)
    ensures Left(v'.active, room', Pc(Exec(protect, s, t, raw), t)) < Left(v.active, room, Pc(s, t))
  {
    if IsAlloc(Pc(s, t)) {
      AllocLeft(protect, s, v, t, raw, v'.active, room');
    } else if Pc(s, t).FreeLock? || Frees(Pc(s, t)) {
      FreeLeft(protect, s, v, t, raw, v', room, room');
    } else {
      PushLeft(protect, s, v, t, raw, v'.active, room');
    }
  }

  predicate IsAlloc(pc: PC) {
    pc.PopLock? || pc.Pop? || pc.PopUnlock? || pc.Obtain? || pc.InitHeader? || pc.ActiveLock? || pc.ActiveLink?
    || pc.ActivePublish? || pc.ActiveUnlock?
  }

  lemma {:induction false} AllocLeft(protect: bool, s: State, v: View, t: nat, raw: Ptr, f: seq<nat>, room: nat)
    requires |s.slabs| == |s.locks| == CLASSES && CanRun(s, t) && ThreadOk(protect, s, v, t) && IsAlloc(Pc(s, t))
    ensures var pc := Pc(Exec(protect, s, t, raw), t);
      (IsAlloc(pc) || pc.Idle?) && Left(f, room, pc) < Left([], 0, Pc(s, t))
  {
  }

  lemma {:induction false} FreeLeft(protect: bool, s: State, v: View, t: nat, raw: Ptr, v': View, room: nat, room': nat)
    requires |s.slabs| == |s.locks| == CLASSES && CanRun(s, t) && ThreadOk(protect, s, v, t)
    requires Pc(s, t).FreeLock? || Frees(Pc(s, t))
    requires ActiveAfter(s, v, Exec(protect, s, t, raw), v', t) && !Exec(protect, s, t, raw).aborted
    requires |v.active| <= room && (Pc(s, t).FreeLock? || Pc(s, t).Check? ==> room' <= room)
    ensures Left(v'.active, room', Pc(Exec(protect, s, t, raw), t)) < Left(v.active, room, Pc(s, t))
  {
    var pc := Pc(Exec(protect, s, t, raw), t);
    match Pc(s, t)
    case FreeLock(b) => assert pc == Check(b);
    case Check(b) => assert pc == Mark(b);
    case Mark(b) => assert pc == Walk(b, Head);
    case Walk(_, _) =>
  }

  lemma {:induction false} PushLeft(protect: bool, s: State, v: View, t: nat, raw: Ptr, f: seq<nat>, room: nat)
    requires |s.slabs| == |s.locks| == CLASSES && CanRun(s, t) && ThreadOk(protect, s, v, t)
    requires !IsAlloc(Pc(s, t)) && !Pc(s, t).FreeLock? && !Frees(Pc(s, t))
    ensures Left(f, room, Pc(Exec(protect, s, t, raw), t)) < Left([], 0, Pc(s, t))
  {
  }

  /** A statement of another thread leaves the walk of a thread that holds the lock alone. */
  lemma {:induction false} OtherLeft(protect: bool, s: State, v: View, t: nat, s': State, v': View, u: nat, room: nat, room': nat)
    requires Inv(protect, s, v) && u != t && Pc(s', u) == Pc(s, u) && ActiveAfter(s, v, s', v', t)
    requires room' <= room || !(Pc(s, u).FreeLock? || Pc(s, u).Check? || Pc(s, u).Mark?)
    ensures Left(v'.active, room', Pc(s', u)) <= Left(v.active, room, Pc(s, u))
  {
    if Pc(s, u).Walk? {
      assert HoldsGlobal(Pc(s, u)) && s.glb == Held(u);
      assert !HoldsGlobal(Pc(s, t));
    }
  }

  // ---------------------------------------------------------------- the active list of a state

  lemma {:induction false} ChainUnique(f: seq<nat>, g: seq<nat>, p: Ptr, hdr: map<nat, Header>)
    requires Chain(f, p, hdr) && Chain(g, p, hdr)
    ensures f == g
  {
    if f != [] {
      ChainUnique(f[1..], g[1..], hdr[f[0]].next, hdr);
      assert f == [f[0]] + f[1..] && g == [g[0]] + g[1..];
    }
  }

  ghost predicate IsActiveList(f: seq<nat>, s: State) {
    Chain(f, s.active, s.hdr)
  }

  /** Every state of a run has exactly one active list, the one of its views. */
  lemma {:induction false} ActiveListAt(protect: bool, ss: seq<State>, acts: seq<Act>, k: nat) returns (f: seq<nat>)
    requires IsRun(protect, ss, acts) && k < |ss|
    ensures IsActiveList(f, ss[k]) && forall g :: IsActiveList(g, ss[k]) ==> g == f
  {
    var v := EveryStateSafe(protect, ss, acts, k);
    f := v.active;
    forall g | IsActiveList(g, ss[k]) ensures g == f { ChainUnique(g, f, ss[k].active, ss[k].hdr); }
  }

  // ---------------------------------------------------------------- one call

  lemma {:induction false} LeftAtMost(f: seq<nat>, pc: PC)
    requires !pc.FreeLock?
    ensures Left(f, |f|, pc) <= 9 + (if Frees(pc) then |f| else 0)
  {
  }

  // How many of the acts from k up to l are statements of t.
  ghost function StatementsOf(acts: seq<Act>, k: nat, l: nat, t: nat): nat
    requires l <= |acts|
    decreases l
  {
    if l <= k then 0
    else StatementsOf(acts, k, l - 1, t) + (if acts[l-1].t == t && acts[l-1].e.Run? then 1 else 0)
  }

  // Thread t starts no call in the acts from k up to l.
  ghost predicate SameCall(acts: seq<Act>, k: nat, l: nat, t: nat)
    requires l <= |acts|
    decreases l
  {
    l <= k || (SameCall(acts, k, l - 1, t) && (acts[l-1].t == t ==> acts[l-1].e.Run? || acts[l-1].e.ClientWrite?))
  }

  /** The statements one thread still has to execute in its call, if it is not waiting to
      free: at most nine for an allocation, at most nine more than the active list has blocks
      for a free that has the lock, whatever other threads do meanwhile. */
  lemma {:induction false} CallBounded(protect: bool, ss: seq<State>, acts: seq<Act>, k: nat, l: nat, t: nat, f: seq<nat>, g: seq<nat>)
    requires IsRun(protect, ss, acts) && k <= l < |ss| && SameCall(acts, k, l, t) && !ss[l].aborted
    requires IsActiveList(f, ss[k]) && IsActiveList(g, ss[l]) && !Pc(ss[k], t).FreeLock?
    ensures !Pc(ss[l], t).FreeLock?
    ensures StatementsOf(acts, k, l, t) + Left(g, |g|, Pc(ss[l], t)) <= Left(f, |f|, Pc(ss[k], t))
    ensures StatementsOf(acts, k, l, t) <= 9 + (if Frees(Pc(ss[k], t)) then |f| else 0)
    decreases l
  {
    LeftAtMost(f, Pc(ss[k], t));
    if k == l {
      ChainUnique(f, g, ss[k].active, ss[k].hdr);
    } else {
      var x := ActiveListAt(protect, ss, acts, l - 1);
      NotAborted(protect, ss, acts, l - 1);
      CallBounded(protect, ss, acts, k, l - 1, t, f, x);
      CallAt(protect, ss, acts, l - 1, x, g, t);
    }
  }

  // A run does not go on after an abort.
  lemma {:induction false} NotAborted(protect: bool, ss: seq<State>, acts: seq<Act>, k: nat)
    requires IsRun(protect, ss, acts) && k < |acts|
    ensures !ss[k].aborted
  {
    assert StepAt(protect, ss, acts, k);
  }

  lemma {:induction false} CallAt(protect: bool, ss: seq<State>, acts: seq<Act>, k: nat, f: seq<nat>, g: seq<nat>, t: nat)
    requires IsRun(protect, ss, acts) && k < |acts| && !ss[k+1].aborted && !Pc(ss[k], t).FreeLock?
    requires acts[k].t == t ==> acts[k].e.Run? || acts[k].e.ClientWrite?
    requires IsActiveList(f, ss[k]) && IsActiveList(g, ss[k+1])
    ensures !Pc(ss[k+1], t).FreeLock?
    ensures Left(g, |g|, Pc(ss[k+1], t)) + (if acts[k].t == t && acts[k].e.Run? then 1 else 0) <= Left(f, |f|, Pc(ss[k], t))
  {
    assert StepAt(protect, ss, acts, k);
    var v := EveryStateSafe(protect, ss, acts, k);
    ChainUnique(f, v.active, ss[k].active, ss[k].hdr);
    CallStep(protect, ss[k], v, acts[k], ss[k+1], g, t);
  }

  lemma {:induction false} CallStep(protect: bool, s: State, v: View, a: Act, s': State, g: seq<nat>, t: nat)
    requires Inv(protect, s, v) && Step(protect, s, a.t, a.e, s') && IsActiveList(g, s') && !s'.aborted
    requires a.t == t ==> a.e.Run? || a.e.ClientWrite?
    requires !Pc(s, t).FreeLock?
    ensures !Pc(s', t).FreeLock?
    ensures Left(g, |g|, Pc(s', t)) + (if a.t == t && a.e.Run? then 1 else 0) <= Left(v.active, |v.active|, Pc(s, t))
  {
    var v' := EveryStepKeeps(protect, s, v, a.t, a.e, s');
    ChainUnique(g, v'.active, s'.active, s'.hdr);
    if a.e.Run? {
      assert ThreadOk(protect, s, v, a.t);
      if a.t == t {
        OwnLeft(protect, s, v, t, a.e.raw, v', |v.active|, |v'.active|);
        NoFreeLock(protect, s, t, a.e.raw);
      } else {
        ExecOthers(protect, s, a.t, a.e.raw);
        if Frees(Pc(s, t)) { FixedList(protect, s, v, a.t, s', v', t); }
        OtherLeft(protect, s, v, a.t, s', v', t, |v.active|, |v'.active|);
      }
    }
  }

  lemma {:induction false} NoFreeLock(protect: bool, s: State, t: nat, raw: Ptr)
    requires |s.slabs| == |s.locks| == CLASSES && CanRun(s, t)
    ensures Pc(Exec(protect, s, t, raw), t).FreeLock? ==> Pc(s, t).FreeLock?
  {
  }

  lemma {:induction false} ExecOthers(protect: bool, s: State, t: nat, raw: Ptr)
    requires |s.slabs| == |s.locks| == CLASSES && CanRun(s, t)
    ensures OnlyPc(s, Exec(protect, s, t, raw), t)
  {
  }

  // While u frees under the lock, no other thread changes the length of the list.
  lemma {:induction false} FixedList(protect: bool, s: State, v: View, t: nat, s': State, v': View, u: nat)
    requires Inv(protect, s, v) && u != t && ActiveAfter(s, v, s', v', t) && Frees(Pc(s, u))
    ensures v'.active == v.active
  {
    assert HoldsGlobal(Pc(s, u)) && s.glb == Held(u);
    assert !HoldsGlobal(Pc(s, t));
  }

  // ---------------------------------------------------------------- every schedule

  // ts lists every thread that has ever made a call.
  ghost predicate Covers(s: State, ts: seq<nat>) {
    Distinct(ts) && forall t :: t in s.pcs ==> t in ts
  }

  // Whether the thread may still add a block to the active list.
  function Adds(pc: PC): nat {
    if IsAlloc(pc) && !pc.ActiveUnlock? then 1 else 0
  }

  ghost function Adding(s: State, ts: seq<nat>): seq<nat> {
    seq(|ts|, i requires 0 <= i < |ts| => Adds(Pc(s, ts[i])))
  }

  // How long the active list may still become without new calls.
  ghost function Room(s: State, f: seq<nat>, ts: seq<nat>): nat {
    |f| + Sum(Adding(s, ts))
  }

  ghost function Lefts(s: State, f: seq<nat>, ts: seq<nat>): seq<nat> {
    seq(|ts|, i requires 0 <= i < |ts| => Left(f, Room(s, f, ts), Pc(s, ts[i])))
  }

  /** How many statements all calls in progress have left, at most. */
  ghost function Measure(s: State, f: seq<nat>, ts: seq<nat>): nat {
    Sum(Lefts(s, f, ts))
  }

  lemma {:induction false} AddsStep(protect: bool, s: State, v: View, t: nat, raw: Ptr, v': View)
    requires |s.slabs| == |s.locks| == CLASSES && CanRun(s, t) && ThreadOk(protect, s, v, t)
    requires ActiveAfter(s, v, Exec(protect, s, t, raw), v', t)
    ensures |v'.active| + Adds(Pc(Exec(protect, s, t, raw), t)) <= |v.active| + Adds(Pc(s, t))
  {
    if IsAlloc(Pc(s, t)) {
      AllocLeft(protect, s, v, t, raw, v.active, 0);
    } else {
      NoNewAlloc(protect, s, t, raw);
    }
  }

  lemma {:induction false} NoNewAlloc(protect: bool, s: State, t: nat, raw: Ptr)
    requires |s.slabs| == |s.locks| == CLASSES && CanRun(s, t) && !IsAlloc(Pc(s, t))
    ensures !IsAlloc(Pc(Exec(protect, s, t, raw), t))
  {
  }

  lemma {:induction false} RoomStep(protect: bool, s: State, v: View, t: nat, raw: Ptr, v': View, ts: seq<nat>)
    requires |s.slabs| == |s.locks| == CLASSES && CanRun(s, t) && ThreadOk(protect, s, v, t) && Covers(s, ts)
    requires ActiveAfter(s, v, Exec(protect, s, t, raw), v', t)
    ensures Room(Exec(protect, s, t, raw), v'.active, ts) <= Room(s, v.active, ts)
  {
    var s' := Exec(protect, s, t, raw);
    var i := Find(ts, t);
    ExecOthers(protect, s, t, raw);
    AddsStep(protect, s, v, t, raw, v');
    forall j | 0 <= j < |ts| && j != i ensures ts[j] != t { DistinctIndices(ts, i, j); }
    SumUpdate(Adding(s, ts), i, Adds(Pc(s', t)));
    assert Adding(s', ts) == Adding(s, ts)[i := Adds(Pc(s', t))];
  }

  /** Every statement of every thread uses up part of the measure. */
  lemma {:induction false} MeasureStep(protect: bool, s: State, v: View, t: nat, raw: Ptr, v': View, ts: seq<nat>)
    requires Inv(protect, s, v) && CanRun(s, t) && Covers(s, ts)
    requires ActiveAfter(s, v, Exec(protect, s, t, raw), v', t) && !Exec(protect, s, t, raw).aborted
    ensures Measure(Exec(protect, s, t, raw), v'.active, ts) < Measure(s, v.active, ts)
  {
    var s' := Exec(protect, s, t, raw);
    var i := Find(ts, t);
    assert ThreadOk(protect, s, v, t);
    RoomStep(protect, s, v, t, raw, v', ts);
    ExecOthers(protect, s, t, raw);
    var a, b := Lefts(s', v'.active, ts), Lefts(s, v.active, ts);
    OwnLeft(protect, s, v, t, raw, v', Room(s, v.active, ts), Room(s', v'.active, ts));
    forall j | 0 <= j < |ts| ensures a[j] <= b[j] && (j == i ==> a[j] < b[j]) {
      if ts[j] != t { OtherLeft(protect, s, v, t, s', v', ts[j], Room(s, v.active, ts), Room(s', v'.active, ts)); }
    }
    SumLess(a, b, i);
  }

  ghost function Statements(acts: seq<Act>, k: nat, l: nat): nat
    requires l <= |acts|
    decreases l
  {
    if l <= k then 0 else Statements(acts, k, l - 1) + (if acts[l-1].e.Run? then 1 else 0)
  }

  ghost predicate NoNewCalls(acts: seq<Act>, k: nat, l: nat)
    requires l <= |acts|
    decreases l
  {
    l <= k || (NoNewCalls(acts, k, l - 1) && (acts[l-1].e.Run? || acts[l-1].e.ClientWrite?))
  }

  /** Every schedule is finite: however a run goes on from state k without new calls, all
      threads together execute at most as many statements as the measure of state k. */
  lemma {:induction false} CallsEnd(protect: bool, ss: seq<State>, acts: seq<Act>, k: nat, l: nat, ts: seq<nat>, f: seq<nat>, g: seq<nat>)
    requires IsRun(protect, ss, acts) && k <= l < |ss| && NoNewCalls(acts, k, l) && !ss[l].aborted
    requires IsActiveList(f, ss[k]) && IsActiveList(g, ss[l]) && Covers(ss[k], ts)
    ensures Covers(ss[l], ts)
    ensures Statements(acts, k, l) + Measure(ss[l], g, ts) <= Measure(ss[k], f, ts)
    decreases l
  {
    if k == l {
      ChainUnique(f, g, ss[k].active, ss[k].hdr);
    } else {
      var x := ActiveListAt(protect, ss, acts, l - 1);
      NotAborted(protect, ss, acts, l - 1);
      CallsEnd(protect, ss, acts, k, l - 1, ts, f, x);
      QuietAt(protect, ss, acts, l - 1, x, g, ts);
    }
  }

  lemma {:induction false} QuietAt(protect: bool, ss: seq<State>, acts: seq<Act>, k: nat, f: seq<nat>, g: seq<nat>, ts: seq<nat>)
    requires IsRun(protect, ss, acts) && k < |acts| && (acts[k].e.Run? || acts[k].e.ClientWrite?) && !ss[k+1].aborted
    requires IsActiveList(f, ss[k]) && IsActiveList(g, ss[k+1]) && Covers(ss[k], ts)
    ensures Covers(ss[k+1], ts)
    ensures Measure(ss[k+1], g, ts) + (if acts[k].e.Run? then 1 else 0) <= Measure(ss[k], f, ts)
  {
    assert StepAt(protect, ss, acts, k);
    var v := EveryStateSafe(protect, ss, acts, k);
    ChainUnique(f, v.active, ss[k].active, ss[k].hdr);
    QuietStep(protect, ss[k], v, acts[k], ss[k+1], g, ts);
  }

  lemma {:induction false} QuietStep(protect: bool, s: State, v: View, a: Act, s': State, g: seq<nat>, ts: seq<nat>)
    requires Inv(protect, s, v) && Step(protect, s, a.t, a.e, s') && IsActiveList(g, s') && !s'.aborted
    requires (a.e.Run? || a.e.ClientWrite?) && Covers(s, ts)
    ensures Covers(s', ts)
    ensures Measure(s', g, ts) + (if a.e.Run? then 1 else 0) <= Measure(s, v.active, ts)
  {
    var v' := EveryStepKeeps(protect, s, v, a.t, a.e, s');
    ChainUnique(g, v'.active, s'.active, s'.hdr);
    if a.e.Run? {
      MeasureStep(protect, s, v, a.t, a.e.raw, v', ts);
      SameThreads(protect, s, a.t, a.e.raw);
    } else {
      SamePcs(s, s', g, ts);
    }
  }

  lemma {:induction false} SamePcs(s: State, s': State, f: seq<nat>, ts: seq<nat>)
    requires s'.pcs == s.pcs
    ensures Measure(s', f, ts) == Measure(s, f, ts)
  {
    assert Adding(s', ts) == Adding(s, ts);
    assert Lefts(s', f, ts) == Lefts(s, f, ts);
  }

  lemma {:induction false} SameThreads(protect: bool, s: State, t: nat, raw: Ptr)
    requires |s.slabs| == |s.locks| == CLASSES && CanRun(s, t)
    ensures forall u :: u in Exec(protect, s, t, raw).pcs ==> u in s.pcs
  {
    assert t in s.pcs;
  }

  /** And no schedule gets stuck: while the measure is not used up, some thread can run. So
      finitely many calls all return, unless one of them aborts the program. */
  lemma {:induction false} SomeStatementLeft(protect: bool, s: State, v: View, ts: seq<nat>) returns (u: nat)
    requires Inv(protect, s, v) && Measure(s, v.active, ts) > 0
    ensures CanRun(s, u)
  {
    var i := PositiveTerm(Lefts(s, v.active, ts));
    u := SomeThreadCanRun(protect, s, v, ts[i]);
  }

  lemma {:induction false} PositiveTerm(ns: seq<nat>) returns (i: nat)
    requires Sum(ns) > 0
    ensures i < |ns| && ns[i] > 0
  {
    if ns[0] > 0 {
      i := 0;
    } else {
      i := PositiveTerm(ns[1..]);
      i := i + 1;
    }
  }
}
