/**
 When free aborts. Safety does not depend on what clients write into their blocks; the
 checks in free do. The history of a run says for which request a block was last set up and
 what clients have written into it since, and free aborts exactly when the last write that
 reached the tail guard left it changed.
 */
module SlabPoolGuards {
  import opened Lists
  import opened SlabPool
  import opened SlabPoolSafety
  import opened SlabPoolRuns

  // ---------------------------------------------------------------- the history of a block

  /** The act sets up block b for a request. */
  ghost predicate SetsUp(s: State, a: Act, b: nat) {
    a.e.Run? && Pc(s, a.t).InitHeader? && Pc(s, a.t).b == b
  }

  ghost predicate Writes(a: Act, b: nat) {
    a.e.ClientWrite? && a.e.b == b
  }

  // A write of more than m bytes of block b.
  ghost predicate Overwrites(a: Act, b: nat, m: int) {
    Writes(a, b) && a.e.upto > m
  }

  // The bytes of a request that lie clear of the tail guard.
  function Clear(n: nat): int {
    Actual(n) - TAIL
  }

  // The request b was last set up for, and whether writes since have left its guard alone.
  datatype Use = Use(n: nat, intact: bool)

  ghost function NextUse(s: State, a: Act, b: nat, u: Use): Use {
    if SetsUp(s, a, b) then Use(Pc(s, a.t).n, true)
    else if Overwrites(a, b, Clear(u.n)) then u.(intact := a.e.intact)
    else u
  }

  ghost function LastUse(ss: seq<State>, acts: seq<Act>, b: nat, k: nat): Use
    requires k <= |acts| == |ss| - 1
    decreases k
  {
    if k == 0 then Use(0, true) else NextUse(ss[k-1], acts[k-1], b, LastUse(ss, acts, b, k - 1))
  }

  // ---------------------------------------------------------------- the tail guard

  // Thread pc has set up b and not yet returned it, or is freeing it and has not checked it.
  predicate Minds(pc: PC, b: nat) {
    match pc
    case ActiveLock(c, _) => c == b
    case ActiveLink(c, _) => c == b
    case ActivePublish(c, _) => c == b
    case ActiveUnlock(c, _) => c == b
    case FreeLock(c) => c == b
    case Check(c) => c == b
    case _ => false
  }

  ghost predicate InUse(s: State, b: nat) {
    b in s.live || exists t :: Minds(Pc(s, t), b)
  }

  /** A block in use has the size of its last request, and its tail guard is what the writes
      since have left. */
  ghost predicate UseOk(protect: bool, s: State, b: nat, u: Use) {
    InUse(s, b) ==>
      && b in s.hdr && s.hdr[b].size == Actual(u.n)
      && (protect ==> (s.hdr[b].tail <==> u.intact))
  }

  lemma {:induction false} InUseOwned(protect: bool, s: State, v: View, b: nat)
    requires Inv(protect, s, v) && InUse(s, b)
    ensures b in s.hdr && b in v.place
    ensures v.place[b].Active? || (v.place[b].Transit? && Minds(Pc(s, v.place[b].tid), b))
  {
    if b !in s.live {
      var t :| Minds(Pc(s, t), b);
      MindedPlace(protect, s, v, t, b);
    }
  }

  lemma {:induction false} MindedPlace(protect: bool, s: State, v: View, t: nat, b: nat)
    requires |s.slabs| == CLASSES && ThreadOk(protect, s, v, t) && Minds(Pc(s, t), b)
    ensures b in s.hdr && b in v.place && (v.place[b] == Active(By(t)) || v.place[b] == Transit(t))
  {
  }

  // A thread with a private block it does not mind has no block in use.
  lemma {:induction false} PrivateNotInUse(protect: bool, s: State, v: View, t: nat, b: nat)
    requires Inv(protect, s, v) && InUse(s, b) && !Minds(Pc(s, t), b)
    ensures Private(Pc(s, t)) != At(b)
  {
    InUseOwned(protect, s, v, b);
    assert ThreadOk(protect, s, v, t);
  }

  lemma {:induction false} InUseBack(s: State, s': State, t: nat, b: nat)
    requires OnlyPc(s, s', t) && InUse(s', b)
    requires b in s'.live || Minds(Pc(s', t), b) ==> InUse(s, b)
    ensures InUse(s, b)
  {
    if b !in s'.live {
      var u :| Minds(Pc(s', u), b);
      if u != t { assert Minds(Pc(s, u), b); }
    }
  }

  /** A block comes into use only by being set up. */
  lemma {:induction false} UseBegins(protect: bool, s: State, v: View, a: Act, s': State, b: nat)
    requires Inv(protect, s, v) && Step(protect, s, a.t, a.e, s') && InUse(s', b) && !SetsUp(s, a, b)
    ensures InUse(s, b)
  {
    assert ThreadOk(protect, s, v, a.t);
    if a.e.Run? {
      RunBegins(protect, s, v, a.t, a.e.raw, b);
    } else if a.e.ClientWrite? {
      assert forall u :: Pc(s', u) == Pc(s, u);
    }
    InUseBack(s, s', a.t, b);
  }

  lemma {:induction false} RunBegins(protect: bool, s: State, v: View, t: nat, raw: Ptr, b: nat)
    requires |s.slabs| == |s.locks| == CLASSES && CanRun(s, t) && ThreadOk(protect, s, v, t)
    requires !(Pc(s, t).InitHeader? && Pc(s, t).b == b)
    ensures var s' := Exec(protect, s, t, raw);
      OnlyPc(s, s', t) && (b in s'.live || Minds(Pc(s', t), b) ==> b in s.live || Minds(Pc(s, t), b))
  {
    var s' := Exec(protect, s, t, raw);
    ExecFrame(protect, s, t, raw);
    assert s'.live == if Pc(s, t).ActiveUnlock? then s.live + {Pc(s, t).b} else s.live;
    if Minds(Pc(s', t), b) { MindsBegins(protect, s, v, t, raw, b); }
  }

  lemma {:induction false} ExecFrame(protect: bool, s: State, t: nat, raw: Ptr)
    requires |s.slabs| == |s.locks| == CLASSES && CanRun(s, t)
    ensures OnlyPc(s, Exec(protect, s, t, raw), t)
  {
  }

  lemma {:induction false} MindsBegins(protect: bool, s: State, v: View, t: nat, raw: Ptr, b: nat)
    requires |s.slabs| == |s.locks| == CLASSES && CanRun(s, t) && ThreadOk(protect, s, v, t)
    requires !(Pc(s, t).InitHeader? && Pc(s, t).b == b) && Minds(Pc(Exec(protect, s, t, raw), t), b)
    ensures Minds(Pc(s, t), b)
  {
  }

  // Statements other than the set-up leave size and tail of a block in use alone.
  lemma {:induction false} RunLeaves(protect: bool, s: State, v: View, t: nat, raw: Ptr, b: nat)
    requires Inv(protect, s, v) && CanRun(s, t) && (raw.At? ==> raw.addr !in s.hdr)
    requires InUse(s, b) && !(Pc(s, t).InitHeader? && Pc(s, t).b == b)
    ensures var s' := Exec(protect, s, t, raw);
      b in s.hdr && b in s'.hdr && s'.hdr[b].size == s.hdr[b].size && s'.hdr[b].tail == s.hdr[b].tail
  {
    InUseOwned(protect, s, v, b);
    if !Minds(Pc(s, t), b) { PrivateNotInUse(protect, s, v, t, b); }
    ExecLeaves(protect, s, t, raw, b);
  }

  lemma {:induction false} ExecLeaves(protect: bool, s: State, t: nat, raw: Ptr, b: nat)
    requires |s.slabs| == |s.locks| == CLASSES && CanRun(s, t) && (raw.At? ==> raw.addr !in s.hdr) && b in s.hdr
    requires !(Pc(s, t).InitHeader? && Pc(s, t).b == b) && !(Pc(s, t).Classify? && Pc(s, t).b == b)
    ensures var s' := Exec(protect, s, t, raw);
      b in s'.hdr && s'.hdr[b].size == s.hdr[b].size && s'.hdr[b].tail == s.hdr[b].tail
  {
  }

  lemma {:induction false} SetUpUse(protect: bool, s: State, v: View, t: nat, raw: Ptr)
    requires Inv(protect, s, v) && Pc(s, t).InitHeader?
    ensures UseOk(protect, Exec(protect, s, t, raw), Pc(s, t).b, Use(Pc(s, t).n, true))
  {
    assert ThreadOk(protect, s, v, t);
    RoundingBounds(Pc(s, t).n);
  }

  lemma {:induction false} UseKeeps(protect: bool, s: State, v: View, a: Act, s': State, b: nat, u: Use)
    requires Inv(protect, s, v) && Step(protect, s, a.t, a.e, s') && UseOk(protect, s, b, u)
    ensures UseOk(protect, s', b, NextUse(s, a, b, u))
  {
    if SetsUp(s, a, b) {
      SetUpUse(protect, s, v, a.t, a.e.raw);
    } else if InUse(s', b) {
      UseBegins(protect, s, v, a, s', b);
      if a.e.Run? { RunLeaves(protect, s, v, a.t, a.e.raw, b); }
    }
  }

  lemma {:induction false} NotInUseInitially(b: nat)
    ensures !InUse(INITIAL, b)
  {
    assert forall t :: !Minds(Pc(INITIAL, t), b);
  }

  /** The history of a block explains its header, in every state of every run. */
  lemma {:induction false} EveryUseOk(protect: bool, ss: seq<State>, acts: seq<Act>, b: nat, k: nat)
    requires IsRun(protect, ss, acts) && k < |ss|
    ensures UseOk(protect, ss[k], b, LastUse(ss, acts, b, k))
    decreases k
  {
    if k == 0 {
      NotInUseInitially(b);
    } else {
      EveryUseOk(protect, ss, acts, b, k - 1);
      assert StepAt(protect, ss, acts, k - 1);
      var v := EveryStateSafe(protect, ss, acts, k - 1);
      UseKeeps(protect, ss[k-1], v, acts[k-1], ss[k], b, LastUse(ss, acts, b, k - 1));
    }
  }

  // ---------------------------------------------------------------- aborts

  ghost predicate Checks(s: State, a: Act) {
    a.e.Run? && Pc(s, a.t).Check?
  }

  /** Only the checks in free abort. */
  lemma {:induction false} AbortsOnlyInCheck(protect: bool, ss: seq<State>, acts: seq<Act>, k: nat)
    requires IsRun(protect, ss, acts) && k < |acts| && ss[k+1].aborted
    ensures Checks(ss[k], acts[k])
  {
    assert StepAt(protect, ss, acts, k);
  }

  lemma {:induction false} CheckAborts(protect: bool, ss: seq<State>, acts: seq<Act>, k: nat)
    requires IsRun(protect, ss, acts) && k < |acts| && Checks(ss[k], acts[k])
    ensures var u := LastUse(ss, acts, Pc(ss[k], acts[k].t).b, k);
      ss[k+1].aborted <==> protect && !u.intact
  {
    var t, b := acts[k].t, Pc(ss[k], acts[k].t).b;
    var v := EveryStateSafe(protect, ss, acts, k);
    assert StepAt(protect, ss, acts, k);
    CheckOutcome(protect, ss[k], v, t);
    EveryUseOk(protect, ss, acts, b, k);
    assert Minds(Pc(ss[k], t), b);
  }

  // ---------------------------------------------------------------- in terms of the acts

  // The last act before k that set up b, or -1.
  ghost function LastSetUp(ss: seq<State>, acts: seq<Act>, b: nat, k: nat): (h: int)
    requires k <= |acts| == |ss| - 1
    ensures -1 <= h < k
    ensures h >= 0 ==> SetsUp(ss[h], acts[h], b)
    decreases k
  {
    if k == 0 then -1
    else if SetsUp(ss[k-1], acts[k-1], b) then k - 1
    else LastSetUp(ss, acts, b, k - 1)
  }

  /** Since act h some client wrote more than m bytes of b. */
  ghost predicate WroteBeyond(acts: seq<Act>, b: nat, h: int, k: nat, m: int)
    requires k <= |acts|
  {
    exists i :: h < i < k && 0 <= i && Overwrites(acts[i], b, m)
  }

  /** Act i is the last between h and k that wrote more than m bytes of b. */
  ghost predicate IsLastBeyond(acts: seq<Act>, b: nat, h: int, k: nat, m: int, i: int)
    requires k <= |acts|
  {
    h < i < k && 0 <= i && Overwrites(acts[i], b, m) && forall j :: i < j < k ==> !Overwrites(acts[j], b, m)
  }

  /** Since act h clients wrote more than m bytes of b, and the last such write left the guard
      word changed. */
  ghost predicate Spoiled(acts: seq<Act>, b: nat, h: int, k: nat, m: int)
    requires k <= |acts|
  {
    exists i :: IsLastBeyond(acts, b, h, k, m, i) && !acts[i].e.intact
  }

  lemma {:induction false} SpoiledNext(acts: seq<Act>, b: nat, h: int, k: nat, m: int)
    requires -1 <= h < k - 1 && k <= |acts|
    ensures Spoiled(acts, b, h, k, m) <==>
      if Overwrites(acts[k-1], b, m) then !acts[k-1].e.intact else Spoiled(acts, b, h, k - 1, m)
  {
    if Overwrites(acts[k-1], b, m) {
      assert IsLastBeyond(acts, b, h, k, m, k - 1);
      assert forall i :: IsLastBeyond(acts, b, h, k, m, i) ==> i == k - 1;
    } else {
      assert forall i :: IsLastBeyond(acts, b, h, k, m, i) <==> IsLastBeyond(acts, b, h, k - 1, m, i);
    }
  }

  lemma {:induction false} LastUseIs(ss: seq<State>, acts: seq<Act>, b: nat, k: nat)
    requires k <= |acts| == |ss| - 1
    ensures var h := LastSetUp(ss, acts, b, k);
      var u := LastUse(ss, acts, b, k);
      && (h >= 0 ==> u.n == Pc(ss[h], acts[h].t).n)
      && (!u.intact <==> Spoiled(acts, b, h, k, Clear(u.n)))
    decreases k
  {
    if k > 0 {
      LastUseIs(ss, acts, b, k - 1);
      var h := LastSetUp(ss, acts, b, k);
      if h < k - 1 { SpoiledNext(acts, b, h, k, Clear(LastUse(ss, acts, b, k).n)); }
    }
  }

  // If something was written beyond m, there is a last such write.
  lemma {:induction false} LastBeyond(acts: seq<Act>, b: nat, h: int, k: nat, m: int) returns (i: int)
    requires k <= |acts| && -1 <= h && WroteBeyond(acts, b, h, k, m)
    ensures IsLastBeyond(acts, b, h, k, m, i)
    decreases k
  {
    if Overwrites(acts[k-1], b, m) && h < k - 1 {
      i := k - 1;
    } else {
      i := LastBeyond(acts, b, h, k - 1, m);
    }
  }

  lemma {:induction false} SetUpBefore(protect: bool, ss: seq<State>, acts: seq<Act>, b: nat, k: nat)
    requires IsRun(protect, ss, acts) && k < |ss| && InUse(ss[k], b)
    ensures LastSetUp(ss, acts, b, k) >= 0
    decreases k
  {
    if k == 0 {
      NotInUseInitially(b);
    } else if !SetsUp(ss[k-1], acts[k-1], b) {
      assert StepAt(protect, ss, acts, k - 1);
      var v := EveryStateSafe(protect, ss, acts, k - 1);
      UseBegins(protect, ss[k-1], v, acts[k-1], ss[k], b);
      SetUpBefore(protect, ss, acts, b, k - 1);
    }
  }

  /** For any threads and any clients: when free checks a block, the program aborts if and
      only if protection is on and, since the block was last set up, for a request of n
      bytes, clients wrote into the last eight bytes of the rounded size and the last such
      write left the guard word changed. */
  lemma {:induction false} FreeAborts(protect: bool, ss: seq<State>, acts: seq<Act>, k: nat)
    requires IsRun(protect, ss, acts) && k < |acts| && Checks(ss[k], acts[k])
    ensures var b := Pc(ss[k], acts[k].t).b;
      var h := LastSetUp(ss, acts, b, k);
      && h >= 0
      && (ss[k+1].aborted <==> protect && Spoiled(acts, b, h, k, Clear(Pc(ss[h], acts[h].t).n)))
  {
    var b := Pc(ss[k], acts[k].t).b;
    assert Minds(Pc(ss[k], acts[k].t), b);
    SetUpBefore(protect, ss, acts, b, k);
    CheckAborts(protect, ss, acts, k);
    LastUseIs(ss, acts, b, k);
  }

  /** Clients wrote exactly the n bytes that were asked for: all of them, and no others. */
  ghost predicate WroteExactly(acts: seq<Act>, b: nat, h: int, k: nat, n: nat)
    requires k <= |acts|
  {
    !WroteBeyond(acts, b, h, k, n) && (n == 0 || WroteBeyond(acts, b, h, k, n - 1))
  }

  /** No write that reached the guard word left its value in place. */
  ghost predicate NeverRestored(acts: seq<Act>, b: nat, h: int, k: nat, m: int)
    requires k <= |acts|
  {
    forall i :: h < i < k && 0 <= i && Overwrites(acts[i], b, m) ==> !acts[i].e.intact
  }

  /** The tail guard lies inside the payload, so staying inside the request is not enough: in
      every run, freeing a block of which exactly the requested bytes were written does not
      abort if rounding left eight bytes over; otherwise, unless the bytes written happen to
      be the guard's own value, it aborts if and only if protection is on. */
  lemma {:induction false} FullUseAborts(protect: bool, ss: seq<State>, acts: seq<Act>, k: nat)
    requires IsRun(protect, ss, acts) && k < |acts| && Checks(ss[k], acts[k])
    ensures var b := Pc(ss[k], acts[k].t).b;
      var h := LastSetUp(ss, acts, b, k);
      && h >= 0
      && var n := Pc(ss[h], acts[h].t).n;
         WroteExactly(acts, b, h, k, n) ==>
           && (n + TAIL <= Actual(n) ==> !ss[k+1].aborted)
           && (NeverRestored(acts, b, h, k, Clear(n)) ==> (ss[k+1].aborted <==> protect && Actual(n) < n + TAIL))
  {
    FreeAborts(protect, ss, acts, k);
    var b := Pc(ss[k], acts[k].t).b;
    var h := LastSetUp(ss, acts, b, k);
    var n := Pc(ss[h], acts[h].t).n;
    RoundingBounds(n);
    if WroteExactly(acts, b, h, k, n) {
      BeyondMonotone(acts, b, h, k, Clear(n), n);
      SpoiledIff(acts, b, h, k, Clear(n));
    }
  }

  lemma {:induction false} SpoiledIff(acts: seq<Act>, b: nat, h: int, k: nat, m: int)
    requires k <= |acts| && -1 <= h
    ensures Spoiled(acts, b, h, k, m) ==> WroteBeyond(acts, b, h, k, m)
    ensures NeverRestored(acts, b, h, k, m) ==> (Spoiled(acts, b, h, k, m) <==> WroteBeyond(acts, b, h, k, m))
  {
    if NeverRestored(acts, b, h, k, m) && WroteBeyond(acts, b, h, k, m) {
      var i := LastBeyond(acts, b, h, k, m);
      assert !acts[i].e.intact;
    }
  }

  // Having written exactly n bytes is having written beyond m for just the m below n.
  lemma {:induction false} BeyondMonotone(acts: seq<Act>, b: nat, h: int, k: nat, m: nat, n: nat)
    requires k <= |acts| && WroteExactly(acts, b, h, k, n)
    ensures WroteBeyond(acts, b, h, k, m) <==> m < n
  {
    if m < n {
      var i :| h < i < k && 0 <= i && Overwrites(acts[i], b, n - 1);
      assert Overwrites(acts[i], b, m);
    }
  }

  // ---------------------------------------------------------------- polite clients

  ghost predicate IsPolite(ss: seq<State>, acts: seq<Act>) {
    |ss| == |acts| + 1 && forall i :: 0 <= i < |acts| ==> Polite(ss[i], acts[i].e)
  }

  lemma {:induction false} PoliteIntact(protect: bool, ss: seq<State>, acts: seq<Act>, b: nat, k: nat)
    requires IsRun(protect, ss, acts) && IsPolite(ss, acts) && k < |ss| && InUse(ss[k], b)
    ensures LastUse(ss, acts, b, k).intact
    decreases k
  {
    if k == 0 {
      NotInUseInitially(b);
    } else if !SetsUp(ss[k-1], acts[k-1], b) {
      assert StepAt(protect, ss, acts, k - 1) && Polite(ss[k-1], acts[k-1].e);
      var v := EveryStateSafe(protect, ss, acts, k - 1);
      UseBegins(protect, ss[k-1], v, acts[k-1], ss[k], b);
      PoliteIntact(protect, ss, acts, b, k - 1);
      EveryUseOk(protect, ss, acts, b, k - 1);
    }
  }

  /** No run of clients that keep off the last eight bytes of their blocks reaches an abort,
      and with protection off no run does at all. */
  lemma {:induction false} NeverAborts(protect: bool, ss: seq<State>, acts: seq<Act>, k: nat)
    requires IsRun(protect, ss, acts) && k < |ss| && (protect ==> IsPolite(ss, acts))
    ensures !ss[k].aborted
  {
    if k > 0 && ss[k].aborted {
      AbortsOnlyInCheck(protect, ss, acts, k - 1);
      CheckAborts(protect, ss, acts, k - 1);
      var b := Pc(ss[k-1], acts[k-1].t).b;
      assert Minds(Pc(ss[k-1], acts[k-1].t), b);
      PoliteIntact(protect, ss, acts, b, k - 1);
    }
  }

  // ---------------------------------------------------------------- a run that shows it

  // The state in which one thread is about to check, in free, a block it allocated for a
  // request of n bytes and of which it then wrote the first n.
  ghost predicate AboutToCheck(s: State, b: nat, n: nat, intact: bool) {
    && !s.aborted && |s.slabs| == |s.locks| == CLASSES
    && Pc(s, 0) == Check(b) && b in s.hdr
    && s.hdr[b] == Header(Actual(n), false, true, intact || n + TAIL <= Actual(n), Null, Actual(n))
  }

  /** One thread asks for n bytes, gets b, writes those n bytes and frees the block. */
  ghost predicate IsFullUse(acts: seq<Act>, n: nat, b: nat, intact: bool) {
    && |acts| > 4 && acts[0] == Act(0, StartAlloc(n))
    && acts[|acts|-4..] == [Act(0, ClientWrite(b, n, intact)), Act(0, StartFree(b)), Act(0, Run(Null)), Act(0, Run(Null))]
  }

  /** Such a run exists for every request and ends in an abort if and only if rounding left
      fewer than eight bytes over and the bytes written change the guard word. */
  lemma {:induction false} FullUseRun(n: nat, b: nat, intact: bool) returns (ss: seq<State>, acts: seq<Act>)
    requires Overhead(true) + Actual(n) < SIZE_MAX_PLUS_ONE
    ensures IsRun(true, ss, acts) && IsFullUse(acts, n, b, intact)
    ensures ss[|ss|-1].aborted <==> Actual(n) < n + TAIL && !intact
  {
    ss, acts := AllocRun(n, b);
    var s := ss[|ss|-1];
    RoundingBounds(n);
    ss, acts := Extend(ss, acts, Act(0, ClientWrite(b, n, intact)),
                       s.(hdr := s.hdr[b := s.hdr[b].(tail := intact || n + TAIL <= Actual(n))]));
    s := ss[|ss|-1];
    ss, acts := Extend(ss, acts, Act(0, StartFree(b)), Goto(s, 0, FreeLock(b)).(live := s.live - {b}));
    s := ss[|ss|-1];
    ss, acts := Extend(ss, acts, Act(0, Run(Null)), Exec(true, s, 0, Null));
    s := ss[|ss|-1];
    assert AboutToCheck(s, b, n, intact);
    ss, acts := Extend(ss, acts, Act(0, Run(Null)), Exec(true, s, 0, Null));
  }

  lemma {:induction false} Extend(ss: seq<State>, acts: seq<Act>, a: Act, s': State) returns (ss': seq<State>, acts': seq<Act>)
    requires IsRun(true, ss, acts) && Step(true, ss[|ss|-1], a.t, a.e, s')
    ensures IsRun(true, ss', acts') && ss'[|ss'|-1] == s' && acts' == acts + [a]
  {
    ss', acts' := ss + [s'], acts + [a];
    forall i | 0 <= i < |acts'| ensures StepAt(true, ss', acts', i) {
      if i < |acts| { assert StepAt(true, ss, acts, i); }
    }
  }

  // One thread allocates n bytes from the empty pool and gets block b.
  lemma {:induction false} AllocRun(n: nat, b: nat) returns (ss: seq<State>, acts: seq<Act>)
    requires Overhead(true) + Actual(n) < SIZE_MAX_PLUS_ONE
    ensures IsRun(true, ss, acts) && acts != [] && acts[0] == Act(0, StartAlloc(n))
    ensures var s := ss[|ss|-1];
            && !s.aborted && |s.slabs| == |s.locks| == CLASSES && s.glb == Open
            && Pc(s, 0) == Idle && s.live == {b} && b in s.hdr
            && s.hdr[b] == Header(Actual(n), false, true, true, Null, Actual(n))
  {
    ss, acts := NothingToReuse(n);
    var s := Exec(true, ss[|ss|-1], 0, At(b));
    ss, acts := Extend(ss, acts, Act(0, Run(At(b))), s);
    assert Pc(s, 0) == InitHeader(b, n) && b in s.hdr && s.hdr[b].cap == Actual(n);
    s := Exec(true, s, 0, Null);
    ss, acts := Extend(ss, acts, Act(0, Run(Null)), s);
    assert Pc(s, 0) == ActiveLock(b, n) && s.hdr[b] == Header(Actual(n), false, true, true, Null, Actual(n));
    ss, acts := PublishRun(ss, acts, n, b);
  }

  // The empty pool has no block to reuse, whatever the class of the request.
  lemma {:induction false} NothingToReuse(n: nat) returns (ss: seq<State>, acts: seq<Act>)
    requires Overhead(true) + Actual(n) < SIZE_MAX_PLUS_ONE
    ensures IsRun(true, ss, acts) && acts != [] && acts[0] == Act(0, StartAlloc(n))
    ensures var s := ss[|ss|-1];
            && !s.aborted && |s.slabs| == |s.locks| == CLASSES && s.glb == Open && s.active == Null
            && Pc(s, 0) == Obtain(n, Null) && s.hdr == map[] && s.live == {}
  {
    ss, acts := [INITIAL], [];
    ClassFromFirst(n, 0);
    var c := ClassOf(n);
    var s := Goto(INITIAL, 0, if c < CLASSES then PopLock(c, n) else Obtain(n, Null));
    ss, acts := Extend(ss, acts, Act(0, StartAlloc(n)), s);
    if c < CLASSES {
      ss, acts := PopEmpty(ss, acts, n, c);
    }
  }

  lemma {:induction false} PopEmpty(ss0: seq<State>, acts0: seq<Act>, n: nat, c: nat) returns (ss: seq<State>, acts: seq<Act>)
    requires IsRun(true, ss0, acts0) && c < CLASSES && ss0[|ss0|-1] == Goto(INITIAL, 0, PopLock(c, n))
    ensures IsRun(true, ss, acts) && acts0 <= acts
    ensures var s := ss[|ss|-1];
            && !s.aborted && |s.slabs| == |s.locks| == CLASSES && s.glb == Open && s.active == Null
            && Pc(s, 0) == Obtain(n, Null) && s.hdr == map[] && s.live == {}
  {
    var s := Exec(true, ss0[|ss0|-1], 0, Null);
    ss, acts := Extend(ss0, acts0, Act(0, Run(Null)), s);
    assert Pc(s, 0) == Pop(c, n) && s.slabs[c] == Null;
    s := Exec(true, s, 0, Null);
    ss, acts := Extend(ss, acts, Act(0, Run(Null)), s);
    assert Pc(s, 0) == PopUnlock(c, n, Null);
    s := Exec(true, s, 0, Null);
    ss, acts := Extend(ss, acts, Act(0, Run(Null)), s);
  }

  lemma {:induction false} PublishRun(ss0: seq<State>, acts0: seq<Act>, n: nat, b: nat) returns (ss: seq<State>, acts: seq<Act>)
    requires IsRun(true, ss0, acts0)
    requires var s := ss0[|ss0|-1];
             && !s.aborted && |s.slabs| == |s.locks| == CLASSES && s.glb == Open && s.active == Null
             && Pc(s, 0) == ActiveLock(b, n) && b in s.hdr && s.live == {}
    ensures IsRun(true, ss, acts) && acts0 <= acts && |acts| == |acts0| + 4
    ensures var s0 := ss0[|ss0|-1];
            var s := ss[|ss|-1];
            && !s.aborted && |s.slabs| == |s.locks| == CLASSES && s.glb == Open
            && Pc(s, 0) == Idle && s.live == {b} && b in s.hdr && s.hdr[b] == s0.hdr[b].(next := Null)
  {
    ss, acts := LinkRun(ss0, acts0, n, b);
    var s := Exec(true, ss[|ss|-1], 0, Null);
    ss, acts := Extend(ss, acts, Act(0, Run(Null)), s);
    assert Pc(s, 0) == ActiveUnlock(b, n);
    s := Exec(true, s, 0, Null);
    ss, acts := Extend(ss, acts, Act(0, Run(Null)), s);
  }

  lemma {:induction false} LinkRun(ss0: seq<State>, acts0: seq<Act>, n: nat, b: nat) returns (ss: seq<State>, acts: seq<Act>)
    requires IsRun(true, ss0, acts0)
    requires var s := ss0[|ss0|-1];
             && !s.aborted && |s.slabs| == |s.locks| == CLASSES && s.glb == Open && s.active == Null
             && Pc(s, 0) == ActiveLock(b, n) && b in s.hdr && s.live == {}
    ensures IsRun(true, ss, acts) && acts0 <= acts && |acts| == |acts0| + 2
    ensures var s0 := ss0[|ss0|-1];
            var s := ss[|ss|-1];
            && !s.aborted && |s.slabs| == |s.locks| == CLASSES
            && Pc(s, 0) == ActivePublish(b, n) && s.live == {} && b in s.hdr && s.hdr[b] == s0.hdr[b].(next := Null)
  {
    var s := Exec(true, ss0[|ss0|-1], 0, Null);
    ss, acts := Extend(ss0, acts0, Act(0, Run(Null)), s);
    assert Pc(s, 0) == ActiveLink(b, n);
    s := Exec(true, s, 0, Null);
    ss, acts := Extend(ss, acts, Act(0, Run(Null)), s);
  }
}
