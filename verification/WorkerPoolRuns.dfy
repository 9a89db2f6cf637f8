/** What holds of every run of the C thread pool, with any number of workers and calls. */
module WorkerPoolRuns {
  import opened Lists
  import opened WorkerPool

  ghost predicate StepAt(ss: seq<State>, ms: seq<Move>, k: nat)
    requires k < |ms| == |ss| - 1
  {
    Step(ss[k], ms[k], ss[k+1])
  }

  ghost predicate IsRun(n: nat, ss: seq<State>, ms: seq<Move>) {
    |ss| == |ms| + 1 && ss[0] == Initial(n) && forall k :: 0 <= k < |ms| ==> StepAt(ss, ms, k)
  }

  lemma {:induction false} EveryStateSafe(n: nat, ss: seq<State>, ms: seq<Move>, k: nat)
    requires IsRun(n, ss, ms) && k < |ss|
    ensures Inv(ss[k]) && |ss[k].workers| == n
    decreases k
  {
    if k == 0 {
      InitialInv(n);
    } else {
      EveryStateSafe(n, ss, ms, k - 1);
      assert StepAt(ss, ms, k - 1);
      StepKeeps(ss[k-1], ms[k-1], ss[k]);
    }
  }

  // ---------------------------------------------------------------- the queue and its counter

  /** No assertion ever fails, and whenever the mutex is free the counter is the length of
      the list, until pool_destroy empties the list. */
  lemma {:induction false} SizeMatchesQueue(n: nat, ss: seq<State>, ms: seq<Move>, k: nat)
    requires IsRun(n, ss, ms) && k < |ss|
    ensures !ss[k].aborted
    ensures ss[k].lock == Open && !JoinsOver(ss[k].destroyer) ==> ss[k].size == |ss[k].queue|
  {
    EveryStateSafe(n, ss, ms, k);
  }

  /** Tasks start in the order in which they were added, and never more often than that. */
  lemma {:induction false} StartedInOrder(n: nat, ss: seq<State>, ms: seq<Move>, k: nat)
    requires IsRun(n, ss, ms) && k < |ss|
    ensures ss[k].started <= ss[k].added
    ensures ss[k].finished <= multiset(ss[k].started) <= multiset(ss[k].added)
    ensures !JoinsOver(ss[k].destroyer) ==> ss[k].added == ss[k].started + ss[k].queue
  {
    var s := ss[k];
    EveryStateSafe(n, ss, ms, k);
    assert s.added == s.started + (s.freed + s.queue);
    forall x ensures s.finished[x] <= multiset(s.started)[x] {
      assert multiset(s.started)[x] == s.finished[x] + HeldOf(s.workers, x);
    }
  }

  // ---------------------------------------------------------------- the calls

  // The call has linked its task into the queue.
  predicate HasLinked(c: Call) {
    !c.Want? && !c.Inside?
  }

  // The calls made for task x, and those of them that have linked it.
  ghost function CallsFor(calls: map<nat, Call>, x: nat): set<nat> {
    set id | id in calls && calls[id].task == x
  }

  ghost function LinkedFor(calls: map<nat, Call>, x: nat): set<nat> {
    set id | id in calls && HasLinked(calls[id]) && calls[id].task == x
  }

  ghost predicate CallsOk(s: State) {
    forall x :: multiset(s.added)[x] == |LinkedFor(s.calls, x)|
  }

  // A call keeps its task, and links it exactly when it says so.
  lemma {:induction false} AddCall(s: State, id: nat)
    requires id in s.calls
    ensures var s' := AddTo(s, id);
      && id in s'.calls && s'.calls[id].task == s.calls[id].task
      && (HasLinked(s.calls[id]) ==> HasLinked(s'.calls[id]))
      && s'.added == s.added + (if HasLinked(s'.calls[id]) && !HasLinked(s.calls[id]) then [s.calls[id].task] else [])
  {
  }

  lemma {:induction false} LinkedUpdate(calls: map<nat, Call>, id: nat, c: Call, x: nat)
    requires if id in calls then c.task == calls[id].task && (HasLinked(calls[id]) ==> HasLinked(c)) else !HasLinked(c)
    ensures var more := id in calls && !HasLinked(calls[id]) && HasLinked(c) && c.task == x;
      |LinkedFor(calls[id := c], x)| == |LinkedFor(calls, x)| + (if more then 1 else 0)
  {
    if id in calls && !HasLinked(calls[id]) && HasLinked(c) && c.task == x {
      assert LinkedFor(calls[id := c], x) == LinkedFor(calls, x) + {id};
    } else {
      assert LinkedFor(calls[id := c], x) == LinkedFor(calls, x);
    }
  }

  lemma {:induction false} CallsKeep(s: State, m: Move, s': State)
    requires CallsOk(s) && Step(s, m, s')
    ensures CallsOk(s')
  {
    match m
    case Work(i) => WorkFrame(s, i);
    case NewCall(id, task) =>
      forall x ensures multiset(s'.added)[x] == |LinkedFor(s'.calls, x)| { LinkedUpdate(s.calls, id, Want(task), x); }
    case Add(id, target) => CallsAdd(s, id, target, s');
    case _ =>
  }

  lemma {:induction false} CallsAdd(s: State, id: nat, target: nat, s': State)
    requires CallsOk(s) && id in s.calls && AddStep(s, id, target, s')
    ensures CallsOk(s')
  {
    AddFrame(s, id);
    AddCall(s, id);
    forall x ensures multiset(s'.added)[x] == |LinkedFor(s'.calls, x)| {
      assert multiset(s.added)[x] == |LinkedFor(s.calls, x)|;
      LinkedUpdate(s.calls, id, AddTo(s, id).calls[id], x);
    }
  }

  // Call id was made, for this task, in the first k moves.
  ghost predicate MadeWith(ms: seq<Move>, k: nat, id: nat, task: nat)
    requires k <= |ms|
  {
    exists j :: 0 <= j < k && ms[j] == NewCall(id, task)
  }

  lemma {:induction false} CallStays(s: State, m: Move, s': State, id: nat)
    requires Step(s, m, s') && id in s'.calls
    ensures if id in s.calls then s'.calls[id].task == s.calls[id].task else m == NewCall(id, s'.calls[id].task)
  {
    match m
    case Work(i) => WorkFrame(s, i);
    case Add(x, target) => AddFrame(s, x); AddCall(s, x);
    case _ =>
  }

  lemma {:induction false} CallMade(n: nat, ss: seq<State>, ms: seq<Move>, k: nat, id: nat)
    requires IsRun(n, ss, ms) && k < |ss| && id in ss[k].calls
    ensures MadeWith(ms, k, id, ss[k].calls[id].task)
    decreases k
  {
    assert StepAt(ss, ms, k - 1);
    CallStays(ss[k-1], ms[k-1], ss[k], id);
    if id in ss[k-1].calls {
      CallMade(n, ss, ms, k - 1, id);
      var j :| 0 <= j < k - 1 && ms[j] == NewCall(id, ss[k-1].calls[id].task);
      assert j < k;
    } else {
      assert k - 1 < k && ms[k-1] == NewCall(id, ss[k].calls[id].task);
    }
  }

  /** In every state the added tasks are those of exactly the calls that have linked one, once
      for each call, with the task the call was made with. */
  lemma {:induction false} AddedAreTheCalls(n: nat, ss: seq<State>, ms: seq<Move>, k: nat)
    requires IsRun(n, ss, ms) && k < |ss|
    ensures forall x :: multiset(ss[k].added)[x] == |LinkedFor(ss[k].calls, x)|
    ensures forall id :: id in ss[k].calls ==> MadeWith(ms, k, id, ss[k].calls[id].task)
    decreases k
  {
    if k == 0 {
      assert forall x :: LinkedFor(Initial(n).calls, x) == {};
    } else {
      AddedAreTheCalls(n, ss, ms, k - 1);
      assert StepAt(ss, ms, k - 1);
      CallsKeep(ss[k-1], ms[k-1], ss[k]);
    }
    forall id | id in ss[k].calls ensures MadeWith(ms, k, id, ss[k].calls[id].task) { CallMade(n, ss, ms, k, id); }
  }

  /** When pool_destroy returns, the task of every call ever made was either run, once for the
      call, or freed without having been started: the started ones are the oldest. */
  lemma {:induction false} EveryTaskRunOrFreed(n: nat, ss: seq<State>, ms: seq<Move>, k: nat)
    requires IsRun(n, ss, ms) && k < |ss| && ss[k].destroyer.Done?
    ensures ss[k].added == ss[k].started + ss[k].freed && ss[k].finished == multiset(ss[k].started)
    ensures multiset(ss[k].added) == ss[k].finished + multiset(ss[k].freed)
    ensures forall x :: ss[k].finished[x] + multiset(ss[k].freed)[x] == |CallsFor(ss[k].calls, x)|
  {
    var s := ss[k];
    EveryStateSafe(n, ss, ms, k);
    forall x ensures multiset(s.started)[x] == s.finished[x] { HeldNone(s.workers, x); }
    assert s.finished == multiset(s.started);
    assert s.added == s.started + s.freed;
    AddedAreTheCalls(n, ss, ms, k);
    forall x ensures s.finished[x] + multiset(s.freed)[x] == |CallsFor(s.calls, x)| {
      assert LinkedFor(s.calls, x) == CallsFor(s.calls, x);
      assert multiset(s.added)[x] == s.finished[x] + multiset(s.freed)[x];
    }
  }

  /** Until shutdown no wake-up is lost. */
  lemma {:induction false} NoLostWakeUp(n: nat, ss: seq<State>, ms: seq<Move>, k: nat)
    requires IsRun(n, ss, ms) && k < |ss| && n > 0 && ss[k].queue != [] && !ss[k].shutdown
    ensures |ss[k].workers| == n
    ensures (exists i :: 0 <= i < |ss[k].workers| && !OutOfAction(ss[k].workers[i])) || SignalPending(ss[k])
  {
    EveryStateSafe(n, ss, ms, k);
  }

  // ---------------------------------------------------------------- after the flag is set

  // Whether a worker has passed its check of the flag and not yet taken its task.
  ghost function TakingTask(s: State): nat {
    if s.lock.ByWorker? && s.lock.i < |s.workers| &&
       (s.workers[s.lock.i].CheckAsserts? || s.workers[s.lock.i].Shrink? || s.workers[s.lock.i].Pop?)
    then 1 else 0
  }

  lemma {:induction false} WorkTakes(s: State, i: nat)
    requires LockOk(s) && s.shutdown && i < |s.workers| && WorkEnabled(s, i)
    ensures |WorkTo(s, i).started| + TakingTask(WorkTo(s, i)) <= |s.started| + TakingTask(s)
  {
    WorkOwn(s, i);
    assert s.lock == ByWorker(i) <==> WorkerHolds(s.workers[i]);
  }

  lemma {:induction false} AddTakes(s: State, id: nat, target: nat, s': State)
    requires LockOk(s) && id in s.calls && AddStep(s, id, target, s')
    ensures s'.started == s.started && TakingTask(s') <= TakingTask(s)
  {
    AddFrame(s, id);
    assert s.lock == ByCall(id) <==> CallHolds(s.calls[id]);
  }

  lemma {:induction false} StepTakes(s: State, m: Move, s': State)
    requires LockOk(s) && s.shutdown && Step(s, m, s')
    ensures s'.shutdown && |s'.started| + TakingTask(s') <= |s.started| + TakingTask(s)
  {
    match m
    case Work(i) => WorkTakes(s, i); WorkFrame(s, i);
    case Add(id, target) => AddTakes(s, id, target, s'); AddFrame(s, id);
    case _ =>
  }

  /** Once the flag is set, at most one more task is ever started, by a worker that had
      already checked the flag. */
  lemma {:induction false} OneLateStart(n: nat, ss: seq<State>, ms: seq<Move>, k: nat, l: nat)
    requires IsRun(n, ss, ms) && k <= l < |ss| && ss[k].shutdown
    ensures ss[l].shutdown && |ss[l].started| + TakingTask(ss[l]) <= |ss[k].started| + TakingTask(ss[k])
    ensures |ss[l].started| <= |ss[k].started| + 1
    decreases l
  {
    if l > k {
      OneLateStart(n, ss, ms, k, l - 1);
      EveryStateSafe(n, ss, ms, l - 1);
      assert StepAt(ss, ms, l - 1);
      StepTakes(ss[l-1], ms[l-1], ss[l]);
    }
  }

  // ---------------------------------------------------------------- the broadcast

  // Nobody sleeps or is about to.
  ghost predicate AllAwake(s: State) {
    forall i :: 0 <= i < |s.workers| ==> s.workers[i] != Asleep && s.workers[i] != FallAsleep
  }

  lemma {:induction false} AwakeWork(s: State, i: nat)
    requires s.shutdown && AllAwake(s) && i < |s.workers| && WorkEnabled(s, i)
    ensures AllAwake(WorkTo(s, i))
  {
    WorkOwn(s, i);
    var w := WorkTo(s, i).workers[i];
    assert w != Asleep && w != FallAsleep;
  }

  lemma {:induction false} AwakeStep(s: State, m: Move, s': State)
    requires s.shutdown && AllAwake(s) && Step(s, m, s')
    ensures s'.shutdown && AllAwake(s')
  {
    match m
    case Work(i) => AwakeWork(s, i); WorkFrame(s, i);
    case Add(id, target) => AddFrame(s, id);
    case _ =>
  }

  ghost predicate IsBroadcast(s: State, m: Move) {
    s.destroyer.Broadcast? && m.Destroy?
  }

  // Some worker has found the queue empty and the flag clear, and not yet begun to wait.
  ghost predicate BetweenTestAndWait(s: State) {
    exists i :: 0 <= i < |s.workers| && s.workers[i] == FallAsleep
  }

  /** If the broadcast finds no worker between its test and its wait, nobody sleeps from
      then on. */
  lemma {:induction false} BroadcastReachesAll(n: nat, ss: seq<State>, ms: seq<Move>, k: nat, l: nat)
    requires IsRun(n, ss, ms) && k < l < |ss| && IsBroadcast(ss[k], ms[k]) && !BetweenTestAndWait(ss[k])
    ensures ss[l].shutdown && AllAwake(ss[l])
    decreases l
  {
    if l == k + 1 {
      EveryStateSafe(n, ss, ms, k);
      assert StepAt(ss, ms, k);
      assert ss[l].workers == WakeAll(ss[k].workers);
    } else {
      BroadcastReachesAll(n, ss, ms, k, l - 1);
      assert StepAt(ss, ms, l - 1);
      AwakeStep(ss[l-1], ms[l-1], ss[l]);
    }
  }

  // A run that agrees with ss up to and including the broadcast ms[k].
  ghost predicate Continues(n: nat, ss: seq<State>, ms: seq<Move>, k: nat, ss': seq<State>, ms': seq<Move>)
    requires k + 1 < |ss| && |ms| == |ss| - 1
  {
    && IsRun(n, ss', ms') && k + 1 < |ss'|
    && ss'[k] == ss[k] && ms'[k] == ms[k] && ss'[k+1] == ss[k+1]
  }

  // Some run goes on from the broadcast to a state in which a worker sleeps.
  ghost predicate CanStrand(n: nat, ss: seq<State>, ms: seq<Move>, k: nat)
    requires k + 1 < |ss| && |ms| == |ss| - 1
  {
    exists ss', ms' :: Continues(n, ss, ms, k, ss', ms') && AnyAsleep(ss'[|ss'|-1])
  }

  lemma {:induction false} BroadcastMisses(n: nat, ss: seq<State>, ms: seq<Move>, k: nat, i: nat)
    requires IsRun(n, ss, ms) && k < |ms| && IsBroadcast(ss[k], ms[k])
    requires i < |ss[k].workers| && ss[k].workers[i] == FallAsleep && !ss[k+1].aborted
    ensures CanStrand(n, ss, ms, k)
  {
    var s := ss[k+1];
    assert StepAt(ss, ms, k) && s.workers[i] == FallAsleep;
    var t := SetWorker(s, i, Asleep).(lock := Open);
    assert Step(s, Work(i), t);
    var ss0, ms0 := ss[..k+2], ms[..k+1];
    assert ss0[|ss0|-1] == s;
    var ss', ms' := ss0 + [t], ms0 + [Work(i)];
    forall j | 0 <= j < |ms'| ensures StepAt(ss', ms', j) {
      if j < k + 1 { assert StepAt(ss, ms, j); }
    }
    assert Continues(n, ss, ms, k, ss', ms');
    assert ss'[|ss'|-1].workers[i] == Asleep;
  }

  /** The broadcast misses a worker exactly when it finds one between its test and its wait. */
  lemma {:induction false} StrandedIff(n: nat, ss: seq<State>, ms: seq<Move>, k: nat)
    requires IsRun(n, ss, ms) && k < |ms| && IsBroadcast(ss[k], ms[k])
    ensures CanStrand(n, ss, ms, k) <==> BetweenTestAndWait(ss[k])
  {
    if i :| 0 <= i < |ss[k].workers| && ss[k].workers[i] == FallAsleep {
      EveryStateSafe(n, ss, ms, k + 1);
      BroadcastMisses(n, ss, ms, k, i);
    } else if CanStrand(n, ss, ms, k) {
      var ss', ms' :| Continues(n, ss, ms, k, ss', ms') && AnyAsleep(ss'[|ss'|-1]);
      BroadcastReachesAll(n, ss', ms', k, |ss'| - 1);
    }
  }

  // Worker i sleeps after the broadcast, so the joins wait for it.
  ghost predicate Stranded(s: State, i: nat) {
    i < |s.workers| && s.workers[i] == Asleep && s.destroyer.Joining? && s.destroyer.k <= i
  }

  // The moves that can wake a sleeper: a spurious wake-up, or the signal of a late call.
  predicate MayWake(s: State, m: Move) {
    m.Spurious? || (m.Add? && m.id in s.calls && s.calls[m.id].Signal?)
  }

  predicate NothingWakes(ss: seq<State>, ms: seq<Move>, k: nat, l: nat)
    requires k <= l <= |ms| <= |ss|
    decreases l
  {
    k == l || (!MayWake(ss[l-1], ms[l-1]) && NothingWakes(ss, ms, k, l - 1))
  }

  lemma {:induction false} StrandedStep(s: State, m: Move, s': State, i: nat)
    requires Stranded(s, i) && Step(s, m, s') && !MayWake(s, m)
    ensures Stranded(s', i)
  {
    match m
    case Work(j) => WorkFrame(s, j);
    case Add(id, target) => AddFrame(s, id);
    case _ =>
  }

  /** A stranded worker sleeps on, and pool_destroy does not return, as long as there is no
      spurious wake-up and no signal of a further pool_add_worker call. */
  lemma {:induction false} StrandedForever(n: nat, ss: seq<State>, ms: seq<Move>, k: nat, l: nat, i: nat)
    requires IsRun(n, ss, ms) && k <= l < |ss| && Stranded(ss[k], i)
    requires NothingWakes(ss, ms, k, l)
    ensures Stranded(ss[l], i) && !ss[l].destroyer.Done?
    decreases l
  {
    if k < l {
      StrandedForever(n, ss, ms, k, l - 1, i);
      assert StepAt(ss, ms, l - 1);
      StrandedStep(ss[l-1], ms[l-1], ss[l], i);
    }
  }

  // Worker i has committed itself to sleep, or sleeps, and the joins wait for it.
  ghost predicate Missed(s: State, i: nat) {
    && i < |s.workers| && (s.workers[i] == FallAsleep || s.workers[i] == Asleep)
    && s.destroyer.Joining? && s.destroyer.k <= i
  }

  lemma {:induction false} MissedStep(s: State, m: Move, s': State, i: nat)
    requires Missed(s, i) && Step(s, m, s') && !MayWake(s, m)
    ensures Missed(s', i)
  {
    match m
    case Work(j) => WorkFrame(s, j);
    case Add(id, target) => AddFrame(s, id);
    case _ =>
  }

  /** If the broadcast finds a worker between its test and its wait, no continuation at all
      gets pool_destroy to return without a spurious wake-up or the signal of a further
      pool_add_worker call. */
  lemma {:induction false} MissedNeverReturns(n: nat, ss: seq<State>, ms: seq<Move>, k: nat, l: nat)
    requires IsRun(n, ss, ms) && k < l < |ss| && IsBroadcast(ss[k], ms[k]) && BetweenTestAndWait(ss[k])
    requires NothingWakes(ss, ms, k + 1, l)
    ensures !ss[l].destroyer.Done?
  {
    var i :| 0 <= i < |ss[k].workers| && ss[k].workers[i] == FallAsleep;
    StaysMissed(n, ss, ms, k, l, i);
  }

  lemma {:induction false} StaysMissed(n: nat, ss: seq<State>, ms: seq<Move>, k: nat, l: nat, i: nat)
    requires IsRun(n, ss, ms) && k < l < |ss| && IsBroadcast(ss[k], ms[k])
    requires i < |ss[k].workers| && ss[k].workers[i] == FallAsleep && NothingWakes(ss, ms, k + 1, l)
    ensures Missed(ss[l], i)
    decreases l
  {
    assert StepAt(ss, ms, l - 1);
    if l > k + 1 {
      StaysMissed(n, ss, ms, k, l - 1, i);
      MissedStep(ss[l-1], ms[l-1], ss[l], i);
    }
  }

  /** A reachable run in which pool_destroy hangs: the one worker finds nothing to do and no
      flag, the flag is set and broadcast, and only then does the worker wait. */
  lemma {:induction false} DestroyHangs() returns (ss: seq<State>, ms: seq<Move>)
    ensures IsRun(1, ss, ms) && Stranded(ss[|ss|-1], 0)
  {
    ss, ms := [Initial(1)], [];
    ss, ms := WorkOn(ss, ms, TestSize);
    ss, ms := WorkOn(ss, ms, TestShutdown);
    ss, ms := WorkOn(ss, ms, FallAsleep);
    var s := ss[|ss|-1];
    ss, ms := Extend(1, ss, ms, Destroy, s.(destroyer := SetFlag));
    ss, ms := Extend(1, ss, ms, Destroy, s.(destroyer := Broadcast, shutdown := true));
    assert WakeAll(s.workers) == s.workers;
    ss, ms := Extend(1, ss, ms, Destroy, s.(destroyer := Joining(0), shutdown := true));
    ss, ms := WorkOn(ss, ms, Asleep);
  }

  lemma {:induction false} WorkOn(ss: seq<State>, ms: seq<Move>, w: Worker) returns (ss': seq<State>, ms': seq<Move>)
    requires IsRun(1, ss, ms)
    requires var s := ss[|ss|-1];
      && s.workers != [] && !s.aborted && WorkEnabled(s, 0) && WorkTo(s, 0).workers == [w]
    ensures IsRun(1, ss', ms') && ss'[|ss'|-1] == WorkTo(ss[|ss|-1], 0)
  {
    ss', ms' := Extend(1, ss, ms, Work(0), WorkTo(ss[|ss|-1], 0));
  }

  lemma {:induction false} Extend(n: nat, ss: seq<State>, ms: seq<Move>, m: Move, s': State) returns (ss': seq<State>, ms': seq<Move>)
    requires IsRun(n, ss, ms) && Step(ss[|ss|-1], m, s')
    ensures IsRun(n, ss', ms') && ss'[|ss'|-1] == s'
  {
    ss', ms' := ss + [s'], ms + [m];
    forall k | 0 <= k < |ms'| ensures StepAt(ss', ms', k) {
      if k < |ms| { assert StepAt(ss, ms, k); }
    }
  }

  // ---------------------------------------------------------------- the joins complete

  // How many steps a worker that is not going to sleep has left, once the flag is set.
  function Weight(w: Worker): nat {
    match w
    case CheckAsserts => 10
    case Shrink => 9
    case Pop => 8
    case Got(_) => 7
    case Running(_) => 6
    case Start => 5
    case Woken => 5
    case TestSize => 4
    case TestShutdown => 3
    case Check => 2
    case Leave => 1
    case _ => 0
  }

  ghost function Weights(ws: seq<Worker>): seq<nat> {
    seq(|ws|, i requires 0 <= i < |ws| => Weight(ws[i]))
  }

  lemma {:induction false} WorkWeight(s: State, i: nat)
    requires s.shutdown && AllAwake(s) && i < |s.workers| && WorkEnabled(s, i) && (s.workers[i].Pop? ==> s.queue != [])
    ensures |WorkTo(s, i).workers| == |s.workers| && Weight(WorkTo(s, i).workers[i]) < Weight(s.workers[i])
  {
    WorkOwn(s, i);
  }

  /** How many steps the workers and the joins can still take. */
  ghost function Remaining(s: State): int {
    Sum(Weights(s.workers)) + (if s.destroyer.Joining? then |s.workers| + 1 - s.destroyer.k else 0)
  }

  predicate IsPoolMove(m: Move) {
    m.Work? || m.Destroy?
  }

  /** After a broadcast that reached everyone, every step of a worker or of the joins uses
      up part of the measure, and no other step adds to it. */
  lemma {:induction false} RemainingDecreases(s: State, m: Move, s': State)
    requires Inv(s) && s.destroyer.Joining? && AllAwake(s) && Step(s, m, s')
    ensures s'.destroyer.Joining? || s'.destroyer.Draining?
    ensures IsPoolMove(m) ==> Remaining(s') < Remaining(s)
    ensures !IsPoolMove(m) ==> Remaining(s') == Remaining(s)
    ensures Remaining(s') >= 0
  {
    match m
    case Work(i) => RemainingWork(s, i);
    case Add(id, target) => AddFrame(s, id); assert !AnyAsleep(s);
    case _ =>
  }

  lemma {:induction false} RemainingWork(s: State, i: nat)
    requires Inv(s) && s.destroyer.Joining? && AllAwake(s) && i < |s.workers| && WorkEnabled(s, i)
    ensures WorkTo(s, i).destroyer == s.destroyer && 0 <= Remaining(WorkTo(s, i)) < Remaining(s)
  {
    assert s.lock == ByWorker(i) <==> WorkerHolds(s.workers[i]);
    WorkFrame(s, i);
    WorkWeight(s, i);
    var w := WorkTo(s, i).workers[i];
    SumUpdate(Weights(s.workers), i, Weight(w));
    assert Weights(WorkTo(s, i).workers) == Weights(s.workers)[i := Weight(w)];
  }

  // How many of the moves from k up to l are the pool's own.
  ghost function PoolMoves(ms: seq<Move>, k: nat, l: nat): nat
    requires l <= |ms|
    decreases l
  {
    if l <= k then 0 else PoolMoves(ms, k, l - 1) + (if IsPoolMove(ms[l-1]) then 1 else 0)
  }

  /** Every schedule after such a broadcast is finite: as long as pool_destroy still joins,
      the workers and the joins together take at most Remaining steps. */
  lemma {:induction false} JoinsBounded(n: nat, ss: seq<State>, ms: seq<Move>, k: nat, l: nat)
    requires IsRun(n, ss, ms) && k < l < |ss| && IsBroadcast(ss[k], ms[k]) && !BetweenTestAndWait(ss[k])
    requires ss[l].destroyer.Joining?
    ensures 0 <= Remaining(ss[l]) && PoolMoves(ms, k + 1, l) + Remaining(ss[l]) <= Remaining(ss[k+1])
    decreases l
  {
    if l == k + 1 {
      JoiningRemaining(n, ss, ms, l);
    } else {
      StillJoining(n, ss, ms, k, l - 1);
      JoinsBounded(n, ss, ms, k, l - 1);
      JoinStep(n, ss, ms, k, l - 1);
    }
  }

  lemma {:induction false} JoiningRemaining(n: nat, ss: seq<State>, ms: seq<Move>, k: nat)
    requires IsRun(n, ss, ms) && k < |ss| && ss[k].destroyer.Joining?
    ensures Remaining(ss[k]) >= 0
  {
    EveryStateSafe(n, ss, ms, k);
  }

  lemma {:induction false} JoinStep(n: nat, ss: seq<State>, ms: seq<Move>, k: nat, l: nat)
    requires IsRun(n, ss, ms) && k < l < |ms| && IsBroadcast(ss[k], ms[k]) && !BetweenTestAndWait(ss[k])
    requires ss[l].destroyer.Joining?
    ensures 0 <= Remaining(ss[l+1]) <= Remaining(ss[l]) - (if IsPoolMove(ms[l]) then 1 else 0)
  {
    EveryStateSafe(n, ss, ms, l);
    BroadcastReachesAll(n, ss, ms, k, l);
    assert StepAt(ss, ms, l);
    RemainingDecreases(ss[l], ms[l], ss[l+1]);
  }

  // pool_destroy does not go back to joining.
  lemma {:induction false} StillJoining(n: nat, ss: seq<State>, ms: seq<Move>, k: nat, l: nat)
    requires IsRun(n, ss, ms) && k < l < |ss| - 1 && IsBroadcast(ss[k], ms[k]) && ss[l+1].destroyer.Joining?
    ensures ss[l].destroyer.Joining?
    decreases l
  {
    AfterBroadcast(n, ss, ms, k, l);
    assert StepAt(ss, ms, l);
    StepDestroyer(ss[l], ms[l], ss[l+1]);
  }

  lemma {:induction false} AfterBroadcast(n: nat, ss: seq<State>, ms: seq<Move>, k: nat, l: nat)
    requires IsRun(n, ss, ms) && k < l < |ss| && IsBroadcast(ss[k], ms[k])
    ensures ss[l].destroyer.Joining? || JoinsOver(ss[l].destroyer)
    decreases l
  {
    assert StepAt(ss, ms, l - 1);
    if l > k + 1 {
      AfterBroadcast(n, ss, ms, k, l - 1);
      StepDestroyer(ss[l-1], ms[l-1], ss[l]);
    }
  }

  lemma {:induction false} StepDestroyer(s: State, m: Move, s': State)
    requires Step(s, m, s')
    ensures s'.destroyer == s.destroyer || m.Destroy?
    ensures JoinsOver(s.destroyer) ==> JoinsOver(s'.destroyer)
    ensures s.destroyer.Joining? ==> s'.destroyer.Joining? || s'.destroyer.Draining?
  {
    match m
    case Work(i) => WorkFrame(s, i);
    case Add(id, target) => AddFrame(s, id);
    case _ =>
  }

  ghost predicate CanStep(s: State, m: Move) {
    exists s' :: Step(s, m, s')
  }

  /** Exactly what each agent waits for: a worker for the mutex when it needs it, or asleep for
      a wake-up; a call for the mutex; pool_destroy for the next worker to exit and, after the
      last, for the calls in progress. New calls may come until then. */
  lemma {:induction false} WhoCanMove(n: nat, ss: seq<State>, ms: seq<Move>, k: nat, i: nat, id: nat, task: nat)
    requires IsRun(n, ss, ms) && k < |ss|
    ensures |ss[k].workers| == n
    ensures var s := ss[k];
      && (CanStep(s, Work(i)) <==> i < n && !OutOfAction(s.workers[i]) && (s.workers[i].Start? || s.workers[i].Woken? ==> s.lock == Open))
      && (CanStep(s, Spurious(i)) <==> i < n && s.workers[i].Asleep?)
      && (CanStep(s, NewCall(id, task)) <==> id !in s.calls && !JoinsOver(s.destroyer))
      && ((exists target :: CanStep(s, Add(id, target))) <==>
            id in s.calls && !s.calls[id].Returned? && (s.calls[id].Want? ==> s.lock == Open))
      && (CanStep(s, Destroy) <==>
            && !s.destroyer.Done?
            && (s.destroyer.Joining? ==> if s.destroyer.k < n then s.workers[s.destroyer.k].Exited? else AllReturned(s)))
  {
    EveryStateSafe(n, ss, ms, k);
    var s := ss[k];
    if i < n {
      if WorkEnabled(s, i) { assert Step(s, Work(i), WorkTo(s, i)); }
      if s.workers[i].Asleep? { assert Step(s, Spurious(i), SetWorker(s, i, Woken)); }
    }
    CallsMove(s, id, task);
    EarlyDestroyerMoves(s);
    if (s.destroyer.Joining? && if s.destroyer.k < n then s.workers[s.destroyer.k].Exited? else AllReturned(s)) || s.destroyer.Draining? {
      DestroyerMoves(s);
    }
  }

  lemma {:induction false} CallsMove(s: State, id: nat, task: nat)
    requires !s.aborted
    ensures CanStep(s, NewCall(id, task)) <==> id !in s.calls && !JoinsOver(s.destroyer)
    ensures (exists target :: CanStep(s, Add(id, target))) <==>
      id in s.calls && !s.calls[id].Returned? && (s.calls[id].Want? ==> s.lock == Open)
  {
    if id !in s.calls {
      if !JoinsOver(s.destroyer) { assert Step(s, NewCall(id, task), SetCall(s, id, Want(task))); }
    } else if AddEnabled(s, id) {
      var target := AddCanStep(s, id);
    }
  }

  lemma {:induction false} AddCanStep(s: State, id: nat) returns (target: nat)
    requires !s.aborted && id in s.calls && AddEnabled(s, id)
    ensures CanStep(s, Add(id, target))
  {
    target := 0;
    var s' := AddTo(s, id);
    if s.calls[id].Signal? && AnyAsleep(s) {
      target :| 0 <= target < |s.workers| && s.workers[target] == Asleep;
      AddFrame(s, id);
      s' := SetWorker(s', target, Woken);
    }
    assert Step(s, Add(id, target), s');
  }

  lemma {:induction false} EarlyDestroyerMoves(s: State)
    requires !s.aborted
    ensures s.destroyer.NotCalled? || s.destroyer.SetFlag? || s.destroyer.Broadcast? ==> CanStep(s, Destroy)
  {
    match s.destroyer
    case NotCalled => assert Step(s, Destroy, s.(destroyer := SetFlag));
    case SetFlag => assert Step(s, Destroy, s.(destroyer := Broadcast, shutdown := true));
    case Broadcast => assert Step(s, Destroy, s.(destroyer := Joining(0), workers := WakeAll(s.workers)));
    case _ =>
  }

  /** After such a broadcast pool_destroy is never stuck: until it returns, a worker, the
      destroyer, or a pool_add_worker call still in progress can move. */
  lemma {:induction false} DestroyProgress(n: nat, ss: seq<State>, ms: seq<Move>, k: nat, l: nat) returns (m: Move)
    requires IsRun(n, ss, ms) && k < l < |ss| && IsBroadcast(ss[k], ms[k]) && !BetweenTestAndWait(ss[k])
    requires !ss[l].destroyer.Done?
    ensures CanStep(ss[l], m) && (IsPoolMove(m) || m.Add?)
  {
    var s := ss[l];
    EveryStateSafe(n, ss, ms, l);
    BroadcastReachesAll(n, ss, ms, k, l);
    AfterBroadcast(n, ss, ms, k, l);
    if s.lock.ByCall? || (s.lock == Open && !AllReturned(s)) {
      m := CallMoves(s);
    } else if s.lock.ByWorker? {
      m := Work(s.lock.i);
      assert Step(s, m, WorkTo(s, s.lock.i));
    } else if s.destroyer.Joining? && s.destroyer.k < n && s.workers[s.destroyer.k] != Exited {
      m := Work(s.destroyer.k);
      assert Step(s, m, WorkTo(s, s.destroyer.k));
    } else {
      m := Destroy;
      DestroyerMoves(s);
    }
  }

  lemma {:induction false} CallMoves(s: State) returns (m: Move)
    requires Inv(s) && (s.lock.ByCall? || (s.lock == Open && !AllReturned(s)))
    ensures CanStep(s, m) && m.Add?
  {
    var id: nat;
    if s.lock.ByCall? {
      id := s.lock.id;
      assert CallHolds(s.calls[id]);
    } else {
      id :| id in s.calls && !s.calls[id].Returned?;
    }
    var target := AddCanStep(s, id);
    m := Add(id, target);
  }

  lemma {:induction false} DestroyerMoves(s: State)
    requires !s.aborted && (s.destroyer.Joining? || s.destroyer.Draining?)
    requires s.destroyer.Joining? ==> if s.destroyer.k < |s.workers| then s.workers[s.destroyer.k] == Exited else AllReturned(s)
    ensures CanStep(s, Destroy)
  {
    var s' :=
      if s.destroyer.Joining? then
        (if s.destroyer.k < |s.workers| then s.(destroyer := Joining(s.destroyer.k + 1)) else s.(destroyer := Draining))
      else if s.queue == [] then s.(destroyer := Done)
      else s.(queue := s.queue[1..], freed := s.freed + [s.queue[0]]);
    assert Step(s, Destroy, s');
  }

  // While the queue is freed nothing else moves; after the return nothing moves at all.
  lemma {:induction false} DrainStep(s: State, m: Move, s': State)
    requires Inv(s) && JoinsOver(s.destroyer) && Step(s, m, s')
    ensures m.Destroy? && s.destroyer.Draining?
    ensures if s.queue == [] then s'.destroyer.Done? else s'.destroyer.Draining? && |s'.queue| == |s.queue| - 1
  {
  }

  /** Once the joins are over the run goes on for exactly one step for each task still
      queued and one more, and only then has pool_destroy returned. */
  lemma {:induction false} DrainEnds(n: nat, ss: seq<State>, ms: seq<Move>, k: nat, l: nat)
    requires IsRun(n, ss, ms) && k <= l < |ss| && ss[k].destroyer.Draining?
    ensures l <= k + |ss[k].queue| + 1
    ensures ss[l].destroyer.Done? <==> l == k + |ss[k].queue| + 1
    ensures ss[l].destroyer.Draining? <==> |ss[l].queue| == |ss[k].queue| - (l - k)
    ensures JoinsOver(ss[l].destroyer)
    decreases l
  {
    if k < l {
      DrainEnds(n, ss, ms, k, l - 1);
      DrainNext(n, ss, ms, l - 1);
    }
  }

  lemma {:induction false} DrainNext(n: nat, ss: seq<State>, ms: seq<Move>, k: nat)
    requires IsRun(n, ss, ms) && k < |ms| && JoinsOver(ss[k].destroyer)
    ensures ss[k].destroyer.Draining?
    ensures if ss[k].queue == [] then ss[k+1].destroyer.Done? && ss[k+1].queue == []
            else ss[k+1].destroyer.Draining? && |ss[k+1].queue| == |ss[k].queue| - 1
  {
    EveryStateSafe(n, ss, ms, k);
    EveryStateSafe(n, ss, ms, k + 1);
    assert StepAt(ss, ms, k);
    DrainStep(ss[k], ms[k], ss[k+1]);
  }

  // ---------------------------------------------------------------- every move counts

  // How many of the first k moves are those of call id, and those of the destroyer.
  ghost function MovesOfCall(ms: seq<Move>, id: nat, k: nat): nat
    requires k <= |ms|
    decreases k
  {
    if k == 0 then 0 else MovesOfCall(ms, id, k - 1) + (if ms[k-1].Add? && ms[k-1].id == id then 1 else 0)
  }

  ghost function MovesOfDestroyer(ms: seq<Move>, k: nat): nat
    requires k <= |ms|
    decreases k
  {
    if k == 0 then 0 else MovesOfDestroyer(ms, k - 1) + (if ms[k-1].Destroy? then 1 else 0)
  }

  // How far a call, and pool_destroy, has come.
  function CallStage(c: Call): nat {
    match c
    case Want(_) => 0
    case Inside(_) => 1
    case Linked(_) => 2
    case Count(_) => 3
    case Counted(_) => 4
    case Signal(_) => 5
    case Returned(_) => 6
  }

  function DestroyerStage(s: State): nat {
    match s.destroyer
    case NotCalled => 0
    case SetFlag => 1
    case Broadcast => 2
    case Joining(k) => 3 + k
    case Draining => 4 + |s.workers| + |s.freed|
    case Done => 5 + |s.workers| + |s.freed|
  }

  lemma {:induction false} CallStageStep(s: State, m: Move, s': State, id: nat)
    requires Step(s, m, s')
    ensures id in s.calls ==>
      (id in s'.calls && CallStage(s'.calls[id]) == CallStage(s.calls[id]) + (if m.Add? && m.id == id then 1 else 0))
    ensures id !in s.calls ==> !(m.Add? && m.id == id) && (id in s'.calls ==> s'.calls[id].Want?)
  {
    match m
    case Work(i) => WorkFrame(s, i);
    case Add(x, target) => AddFrame(s, x); AddStage(s, x);
    case _ =>
  }

  lemma {:induction false} AddStage(s: State, id: nat)
    requires id in s.calls && !s.calls[id].Returned?
    ensures id in AddTo(s, id).calls && CallStage(AddTo(s, id).calls[id]) == CallStage(s.calls[id]) + 1
  {
  }

  /** No call goes round in circles: it has taken exactly as many moves as its stage says, six
      when it returns. */
  lemma {:induction false} CallMovesCounted(n: nat, ss: seq<State>, ms: seq<Move>, k: nat, id: nat)
    requires IsRun(n, ss, ms) && k < |ss|
    ensures MovesOfCall(ms, id, k) == if id in ss[k].calls then CallStage(ss[k].calls[id]) else 0
    decreases k
  {
    if k > 0 {
      CallMovesCounted(n, ss, ms, k - 1, id);
      assert StepAt(ss, ms, k - 1);
      CallStageStep(ss[k-1], ms[k-1], ss[k], id);
    }
  }

  /** Neither does pool_destroy: it returns with its move number five, and one more for each
      worker and for each task it frees. */
  lemma {:induction false} DestroyerMovesCounted(n: nat, ss: seq<State>, ms: seq<Move>, k: nat)
    requires IsRun(n, ss, ms) && k < |ss|
    ensures MovesOfDestroyer(ms, k) == DestroyerStage(ss[k])
    decreases k
  {
    if k > 0 {
      DestroyerMovesCounted(n, ss, ms, k - 1);
      DestroyerStageAt(n, ss, ms, k - 1);
    }
  }

  lemma {:induction false} DestroyerStageAt(n: nat, ss: seq<State>, ms: seq<Move>, k: nat)
    requires IsRun(n, ss, ms) && k < |ms|
    ensures DestroyerStage(ss[k+1]) == DestroyerStage(ss[k]) + (if ms[k].Destroy? then 1 else 0)
  {
    EveryStateSafe(n, ss, ms, k);
    assert StepAt(ss, ms, k);
    StepKeeps(ss[k], ms[k], ss[k+1]);
    DestroyerStageStep(ss[k], ms[k], ss[k+1]);
  }

  lemma {:induction false} DestroyerStageStep(s: State, m: Move, s': State)
    requires Step(s, m, s') && JoinOk(s) && HistoryOk(s) && |s'.workers| == |s.workers|
    ensures DestroyerStage(s') == DestroyerStage(s) + (if m.Destroy? then 1 else 0)
  {
    match m
    case Work(i) => WorkFrame(s, i);
    case Add(x, target) => AddFrame(s, x);
    case _ =>
  }

  // ---------------------------------------------------------------- what a worker does with the mutex

  // Worker i does not move between k and l.
  ghost predicate Pauses(ms: seq<Move>, i: nat, k: nat, l: nat)
    requires l <= |ms|
    decreases l
  {
    l <= k || (ms[l-1] != Work(i) && Pauses(ms, i, k, l - 1))
  }

  lemma {:induction false} HeldStill(s: State, m: Move, s': State, i: nat)
    requires Inv(s) && Step(s, m, s') && i < |s.workers| && WorkerHolds(s.workers[i]) && m != Work(i)
    ensures |s'.workers| == |s.workers| && s'.workers[i] == s.workers[i] && s'.queue == s.queue && s'.size == s.size
  {
    assert s.lock == ByWorker(i);
    match m
    case Work(j) =>
      assert s.lock == ByWorker(j) <==> WorkerHolds(s.workers[j]);
      OutsideEffect(s, j);
    case Add(id, target) =>
      assert s.lock == ByCall(id) <==> CallHolds(s.calls[id]);
      AddFrame(s, id);
    case _ =>
  }

  lemma {:induction false} OutsideEffect(s: State, i: nat)
    requires i < |s.workers| && !WorkerHolds(s.workers[i])
    ensures WorkTo(s, i).queue == s.queue && WorkTo(s, i).size == s.size
    ensures |WorkTo(s, i).workers| == |s.workers| && forall j :: 0 <= j < |s.workers| && j != i ==> WorkTo(s, i).workers[j] == s.workers[j]
  {
  }

  lemma {:induction false} FrozenWhile(n: nat, ss: seq<State>, ms: seq<Move>, i: nat, k: nat, l: nat)
    requires IsRun(n, ss, ms) && k <= l < |ss| && i < n && |ss[k].workers| == n && WorkerHolds(ss[k].workers[i]) && Pauses(ms, i, k, l)
    ensures |ss[l].workers| == n && ss[l].workers[i] == ss[k].workers[i] && ss[l].queue == ss[k].queue && ss[l].size == ss[k].size
    decreases l
  {
    if k < l {
      FrozenWhile(n, ss, ms, i, k, l - 1);
      EveryStateSafe(n, ss, ms, l - 1);
      assert StepAt(ss, ms, l - 1);
      HeldStill(ss[l-1], ms[l-1], ss[l], i);
    }
  }

  // Worker i's moves k and l are successive.
  ghost predicate NextOwn(ms: seq<Move>, i: nat, k: nat, l: nat) {
    k < l < |ms| && ms[k] == Work(i) && ms[l] == Work(i) && Pauses(ms, i, k + 1, l)
  }

  // One move of a worker inside the mutex, and the pause after it.
  lemma {:induction false} InsideMove(n: nat, ss: seq<State>, ms: seq<Move>, i: nat, k: nat, l: nat)
    requires IsRun(n, ss, ms) && NextOwn(ms, i, k, l) && i < n && |ss[k].workers| == n
    requires WorkerHolds(ss[k].workers[i]) && WorkerHolds(NextWorker(ss[k], i))
    ensures |ss[l].workers| == n && ss[l].workers[i] == NextWorker(ss[k], i)
    ensures ss[l].queue == Effect(ss[k], i).queue && ss[l].size == Effect(ss[k], i).size
  {
    assert StepAt(ss, ms, k);
    WorkFrame(ss[k], i);
    FrozenWhile(n, ss, ms, i, k + 1, l);
  }

  /** A worker that checks while a task is queued, and finds the flag clear, runs the front
      task: its sixth move from the test of the size starts it, whatever others do in between. */
  lemma {:induction false} TakesFrontTask(n: nat, ss: seq<State>, ms: seq<Move>, i: nat, k0: nat, k1: nat, k2: nat, k3: nat, k4: nat, k5: nat)
    requires IsRun(n, ss, ms) && i < n && NextOwn(ms, i, k0, k1) && NextOwn(ms, i, k1, k2) && NextOwn(ms, i, k2, k3)
    requires NextOwn(ms, i, k3, k4) && NextOwn(ms, i, k4, k5)
    requires |ss[k0].workers| == n && ss[k0].workers[i].TestSize? && ss[k0].queue != [] && !ss[k1].shutdown
    ensures |ss[k5+1].workers| == n && ss[k5+1].workers[i] == Running(ss[k0].queue[0])
  {
    SizeWhileTesting(n, ss, ms, k0, i);
    InsideMove(n, ss, ms, i, k0, k1);
    assert ss[k1].workers[i] == Check;
    InsideMove(n, ss, ms, i, k1, k2);
    assert ss[k2].workers[i] == CheckAsserts;
    InsideMove(n, ss, ms, i, k2, k3);
    assert ss[k3].workers[i] == Shrink;
    InsideMove(n, ss, ms, i, k3, k4);
    assert ss[k4].workers[i] == Pop && ss[k4].queue == ss[k0].queue;
    InsideMove(n, ss, ms, i, k4, k5);
    assert ss[k5].workers[i] == Got(ss[k0].queue[0]);
    assert StepAt(ss, ms, k5);
  }

  lemma {:induction false} SizeWhileTesting(n: nat, ss: seq<State>, ms: seq<Move>, k: nat, i: nat)
    requires IsRun(n, ss, ms) && k < |ms| && i < n && |ss[k].workers| == n && ss[k].workers[i].TestSize? && ss[k].queue != []
    ensures ss[k].size != 0
  {
    EveryStateSafe(n, ss, ms, k);
    assert ss[k].lock == ByWorker(i);
    assert !JoinsOver(ss[k].destroyer);
  }

  /** Outside the mutex a worker's move leads back to the test, or finishes its task. */
  lemma {:induction false} OutsideMutex(n: nat, ss: seq<State>, ms: seq<Move>, i: nat, k: nat)
    requires IsRun(n, ss, ms) && k < |ms| && ms[k] == Work(i) && i < n
    ensures |ss[k].workers| == |ss[k+1].workers| == n
    ensures ss[k].workers[i].Start? || ss[k].workers[i].Woken? ==> ss[k+1].workers[i].TestSize?
    ensures ss[k].workers[i].Running? ==>
      ss[k+1].workers[i].Start? && ss[k+1].finished == ss[k].finished + multiset{ss[k].workers[i].task}
  {
    EveryStateSafe(n, ss, ms, k);
    EveryStateSafe(n, ss, ms, k + 1);
    assert StepAt(ss, ms, k);
  }
}
