/** What holds of every run of the C++ thread pool, with any number of workers and calls. */
module TaskPoolRuns {
  import opened Lists
  import opened TaskPool

  ghost predicate StepAt(ss: seq<State>, ms: seq<Move>, k: nat)
    requires k < |ms| == |ss| - 1
  {
    Step(ss[k], ms[k], ss[k+1])
  }

  ghost predicate IsRun(n: nat, ss: seq<State>, ms: seq<Move>) {
    |ss| == |ms| + 1 && ss[0] == Initial(n) && forall k :: 0 <= k < |ms| ==> StepAt(ss, ms, k)
  }

  lemma {:induction false} EveryStateSafe(n: nat, ss: seq<State>, ms: seq<Move>, k: nat)
    requires IsRun(n, ss, ms) && k < |ss|
    ensures Inv(ss[k]) && |ss[k].workers| == n
    decreases k
  {
    if k == 0 {
      InitialInv(n);
    } else {
      EveryStateSafe(n, ss, ms, k - 1);
      assert StepAt(ss, ms, k - 1);
      StepKeeps(ss[k-1], ms[k-1], ss[k]);
      MovesOneWorker(ss[k-1], ms[k-1], ss[k]);
    }
  }

  // ---------------------------------------------------------------- wake-ups

  /** No lost wake-up, in every state of every run: while tasks are queued, some worker is
      neither asleep nor gone, or a notification is still to be sent. */
  lemma {:induction false} NoLostWakeUp(n: nat, ss: seq<State>, ms: seq<Move>, k: nat)
    requires IsRun(n, ss, ms) && k < |ss| && n > 0 && ss[k].queue != []
    ensures |ss[k].workers| == n
    ensures (exists i :: 0 <= i < |ss[k].workers| && !OutOfAction(ss[k].workers[i])) || NotifyPending(ss[k])
  {
    EveryStateSafe(n, ss, ms, k);
  }

  ghost predicate CanStep(s: State, m: Move) {
    exists s' :: Step(s, m, s')
  }

  // A step the pool takes by itself: no spurious wake-up, no new call.
  predicate IsProgress(m: Move) {
    m.Work? || m.Enqueue? || m.Destroy?
  }

  // Whoever holds the mutex can go on.
  lemma {:induction false} HolderCanStep(s: State) returns (m: Move)
    requires Inv(s) && s.lock != Open
    ensures CanStep(s, m) && IsProgress(m)
    ensures s.lock.ByCall? ==> m.Enqueue? && m.id == s.lock.id
    ensures !s.lock.ByCall? ==> !m.Enqueue?
  {
    match s.lock
    case ByWorker(i) =>
      m := Work(i);
      assert WorkerHolds(s.workers[i]) && WorkerOk(s, i);
      WorkerCanStep(s, i);
    case ByCall(id) =>
      m := Enqueue(id, 0);
      assert CallHolds(s.calls[id]);
      CallCanStep(s, id);
    case ByDestructor =>
      m := Destroy;
      DestructorCanStep(s);
  }

  lemma {:induction false} WorkerCanStep(s: State, i: nat)
    requires i < |s.workers| && WorkerOk(s, i) && !OutOfAction(s.workers[i])
    requires WorkerHolds(s.workers[i]) || s.lock == Open
    ensures CanStep(s, Work(i))
  {
    var w := s.workers[i];
    var s' :=
      match w
      case Start => SetWorker(s, i, Test).(lock := ByWorker(i))
      case Woken => SetWorker(s, i, Test).(lock := ByWorker(i))
      case Test => SetWorker(s, i, if s.stop || s.queue != [] then Decide else FallAsleep)
      case FallAsleep => SetWorker(s, i, Asleep).(lock := Open)
      case Decide => if s.stop && s.queue == [] then SetWorker(s, i, Exited).(lock := Open) else SetWorker(s, i, Take)
      case Take => SetWorker(s, i, Running(s.queue[0])).(lock := Open, queue := s.queue[1..], started := s.started + [s.queue[0]])
      case Running(task) => SetWorker(s, i, Start).(finished := s.finished + multiset{task})
      case _ => s;
    assert Step(s, Work(i), s');
  }

  lemma {:induction false} CallCanStep(s: State, id: nat)
    requires id in s.calls && CallHolds(s.calls[id])
    ensures CanStep(s, Enqueue(id, 0))
  {
    var task := s.calls[id].task;
    var s' :=
      if s.calls[id].Pushed? then SetCall(s, id, Notify(task)).(lock := Open)
      else if s.stop then SetCall(s, id, Threw(task)).(lock := Open)
      else SetCall(s, id, Pushed(task)).(queue := s.queue + [task], accepted := s.accepted + [task]);
    assert Step(s, Enqueue(id, 0), s');
  }

  lemma {:induction false} NotifierCanStep(s: State, id: nat) returns (target: nat)
    requires id in s.calls && s.calls[id].Notify?
    ensures CanStep(s, Enqueue(id, target))
  {
    target := 0;
    var s' := SetCall(s, id, Returned(s.calls[id].task));
    if AnyAsleep(s) {
      target :| 0 <= target < |s.workers| && s.workers[target] == Asleep;
      s' := SetWorker(s', target, Woken);
    }
    assert Step(s, Enqueue(id, target), s');
  }

  lemma {:induction false} DestructorCanStep(s: State)
    requires DestructorHolds(s.dtor)
    ensures CanStep(s, Destroy)
  {
    var s' := if s.dtor.Locked? then s.(dtor := Stopped, stop := true) else s.(dtor := NotifyAll, lock := Open);
    assert Step(s, Destroy, s');
  }

  /** Exactly what each agent waits for: a worker for the mutex when it needs it, or asleep for
      a wake-up; a call for the mutex; the destructor for the mutex, or for the next worker to
      exit. New calls and spurious wake-ups may come at any time. */
  lemma {:induction false} WhoCanMove(n: nat, ss: seq<State>, ms: seq<Move>, k: nat, i: nat, id: nat, task: nat)
    requires IsRun(n, ss, ms) && k < |ss|
    ensures |ss[k].workers| == n
    ensures var s := ss[k];
      && (CanStep(s, Work(i)) <==> i < n && !OutOfAction(s.workers[i]) && (s.workers[i].Start? || s.workers[i].Woken? ==> s.lock == Open))
      && (CanStep(s, Spurious(i)) <==> i < n && s.workers[i].Asleep?)
      && (CanStep(s, NewCall(id, task)) <==> id !in s.calls)
      && ((exists target :: CanStep(s, Enqueue(id, target))) <==>
            id in s.calls && !s.calls[id].Returned? && !s.calls[id].Threw? && (s.calls[id].Want? ==> s.lock == Open))
      && (CanStep(s, Destroy) <==>
            && !s.dtor.Done? && (s.dtor.Called? ==> s.lock == Open)
            && (s.dtor.Joining? && s.dtor.k < n ==> s.workers[s.dtor.k].Exited?))
  {
    EveryStateSafe(n, ss, ms, k);
    var s := ss[k];
    WorkersMove(s, i);
    CallsMove(s, id, task);
    DestructorMoves(s);
  }

  lemma {:induction false} WorkersMove(s: State, i: nat)
    requires Inv(s)
    ensures CanStep(s, Work(i)) <==>
      i < |s.workers| && !OutOfAction(s.workers[i]) && (s.workers[i].Start? || s.workers[i].Woken? ==> s.lock == Open)
    ensures CanStep(s, Spurious(i)) <==> i < |s.workers| && s.workers[i].Asleep?
  {
    if i < |s.workers| && !OutOfAction(s.workers[i]) && (s.workers[i].Start? || s.workers[i].Woken? ==> s.lock == Open) {
      assert WorkerOk(s, i);
      AnyWorkerCanStep(s, i);
    }
    if i < |s.workers| && s.workers[i].Asleep? { assert Step(s, Spurious(i), SetWorker(s, i, Woken)); }
  }

  lemma {:induction false} AnyWorkerCanStep(s: State, i: nat)
    requires i < |s.workers| && WorkerOk(s, i) && !OutOfAction(s.workers[i])
    requires s.workers[i].Start? || s.workers[i].Woken? ==> s.lock == Open
    ensures CanStep(s, Work(i))
  {
    if s.workers[i].Running? {
      assert Step(s, Work(i), SetWorker(s, i, Start).(finished := s.finished + multiset{s.workers[i].task}));
    } else {
      WorkerCanStep(s, i);
    }
  }

  lemma {:induction false} CallsMove(s: State, id: nat, task: nat)
    ensures CanStep(s, NewCall(id, task)) <==> id !in s.calls
    ensures (exists target :: CanStep(s, Enqueue(id, target))) <==>
      id in s.calls && !s.calls[id].Returned? && !s.calls[id].Threw? && (s.calls[id].Want? ==> s.lock == Open)
  {
    if id !in s.calls {
      assert Step(s, NewCall(id, task), SetCall(s, id, Want(task)));
    } else if s.calls[id].Want? && s.lock == Open {
      assert Step(s, Enqueue(id, 0), SetCall(s, id, Inside(s.calls[id].task)).(lock := ByCall(id)));
    } else if CallHolds(s.calls[id]) {
      CallCanStep(s, id);
    } else if s.calls[id].Notify? {
      var target := NotifierCanStep(s, id);
    }
  }

  lemma {:induction false} DestructorMoves(s: State)
    ensures CanStep(s, Destroy) <==>
      && !s.dtor.Done? && (s.dtor.Called? ==> s.lock == Open)
      && (s.dtor.Joining? && s.dtor.k < |s.workers| ==> s.workers[s.dtor.k].Exited?)
  {
    match s.dtor
    case NotCalled => assert Step(s, Destroy, s.(dtor := Called));
    case Called => if s.lock == Open { assert Step(s, Destroy, s.(dtor := Locked, lock := ByDestructor)); }
    case Locked => DestructorCanStep(s);
    case Stopped => DestructorCanStep(s);
    case NotifyAll => assert Step(s, Destroy, s.(dtor := Joining(0), workers := WakeAll(s.workers)));
    case Joining(k) =>
      if k >= |s.workers| {
        assert Step(s, Destroy, s.(dtor := Done));
      } else if s.workers[k] == Exited {
        assert Step(s, Destroy, s.(dtor := Joining(k + 1)));
      }
    case Done =>
  }

  /** Queued tasks are never stuck: the pool can always move on by itself. */
  lemma {:induction false} QueuedTasksProgress(n: nat, ss: seq<State>, ms: seq<Move>, k: nat) returns (m: Move)
    requires IsRun(n, ss, ms) && k < |ss| && n > 0 && ss[k].queue != []
    ensures CanStep(ss[k], m) && IsProgress(m)
  {
    var s := ss[k];
    EveryStateSafe(n, ss, ms, k);
    if s.lock != Open {
      m := HolderCanStep(s);
    } else if i :| 0 <= i < n && !OutOfAction(s.workers[i]) {
      m := Work(i);
      assert WorkerOk(s, i);
      WorkerCanStep(s, i);
    } else {
      var id :| id in s.calls && (s.calls[id].Pushed? || s.calls[id].Notify?);
      assert !CallHolds(s.calls[id]);
      var target := NotifierCanStep(s, id);
      m := Enqueue(id, target);
    }
  }

  // ---------------------------------------------------------------- exactly once

  /** Tasks start in the order in which they were accepted, in every state of every run. */
  lemma {:induction false} StartedInOrder(n: nat, ss: seq<State>, ms: seq<Move>, k: nat)
    requires IsRun(n, ss, ms) && k < |ss|
    ensures ss[k].started <= ss[k].accepted && ss[k].accepted == ss[k].started + ss[k].queue
  {
    EveryStateSafe(n, ss, ms, k);
  }

  // A call that had not tested the flag when the pool stopped, and what becomes of it.
  predicate Refused(c: Call) {
    c.Want? || c.Inside? || c.Threw?
  }

  // What a step leaves once the pool is stopped.
  ghost predicate StaysStopped(s: State, s': State) {
    && s'.stop && s'.accepted == s.accepted
    && forall id :: id in s.calls && Refused(s.calls[id]) ==> id in s'.calls && Refused(s'.calls[id])
  }

  lemma {:induction false} StoppedStep(s: State, m: Move, s': State)
    requires Step(s, m, s') && s.stop
    ensures StaysStopped(s, s')
  {
    match m
    case Work(i) => WorkFrame(s, i, s');
    case Enqueue(id, target) => StoppedEnqueue(s, id, target, s');
    case Destroy => DestroyFrame(s, s');
    case _ =>
  }

  lemma {:induction false} StoppedEnqueue(s: State, id: nat, target: nat, s': State)
    requires id in s.calls && EnqueueStep(s, id, target, s') && s.stop
    ensures StaysStopped(s, s')
  {
  }

  /** Once the pool is stopped nothing is accepted any more, and every call that was not yet
      past its test can only end by throwing. */
  lemma {:induction false} NothingAcceptedAfterStop(n: nat, ss: seq<State>, ms: seq<Move>, k: nat, l: nat)
    requires IsRun(n, ss, ms) && k <= l < |ss| && ss[k].stop
    ensures ss[l].stop && ss[l].accepted == ss[k].accepted
    ensures forall id :: id in ss[k].calls && Refused(ss[k].calls[id]) ==> id in ss[l].calls && Refused(ss[l].calls[id])
    decreases l
  {
    if k < l {
      NothingAcceptedAfterStop(n, ss, ms, k, l - 1);
      assert StepAt(ss, ms, l - 1);
      StoppedStep(ss[l-1], ms[l-1], ss[l]);
    }
  }

  /** The accepted tasks are those of exactly the calls that went through, each as often as
      there are such calls, with the task the call was made with; the others have not tested
      the flag yet, or threw because the pool is stopped. */
  lemma {:induction false} AcceptedAreTheCalls(n: nat, ss: seq<State>, ms: seq<Move>, k: nat)
    requires IsRun(n, ss, ms) && k < |ss|
    ensures forall x :: multiset(ss[k].accepted)[x] == |CallsFor(ss[k].calls, x)|
    ensures forall id :: id in ss[k].calls ==>
      HasQueued(ss[k].calls[id]) || ss[k].calls[id].Want? || ss[k].calls[id].Inside? || (ss[k].calls[id].Threw? && ss[k].stop)
    ensures forall id :: id in ss[k].calls ==> MadeWith(ms, k, id, ss[k].calls[id].task)
  {
    EveryStateSafe(n, ss, ms, k);
    forall id | id in ss[k].calls ensures MadeWith(ms, k, id, ss[k].calls[id].task) { CallMade(n, ss, ms, k, id); }
  }

  // Call id was made, for this task, in the first k moves.
  ghost predicate MadeWith(ms: seq<Move>, k: nat, id: nat, task: nat)
    requires k <= |ms|
  {
    exists j :: 0 <= j < k && ms[j] == NewCall(id, task)
  }

  lemma {:induction false} CallMade(n: nat, ss: seq<State>, ms: seq<Move>, k: nat, id: nat)
    requires IsRun(n, ss, ms) && k < |ss| && id in ss[k].calls
    ensures MadeWith(ms, k, id, ss[k].calls[id].task)
    decreases k
  {
    assert k > 0;
    assert StepAt(ss, ms, k - 1);
    CallStays(ss[k-1], ms[k-1], ss[k], id);
    if id in ss[k-1].calls {
      CallMade(n, ss, ms, k - 1, id);
      var j :| 0 <= j < k - 1 && ms[j] == NewCall(id, ss[k-1].calls[id].task);
      assert j < k;
    } else {
      assert k - 1 < k && ms[k-1] == NewCall(id, ss[k].calls[id].task);
    }
  }

  lemma {:induction false} CallStays(s: State, m: Move, s': State, id: nat)
    requires Step(s, m, s') && id in s'.calls
    ensures if id in s.calls then s'.calls[id].task == s.calls[id].task else m == NewCall(id, s'.calls[id].task)
  {
    match m
    case Work(i) => WorkFrame(s, i, s');
    case Enqueue(x, target) => EnqueueCall(s, x, target, s');
    case Destroy => DestroyFrame(s, s');
    case _ =>
  }

  /** When the destructor returns, every task of every call that went through has finished
      exactly once for each such call, if and only if the pool has a worker or no call went
      through. */
  lemma {:induction false} EveryTaskExactlyOnce(n: nat, ss: seq<State>, ms: seq<Move>, k: nat)
    requires IsRun(n, ss, ms) && k < |ss| && ss[k].dtor.Done?
    ensures (forall x :: ss[k].finished[x] == |CallsFor(ss[k].calls, x)|) <==> n > 0 || ss[k].accepted == []
    ensures ss[k].finished == multiset(ss[k].accepted) <==> n > 0 || ss[k].accepted == []
    ensures n > 0 ==> ss[k].queue == [] && ss[k].started == ss[k].accepted
  {
    var s := ss[k];
    EveryStateSafe(n, ss, ms, k);
    if n > 0 {
      assert WorkerOk(s, 0) && s.workers[0] == Exited;
    }
    forall x ensures multiset(s.started)[x] == s.finished[x] { RunningNone(s.workers, x); }
    assert s.finished == multiset(s.started);
    if n == 0 && s.accepted != [] {
      var x := s.accepted[0];
      assert x in multiset(s.accepted) && multiset(s.accepted)[x] == |CallsFor(s.calls, x)| > 0;
      assert s.finished[x] == 0;
    }
  }

  /** A pool of no workers accepts a task and drops it: the destructor returns with the
      task still queued. */
  lemma {:induction false} NoWorkersDropsTask() returns (ss: seq<State>, ms: seq<Move>)
    ensures IsRun(0, ss, ms)
    ensures var s := ss[|ss|-1]; s.dtor.Done? && s.accepted == s.queue == [7] && s.finished == multiset{}
  {
    ss, ms := [Initial(0)], [];
    var s := SetCall(Initial(0), 1, Want(7));
    ss, ms := Extend(0, ss, ms, NewCall(1, 7), s);
    s := SetCall(s, 1, Inside(7)).(lock := ByCall(1));
    ss, ms := Extend(0, ss, ms, Enqueue(1, 0), s);
    assert [] + [7] == [7];
    s := SetCall(s, 1, Pushed(7)).(queue := [7], accepted := [7]);
    ss, ms := Extend(0, ss, ms, Enqueue(1, 0), s);
    s := SetCall(s, 1, Notify(7)).(lock := Open);
    ss, ms := Extend(0, ss, ms, Enqueue(1, 0), s);
    ss, ms := DestroyIdle(ss, ms);
  }

  // With no workers and the mutex free, the destructor runs through.
  lemma {:induction false} DestroyIdle(ss0: seq<State>, ms0: seq<Move>) returns (ss: seq<State>, ms: seq<Move>)
    requires IsRun(0, ss0, ms0)
    requires var s := ss0[|ss0|-1]; s.lock == Open && s.dtor == NotCalled && s.workers == []
    ensures IsRun(0, ss, ms)
    ensures ss[|ss|-1] == ss0[|ss0|-1].(dtor := Done, stop := true)
  {
    var s := ss0[|ss0|-1];
    ss, ms := Extend(0, ss0, ms0, Destroy, s.(dtor := Called));
    ss, ms := Extend(0, ss, ms, Destroy, s.(dtor := Locked, lock := ByDestructor));
    ss, ms := Extend(0, ss, ms, Destroy, s.(dtor := Stopped, lock := ByDestructor, stop := true));
    ss, ms := Extend(0, ss, ms, Destroy, s.(dtor := NotifyAll, stop := true));
    assert WakeAll(s.workers) == s.workers;
    ss, ms := Extend(0, ss, ms, Destroy, s.(dtor := Joining(0), stop := true));
    ss, ms := Extend(0, ss, ms, Destroy, s.(dtor := Done, stop := true));
  }

  lemma {:induction false} Extend(n: nat, ss: seq<State>, ms: seq<Move>, m: Move, s': State) returns (ss': seq<State>, ms': seq<Move>)
    requires IsRun(n, ss, ms) && Step(ss[|ss|-1], m, s')
    ensures IsRun(n, ss', ms') && ss'[|ss'|-1] == s'
  {
    ss', ms' := ss + [s'], ms + [m];
    forall k | 0 <= k < |ms'| ensures StepAt(ss', ms', k) {
      if k < |ms| { assert StepAt(ss, ms, k); }
    }
  }

  // ---------------------------------------------------------------- shutdown terminates

  /** Once notify_all has run, no worker is asleep, about to sleep, or will be. */
  lemma {:induction false} NoSleeperAfterNotifyAll(n: nat, ss: seq<State>, ms: seq<Move>, k: nat, i: nat)
    requires IsRun(n, ss, ms) && k < |ss| && i < n
    requires ss[k].dtor.Joining? || ss[k].dtor.Done?
    ensures |ss[k].workers| == n && ss[k].workers[i] != Asleep && ss[k].workers[i] != FallAsleep
  {
    EveryStateSafe(n, ss, ms, k);
    assert WorkerOk(ss[k], i);
  }

  function Weight(w: Worker): nat {
    match w
    case Running(_) => 5
    case Start => 4
    case Woken => 4
    case Test => 3
    case Decide => 2
    case Take => 1
    case _ => 0
  }

  ghost function Weights(ws: seq<Worker>): seq<nat> {
    seq(|ws|, i requires 0 <= i < |ws| => Weight(ws[i]))
  }

  /** How many steps the workers and the destructor can still take. */
  ghost function Remaining(s: State): int {
    5 * |s.queue| + Sum(Weights(s.workers)) +
    (match s.dtor case Joining(k) => |s.workers| + 1 - k case _ => 0)
  }

  predicate IsPoolMove(m: Move) {
    m.Work? || m.Destroy?
  }

  lemma {:induction false} NobodyAsleep(s: State)
    requires Inv(s) && (s.dtor.Joining? || s.dtor.Done?)
    ensures !AnyAsleep(s)
    ensures forall i :: 0 <= i < |s.workers| ==> WorkerOk(s, i) && s.workers[i] != Asleep
  {
    forall i | 0 <= i < |s.workers| ensures s.workers[i] != Asleep { assert WorkerOk(s, i); }
  }

  /** After notify_all every step of a worker or of the destructor uses up part of the
      measure, and no other step adds to it. */
  lemma {:induction false} RemainingDecreases(s: State, m: Move, s': State)
    requires Inv(s) && (s.dtor.Joining? || s.dtor.Done?) && Step(s, m, s')
    ensures s'.dtor.Joining? || s'.dtor.Done?
    ensures IsPoolMove(m) ==> Remaining(s') < Remaining(s)
    ensures !IsPoolMove(m) ==> Remaining(s') == Remaining(s)
    ensures Remaining(s') >= 0
  {
    NobodyAsleep(s);
    match m
    case Work(i) => RemainingWork(s, i, s');
    case _ =>
  }

  lemma {:induction false} RemainingWork(s: State, i: nat, s': State)
    requires i < |s.workers| && WorkerOk(s, i) && s.stop && (s.dtor.Joining? || s.dtor.Done?) && WorkStep(s, i, s')
    requires JoinOk(s)
    ensures s'.dtor == s.dtor && |s'.workers| == |s.workers|
    ensures Remaining(s') < Remaining(s) && Remaining(s') >= 0
  {
    SumUpdate(Weights(s.workers), i, Weight(s'.workers[i]));
    assert Weights(s'.workers) == Weights(s.workers)[i := Weight(s'.workers[i])];
  }

  // How many of the moves from k up to l are the pool's own.
  ghost function PoolMoves(ms: seq<Move>, k: nat, l: nat): nat
    requires l <= |ms|
    decreases l
  {
    if l <= k then 0 else PoolMoves(ms, k, l - 1) + (if IsPoolMove(ms[l-1]) then 1 else 0)
  }

  /** Every schedule after notify_all is finite for the pool: however a run goes on from
      state k, the workers and the destructor take at most Remaining(ss[k]) steps. */
  lemma {:induction false} ShutdownBounded(n: nat, ss: seq<State>, ms: seq<Move>, k: nat, l: nat)
    requires IsRun(n, ss, ms) && k <= l < |ss| && ss[k].dtor.Joining?
    ensures ss[l].dtor.Joining? || ss[l].dtor.Done?
    ensures 0 <= Remaining(ss[l]) && PoolMoves(ms, k, l) + Remaining(ss[l]) <= Remaining(ss[k])
    decreases l
  {
    if l == k {
      JoiningRemaining(n, ss, ms, k);
    } else {
      ShutdownBounded(n, ss, ms, k, l - 1);
      ShutdownStep(n, ss, ms, l - 1);
    }
  }

  lemma {:induction false} JoiningRemaining(n: nat, ss: seq<State>, ms: seq<Move>, k: nat)
    requires IsRun(n, ss, ms) && k < |ss| && ss[k].dtor.Joining?
    ensures Remaining(ss[k]) >= 0
  {
    EveryStateSafe(n, ss, ms, k);
  }

  lemma {:induction false} ShutdownStep(n: nat, ss: seq<State>, ms: seq<Move>, k: nat)
    requires IsRun(n, ss, ms) && k < |ms| && (ss[k].dtor.Joining? || ss[k].dtor.Done?)
    ensures ss[k+1].dtor.Joining? || ss[k+1].dtor.Done?
    ensures 0 <= Remaining(ss[k+1]) <= Remaining(ss[k]) - (if IsPoolMove(ms[k]) then 1 else 0)
  {
    EveryStateSafe(n, ss, ms, k);
    assert StepAt(ss, ms, k);
    RemainingDecreases(ss[k], ms[k], ss[k+1]);
  }

  /** Until the destructor returns, the pool can move: a worker, the destructor, or the one
      enqueue call that holds the mutex. With the bound above, the joins complete. */
  lemma {:induction false} ShutdownProgress(n: nat, ss: seq<State>, ms: seq<Move>, k: nat) returns (m: Move)
    requires IsRun(n, ss, ms) && k < |ss| && ss[k].dtor.Joining?
    ensures CanStep(ss[k], m)
    ensures IsPoolMove(m) || (m.Enqueue? && ss[k].lock == ByCall(m.id))
  {
    var s := ss[k];
    EveryStateSafe(n, ss, ms, k);
    var j := s.dtor.k;
    if s.lock != Open {
      m := HolderCanStep(s);
    } else if j == n {
      m := Destroy;
      assert Step(s, m, s.(dtor := Done));
    } else if s.workers[j] == Exited {
      m := Destroy;
      assert Step(s, m, s.(dtor := Joining(j + 1)));
    } else {
      m := Work(j);
      assert WorkerOk(s, j);
      WorkerCanStep(s, j);
    }
  }

  // ---------------------------------------------------------------- every move counts

  // How many of the first k moves are those of call id, and those of the destructor.
  ghost function MovesOfCall(ms: seq<Move>, id: nat, k: nat): nat
    requires k <= |ms|
    decreases k
  {
    if k == 0 then 0 else MovesOfCall(ms, id, k - 1) + (if ms[k-1].Enqueue? && ms[k-1].id == id then 1 else 0)
  }

  ghost function MovesOfDestructor(ms: seq<Move>, k: nat): nat
    requires k <= |ms|
    decreases k
  {
    if k == 0 then 0 else MovesOfDestructor(ms, k - 1) + (if ms[k-1].Destroy? then 1 else 0)
  }

  // How far a call, and the destructor, has come.
  function CallStage(c: Call): nat {
    match c
    case Want(_) => 0
    case Inside(_) => 1
    case Pushed(_) => 2
    case Threw(_) => 2
    case Notify(_) => 3
    case Returned(_) => 4
  }

  function DestructorStage(d: Destructor, n: nat): nat {
    match d
    case NotCalled => 0
    case Called => 1
    case Locked => 2
    case Stopped => 3
    case NotifyAll => 4
    case Joining(k) => 5 + k
    case Done => 6 + n
  }

  lemma {:induction false} CallStageStep(s: State, m: Move, s': State, id: nat)
    requires Step(s, m, s')
    ensures id in s.calls ==>
      (id in s'.calls && CallStage(s'.calls[id]) == CallStage(s.calls[id]) + (if m.Enqueue? && m.id == id then 1 else 0))
    ensures id !in s.calls ==> !(m.Enqueue? && m.id == id) && (id in s'.calls ==> s'.calls[id].Want?)
  {
    match m
    case Work(i) => WorkFrame(s, i, s');
    case Enqueue(x, target) => EnqueueCall(s, x, target, s'); EnqueueStage(s, x, target, s');
    case Destroy => DestroyFrame(s, s');
    case _ =>
  }

  lemma {:induction false} EnqueueStage(s: State, id: nat, target: nat, s': State)
    requires id in s.calls && EnqueueStep(s, id, target, s')
    ensures id in s'.calls && CallStage(s'.calls[id]) == CallStage(s.calls[id]) + 1
  {
  }

  /** No call goes round in circles: it has taken exactly as many moves as its stage says, two
      if it throws and four if it returns. */
  lemma {:induction false} CallMovesCounted(n: nat, ss: seq<State>, ms: seq<Move>, k: nat, id: nat)
    requires IsRun(n, ss, ms) && k < |ss|
    ensures MovesOfCall(ms, id, k) == if id in ss[k].calls then CallStage(ss[k].calls[id]) else 0
    decreases k
  {
    if k > 0 {
      CallMovesCounted(n, ss, ms, k - 1, id);
      assert StepAt(ss, ms, k - 1);
      CallStageStep(ss[k-1], ms[k-1], ss[k], id);
    }
  }

  /** Neither does the destructor: it returns with its move number six, and one more for each
      worker. */
  lemma {:induction false} DestructorMovesCounted(n: nat, ss: seq<State>, ms: seq<Move>, k: nat)
    requires IsRun(n, ss, ms) && k < |ss|
    ensures MovesOfDestructor(ms, k) == DestructorStage(ss[k].dtor, n)
    decreases k
  {
    if k > 0 {
      DestructorMovesCounted(n, ss, ms, k - 1);
      EveryStateSafe(n, ss, ms, k - 1);
      assert StepAt(ss, ms, k - 1);
      DestructorStageStep(ss[k-1], ms[k-1], ss[k]);
    }
  }

  lemma {:induction false} DestructorStageStep(s: State, m: Move, s': State)
    requires Step(s, m, s') && JoinOk(s)
    ensures DestructorStage(s'.dtor, |s.workers|) == DestructorStage(s.dtor, |s.workers|) + (if m.Destroy? then 1 else 0)
  {
    match m
    case Work(i) => WorkFrame(s, i, s');
    case Enqueue(x, target) => EnqueueFrame(s, x, target, s');
    case _ =>
  }

  // ---------------------------------------------------------------- what a worker does with the mutex

  // Worker i does not move between k and l.
  ghost predicate Pauses(ms: seq<Move>, i: nat, k: nat, l: nat)
    requires l <= |ms|
    decreases l
  {
    l <= k || (ms[l-1] != Work(i) && Pauses(ms, i, k, l - 1))
  }

  lemma {:induction false} HeldStill(s: State, m: Move, s': State, i: nat)
    requires Inv(s) && Step(s, m, s') && i < |s.workers| && WorkerHolds(s.workers[i]) && m != Work(i)
    ensures |s'.workers| == |s.workers| && s'.workers[i] == s.workers[i] && s'.queue == s.queue && s'.stop == s.stop
  {
    assert s.lock == ByWorker(i);
    match m
    case Work(j) =>
      WorkMovesOne(s, j, s');
      WorkFrame(s, j, s');
      assert s.lock == ByWorker(j) <==> WorkerHolds(s.workers[j]);
    case Enqueue(id, target) => assert s.lock == ByCall(id) <==> CallHolds(s.calls[id]);
    case _ =>
  }

  // While a worker has the mutex and pauses, the queue and the flag stay as they are.
  lemma {:induction false} FrozenWhile(n: nat, ss: seq<State>, ms: seq<Move>, i: nat, k: nat, l: nat)
    requires IsRun(n, ss, ms) && k <= l < |ss| && i < n && |ss[k].workers| == n && WorkerHolds(ss[k].workers[i]) && Pauses(ms, i, k, l)
    ensures |ss[l].workers| == n && ss[l].workers[i] == ss[k].workers[i] && ss[l].queue == ss[k].queue && ss[l].stop == ss[k].stop
    decreases l
  {
    if k < l {
      FrozenWhile(n, ss, ms, i, k, l - 1);
      EveryStateSafe(n, ss, ms, l - 1);
      assert StepAt(ss, ms, l - 1);
      HeldStill(ss[l-1], ms[l-1], ss[l], i);
    }
  }

  /** A worker that tests while a task is queued runs the front task: its third move from the
      test starts it, whatever others do in between. */
  lemma {:induction false} TakesFrontTask(n: nat, ss: seq<State>, ms: seq<Move>, i: nat, k0: nat, k1: nat, k2: nat)
    requires IsRun(n, ss, ms) && k0 < k1 < k2 < |ms| && i < n && ms[k0] == ms[k1] == ms[k2] == Work(i)
    requires Pauses(ms, i, k0 + 1, k1) && Pauses(ms, i, k1 + 1, k2)
    requires |ss[k0].workers| == n && ss[k0].workers[i].Test? && ss[k0].queue != []
    ensures |ss[k2+1].workers| == n && ss[k2+1].workers[i] == Running(ss[k0].queue[0])
    ensures ss[k2+1].queue == ss[k0].queue[1..]
  {
    assert StepAt(ss, ms, k0);
    assert ss[k0+1].workers[i] == Decide && |ss[k0+1].workers| == n;
    FrozenWhile(n, ss, ms, i, k0 + 1, k1);
    assert StepAt(ss, ms, k1);
    assert ss[k1+1].workers[i] == Take && |ss[k1+1].workers| == n;
    FrozenWhile(n, ss, ms, i, k1 + 1, k2);
    assert StepAt(ss, ms, k2);
  }

  /** Outside the mutex a worker's move leads back to the test, or finishes its task. */
  lemma {:induction false} OutsideMutex(n: nat, ss: seq<State>, ms: seq<Move>, i: nat, k: nat)
    requires IsRun(n, ss, ms) && k < |ms| && ms[k] == Work(i) && i < n
    ensures |ss[k].workers| == |ss[k+1].workers| == n
    ensures ss[k].workers[i].Start? || ss[k].workers[i].Woken? ==> ss[k+1].workers[i].Test?
    ensures ss[k].workers[i].Running? ==>
      ss[k+1].workers[i].Start? && ss[k+1].finished == ss[k].finished + multiset{ss[k].workers[i].task}
  {
    EveryStateSafe(n, ss, ms, k);
    EveryStateSafe(n, ss, ms, k + 1);
    assert StepAt(ss, ms, k);
  }
}
