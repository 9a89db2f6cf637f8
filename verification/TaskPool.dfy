/**
 The C++ thread pool: a fixed number of workers wait on one condition variable for tasks
 in a queue, any number of enqueue calls add tasks, and the destructor stops the pool and
 joins the workers.

 The pool is a transition system. The mutex has an explicit owner, a wait releases the
 mutex and falls asleep in one step, sleepers may wake spuriously, and a notification is
 a step of its own, after the mutex was released. Tasks return, and do not enqueue.
 */
module TaskPool {

  // Where a worker stands in its loop.
  datatype Worker =
    | Start                 // about to lock
    | Test                  // holds the mutex, about to evaluate the wait predicate
    | FallAsleep            // holds the mutex, the predicate was false
    | Asleep
    | Woken                 // needs the mutex before it tests again
    | Decide                // holds the mutex, the predicate was true
    | Take                  // holds the mutex, about to move the front task out
    | Running(task: nat)
    | Exited

  // Where a call of enqueue stands.
  datatype Call =
    | Want(task: nat)
    | Inside(task: nat)     // holds the mutex
    | Pushed(task: nat)     // holds the mutex, the task is queued
    | Notify(task: nat)
    | Returned(task: nat)
    | Threw(task: nat)

  datatype Destructor =
    | NotCalled
    | Called
    | Locked                // holds the mutex
    | Stopped               // holds the mutex, stop is set
    | NotifyAll
    | Joining(k: nat)
    | Done

  datatype Owner = Open | ByWorker(i: nat) | ByCall(id: nat) | ByDestructor

  // accepted, started and finished record the history of the tasks.
  datatype State = State(
    workers: seq<Worker>,
    calls: map<nat, Call>,
    dtor: Destructor,
    lock: Owner,
    queue: seq<nat>,
    stop: bool,
    accepted: seq<nat>,
    started: seq<nat>,
    finished: multiset<nat>)

  datatype Move =
    | Work(i: nat)                 // worker i executes its next statement
    | Spurious(i: nat)             // worker i wakes without a notification
    | NewCall(id: nat, task: nat)
    | Enqueue(id: nat, target: nat) // the call goes on; notify_one wakes `target` if anyone sleeps
    | Destroy                      // the destructor goes on

  function Initial(n: nat): State {
    State(seq(n, _ => Start), map[], NotCalled, Open, [], false, [], [], multiset{})
  }

  function SetWorker(s: State, i: nat, w: Worker): State
    requires i < |s.workers|
  {
    s.(workers := s.workers[i := w])
  }

  function SetCall(s: State, id: nat, c: Call): State {
    s.(calls := s.calls[id := c])
  }

  ghost predicate AnyAsleep(s: State) {
    exists i :: 0 <= i < |s.workers| && s.workers[i] == Asleep
  }

  // notify_all.
  function WakeAll(ws: seq<Worker>): seq<Worker> {
    seq(|ws|, i requires 0 <= i < |ws| => if ws[i] == Asleep then Woken else ws[i])
  }

  ghost predicate WorkStep(s: State, i: nat, s': State)
    requires i < |s.workers|
  {
    match s.workers[i]
    case Start => s.lock == Open && s' == SetWorker(s, i, Test).(lock := ByWorker(i))
    case Woken => s.lock == Open && s' == SetWorker(s, i, Test).(lock := ByWorker(i))
    case Test => s' == SetWorker(s, i, if s.stop || s.queue != [] then Decide else FallAsleep)
    case FallAsleep => s' == SetWorker(s, i, Asleep).(lock := Open)
    case Asleep => false
    case Decide =>
      if s.stop && s.queue == [] then s' == SetWorker(s, i, Exited).(lock := Open)
      else s' == SetWorker(s, i, Take)
    case Take =>
      && s.queue != []
      && s' == SetWorker(s, i, Running(s.queue[0])).(lock := Open, queue := s.queue[1..], started := s.started + [s.queue[0]])
    case Running(task) => s' == SetWorker(s, i, Start).(finished := s.finished + multiset{task})
    case Exited => false
  }

  ghost predicate EnqueueStep(s: State, id: nat, target: nat, s': State)
    requires id in s.calls
  {
    match s.calls[id]
    case Want(task) => s.lock == Open && s' == SetCall(s, id, Inside(task)).(lock := ByCall(id))
    case Inside(task) =>
      if s.stop then s' == SetCall(s, id, Threw(task)).(lock := Open)
      else s' == SetCall(s, id, Pushed(task)).(queue := s.queue + [task], accepted := s.accepted + [task])
    case Pushed(task) => s' == SetCall(s, id, Notify(task)).(lock := Open)
    case Notify(task) =>
      if AnyAsleep(s) then
        && target < |s.workers| && s.workers[target] == Asleep
        && s' == SetWorker(SetCall(s, id, Returned(task)), target, Woken)
      else s' == SetCall(s, id, Returned(task))
    case _ => false
  }

  ghost predicate DestroyStep(s: State, s': State) {
    match s.dtor
    case NotCalled => s' == s.(dtor := Called)
    case Called => s.lock == Open && s' == s.(dtor := Locked, lock := ByDestructor)
    case Locked => s' == s.(dtor := Stopped, stop := true)
    case Stopped => s' == s.(dtor := NotifyAll, lock := Open)
    case NotifyAll => s' == s.(dtor := Joining(0), workers := WakeAll(s.workers))
    case Joining(k) =>
      if k < |s.workers| then s.workers[k] == Exited && s' == s.(dtor := Joining(k + 1))
      else s' == s.(dtor := Done)
    case Done => false
  }

  ghost predicate Step(s: State, m: Move, s': State) {
    match m
    case Work(i) => i < |s.workers| && WorkStep(s, i, s')
    case Spurious(i) => i < |s.workers| && s.workers[i] == Asleep && s' == SetWorker(s, i, Woken)
    case NewCall(id, task) => id !in s.calls && s' == SetCall(s, id, Want(task))
    case Enqueue(id, target) => id in s.calls && EnqueueStep(s, id, target, s')
    case Destroy => DestroyStep(s, s')
  }

  // ---------------------------------------------------------------- the invariant

  predicate WorkerHolds(w: Worker) {
    w.Test? || w.FallAsleep? || w.Decide? || w.Take?
  }

  predicate CallHolds(c: Call) {
    c.Inside? || c.Pushed?
  }

  predicate DestructorHolds(d: Destructor) {
    d.Locked? || d.Stopped?
  }

  ghost predicate LockOk(s: State) {
    && (forall i :: 0 <= i < |s.workers| ==> (s.lock == ByWorker(i) <==> WorkerHolds(s.workers[i])))
    && (forall id :: id in s.calls ==> (s.lock == ByCall(id) <==> CallHolds(s.calls[id])))
    && (s.lock == ByDestructor <==> DestructorHolds(s.dtor))
    && (s.lock.ByWorker? ==> s.lock.i < |s.workers|)
    && (s.lock.ByCall? ==> s.lock.id in s.calls)
  }

  predicate IsStopping(d: Destructor) {
    d.Stopped? || d.NotifyAll? || d.Joining? || d.Done?
  }

  ghost predicate WorkerOk(s: State, i: nat)
    requires i < |s.workers|
  {
    match s.workers[i]
    case FallAsleep => !s.stop && s.queue == []
    case Asleep => !(s.dtor.Joining? || s.dtor.Done?)
    case Decide => s.stop || s.queue != []
    case Take => s.queue != []
    case Exited => s.stop && s.queue == []
    case _ => true
  }

  // How many workers are running task x.
  ghost function RunningOf(ws: seq<Worker>, x: nat): nat {
    if ws == [] then 0 else RunningOf(ws[1..], x) + (if ws[0] == Running(x) then 1 else 0)
  }

  predicate OutOfAction(w: Worker) {
    w.Asleep? || w.Exited?
  }

  ghost predicate NotifyPending(s: State) {
    exists id :: id in s.calls && (s.calls[id].Pushed? || s.calls[id].Notify?)
  }

  /** No lost wake-up: when tasks are queued, a worker is on its way to them or the
      notification for one of them has still to be sent. */
  ghost predicate WakeUpOk(s: State) {
    s.queue != [] && |s.workers| > 0 ==>
      (exists i :: 0 <= i < |s.workers| && !OutOfAction(s.workers[i])) || NotifyPending(s)
  }

  ghost predicate JoinOk(s: State) {
    && (s.dtor.Joining? ==> s.dtor.k <= |s.workers| && forall i :: 0 <= i < s.dtor.k ==> s.workers[i] == Exited)
    && (s.dtor.Done? ==> forall i :: 0 <= i < |s.workers| ==> s.workers[i] == Exited)
  }

  // Every accepted task is queued, running or finished, in that order of age.
  ghost predicate HistoryOk(s: State) {
    && s.accepted == s.started + s.queue
    && (forall x :: multiset(s.started)[x] == s.finished[x] + RunningOf(s.workers, x))
  }

  // The call has put its task in the queue.
  predicate HasQueued(c: Call) {
    c.Pushed? || c.Notify? || c.Returned?
  }

  // The calls that have put task x in the queue.
  ghost function CallsFor(calls: map<nat, Call>, x: nat): set<nat> {
    set id | id in calls && HasQueued(calls[id]) && calls[id].task == x
  }

  /** The accepted tasks are those of exactly the calls that went through, once for each call,
      and a call throws only when the pool is stopped. */
  ghost predicate CallsOk(s: State) {
    && (forall x :: multiset(s.accepted)[x] == |CallsFor(s.calls, x)|)
    && (forall id :: id in s.calls && s.calls[id].Threw? ==> s.stop)
  }

  ghost predicate Inv(s: State) {
    && LockOk(s) && WakeUpOk(s) && JoinOk(s) && HistoryOk(s) && CallsOk(s)
    && (s.stop <==> IsStopping(s.dtor))
    && (forall i :: 0 <= i < |s.workers| ==> WorkerOk(s, i))
    && (|s.workers| == 0 ==> s.started == [])
  }

  // ---------------------------------------------------------------- steps keep it

  lemma {:induction false} RunningUpdate(ws: seq<Worker>, i: nat, w: Worker, x: nat)
    requires i < |ws|
    ensures RunningOf(ws[i := w], x)
         == RunningOf(ws, x) - (if ws[i] == Running(x) then 1 else 0) + (if w == Running(x) then 1 else 0)
  {
    if i == 0 {
      assert ws[0 := w][1..] == ws[1..];
    } else {
      RunningUpdate(ws[1..], i - 1, w, x);
      assert ws[i := w][1..] == ws[1..][i - 1 := w];
    }
  }

  lemma {:induction false} RunningNone(ws: seq<Worker>, x: nat)
    requires forall i :: 0 <= i < |ws| ==> !ws[i].Running?
    ensures RunningOf(ws, x) == 0
  {
    if ws != [] { RunningNone(ws[1..], x); }
  }

  lemma {:induction false} RunningWakeAll(ws: seq<Worker>, x: nat)
    ensures RunningOf(WakeAll(ws), x) == RunningOf(ws, x)
  {
    if ws != [] {
      RunningWakeAll(ws[1..], x);
      assert WakeAll(ws)[1..] == WakeAll(ws[1..]);
    }
  }

  lemma {:induction false} InitialInv(n: nat)
    ensures Inv(Initial(n))
  {
    forall x ensures RunningOf(Initial(n).workers, x) == 0 && CallsFor(Initial(n).calls, x) == {} {
      RunningNone(Initial(n).workers, x);
    }
  }

  // The worker whose state a move changes, if it changes exactly one.
  function Moved(m: Move): int {
    match m
    case Work(i) => i
    case Spurious(i) => i
    case Enqueue(_, target) => target
    case _ => -1
  }

  ghost predicate OneWorker(s: State, m: Move, s': State) {
    || s'.workers == s.workers
    || (0 <= Moved(m) < |s.workers| && |s'.workers| == |s.workers| && s'.workers == s.workers[Moved(m) := s'.workers[Moved(m)]])
    || (s.dtor.NotifyAll? && m.Destroy? && s'.workers == WakeAll(s.workers))
  }

  lemma {:induction false} MovesOneWorker(s: State, m: Move, s': State)
    requires Step(s, m, s')
    ensures OneWorker(s, m, s') && |s'.workers| == |s.workers|
  {
    match m
    case Work(i) => WorkMovesOne(s, i, s');
    case Enqueue(id, target) => EnqueueMovesOne(s, id, target, s');
    case _ =>
  }

  lemma {:induction false} EnqueueMovesOne(s: State, id: nat, target: nat, s': State)
    requires id in s.calls && EnqueueStep(s, id, target, s')
    ensures OneWorker(s, Enqueue(id, target), s') && |s'.workers| == |s.workers|
  {
  }

  lemma {:induction false} WorkMovesOne(s: State, i: nat, s': State)
    requires i < |s.workers| && WorkStep(s, i, s')
    ensures |s'.workers| == |s.workers| && s'.workers == s.workers[i := s'.workers[i]]
  {
  }

  // What a step of a call, and one of the destructor, leaves alone.
  lemma {:induction false} EnqueueFrame(s: State, id: nat, target: nat, s': State)
    requires id in s.calls && EnqueueStep(s, id, target, s')
    ensures |s'.workers| == |s.workers| && s'.started == s.started && s'.finished == s.finished
    ensures s'.dtor == s.dtor && s'.stop == s.stop
  {
  }

  lemma {:induction false} DestroyFrame(s: State, s': State)
    requires DestroyStep(s, s')
    ensures |s'.workers| == |s.workers| && s'.started == s.started && s'.finished == s.finished
    ensures s'.queue == s.queue && s'.accepted == s.accepted && s'.calls == s.calls
  {
  }

  lemma {:induction false} WorkFrame(s: State, i: nat, s': State)
    requires i < |s.workers| && WorkStep(s, i, s')
    ensures s'.calls == s.calls && s'.dtor == s.dtor && s'.stop == s.stop && s'.accepted == s.accepted
  {
  }

  lemma {:induction false} LockKeeps(s: State, m: Move, s': State)
    requires LockOk(s) && Step(s, m, s')
    ensures LockOk(s')
  {
    match m
    case Work(i) => LockWork(s, i, s');
    case Enqueue(id, target) => LockEnqueue(s, id, target, s');
    case Destroy => LockDestroy(s, s');
    case _ =>
  }

  lemma {:induction false} LockDestroy(s: State, s': State)
    requires LockOk(s) && DestroyStep(s, s')
    ensures LockOk(s')
  {
  }

  lemma {:induction false} LockWork(s: State, i: nat, s': State)
    requires LockOk(s) && i < |s.workers| && WorkStep(s, i, s')
    ensures LockOk(s')
  {
    assert s'.workers == s.workers[i := s'.workers[i]];
    assert s.lock == ByWorker(i) <==> WorkerHolds(s.workers[i]);
  }

  lemma {:induction false} LockEnqueue(s: State, id: nat, target: nat, s': State)
    requires LockOk(s) && id in s.calls && EnqueueStep(s, id, target, s')
    ensures LockOk(s')
  {
    assert s'.calls == s.calls[id := s'.calls[id]];
  }

  /** Tasks leave the queue in the order in which they were accepted, and each start is one
      finish or one worker still running. */
  lemma {:induction false} HistoryKeeps(s: State, m: Move, s': State)
    requires HistoryOk(s) && Step(s, m, s')
    ensures HistoryOk(s')
  {
    OrderKeeps(s, m, s');
    forall x ensures multiset(s'.started)[x] == s'.finished[x] + RunningOf(s'.workers, x) {
      assert multiset(s.started)[x] == s.finished[x] + RunningOf(s.workers, x);
      HistoryOf(s, m, s', x);
    }
  }

  lemma {:induction false} OrderKeeps(s: State, m: Move, s': State)
    requires s.accepted == s.started + s.queue && Step(s, m, s')
    ensures s'.accepted == s'.started + s'.queue
  {
    match m
    case Work(i) => OrderWork(s, i, s');
    case Enqueue(id, target) => OrderEnqueue(s, id, target, s');
    case Destroy => DestroyFrame(s, s');
    case _ =>
  }

  lemma {:induction false} OrderWork(s: State, i: nat, s': State)
    requires s.accepted == s.started + s.queue && i < |s.workers| && WorkStep(s, i, s')
    ensures s'.accepted == s'.started + s'.queue
  {
    if s.workers[i].Take? { assert s.queue == [s.queue[0]] + s.queue[1..]; }
  }

  lemma {:induction false} OrderEnqueue(s: State, id: nat, target: nat, s': State)
    requires s.accepted == s.started + s.queue && id in s.calls && EnqueueStep(s, id, target, s')
    ensures s'.accepted == s'.started + s'.queue
  {
  }

  lemma {:induction false} HistoryOf(s: State, m: Move, s': State, x: nat)
    requires Step(s, m, s') && multiset(s.started)[x] == s.finished[x] + RunningOf(s.workers, x)
    ensures multiset(s'.started)[x] == s'.finished[x] + RunningOf(s'.workers, x)
  {
    match m
    case Work(i) => HistoryWork(s, i, s', x);
    case Spurious(i) => RunningUpdate(s.workers, i, Woken, x);
    case Enqueue(id, target) => HistoryEnqueue(s, id, target, s', x);
    case Destroy => HistoryDestroy(s, s', x);
    case NewCall(_, _) =>
  }

  lemma {:induction false} HistoryEnqueue(s: State, id: nat, target: nat, s': State, x: nat)
    requires id in s.calls && EnqueueStep(s, id, target, s') && multiset(s.started)[x] == s.finished[x] + RunningOf(s.workers, x)
    ensures multiset(s'.started)[x] == s'.finished[x] + RunningOf(s'.workers, x)
  {
    if target < |s.workers| { RunningUpdate(s.workers, target, Woken, x); }
  }

  lemma {:induction false} HistoryDestroy(s: State, s': State, x: nat)
    requires DestroyStep(s, s') && multiset(s.started)[x] == s.finished[x] + RunningOf(s.workers, x)
    ensures multiset(s'.started)[x] == s'.finished[x] + RunningOf(s'.workers, x)
  {
    RunningWakeAll(s.workers, x);
  }

  lemma {:induction false} HistoryWork(s: State, i: nat, s': State, x: nat)
    requires i < |s.workers| && WorkStep(s, i, s') && multiset(s.started)[x] == s.finished[x] + RunningOf(s.workers, x)
    ensures multiset(s'.started)[x] == s'.finished[x] + RunningOf(s'.workers, x)
  {
    RunningUpdate(s.workers, i, s'.workers[i], x);
    assert s'.workers == s.workers[i := s'.workers[i]];
  }

  lemma {:induction false} WorkerKeeps(s: State, m: Move, s': State, j: nat)
    requires Inv(s) && Step(s, m, s') && j < |s.workers| == |s'.workers|
    ensures WorkerOk(s', j)
  {
    assert WorkerOk(s, j);
    match m
    case Work(i) => WorkerWork(s, i, s', j);
    case Enqueue(id, target) => WorkerEnqueue(s, id, target, s', j);
    case _ =>
  }

  lemma {:induction false} WorkerWork(s: State, i: nat, s': State, j: nat)
    requires LockOk(s) && i < |s.workers| && WorkStep(s, i, s') && j < |s.workers|
    requires WorkerOk(s, i) && WorkerOk(s, j) && (s.stop <==> IsStopping(s.dtor))
    ensures |s'.workers| == |s.workers| && WorkerOk(s', j)
  {
    assert s'.workers == s.workers[i := s'.workers[i]];
    assert s.lock == ByWorker(i) <==> WorkerHolds(s.workers[i]);
    assert s.lock == ByWorker(j) <==> WorkerHolds(s.workers[j]);
  }

  lemma {:induction false} WorkerEnqueue(s: State, id: nat, target: nat, s': State, j: nat)
    requires LockOk(s) && id in s.calls && EnqueueStep(s, id, target, s') && j < |s.workers|
    requires WorkerOk(s, j)
    ensures |s'.workers| == |s.workers| && WorkerOk(s', j)
  {
    assert s.lock == ByCall(id) <==> CallHolds(s.calls[id]);
    assert s.lock == ByWorker(j) <==> WorkerHolds(s.workers[j]);
  }

  lemma {:induction false} StopKeeps(s: State, m: Move, s': State)
    requires Step(s, m, s') && (s.stop <==> IsStopping(s.dtor))
    ensures s'.stop <==> IsStopping(s'.dtor)
  {
    match m
    case Work(i) => WorkFrame(s, i, s');
    case Enqueue(id, target) => EnqueueFrame(s, id, target, s');
    case _ =>
  }

  lemma {:induction false} StartedKeeps(s: State, m: Move, s': State)
    requires Step(s, m, s') && (|s.workers| == 0 ==> s.started == [])
    ensures |s'.workers| == 0 ==> s'.started == []
  {
    match m
    case Work(i) => WorkMovesOne(s, i, s');
    case Enqueue(id, target) => EnqueueFrame(s, id, target, s');
    case Destroy => DestroyFrame(s, s');
    case _ =>
  }

  lemma {:induction false} JoinKeeps(s: State, m: Move, s': State)
    requires JoinOk(s) && Step(s, m, s')
    ensures JoinOk(s')
  {
    match m
    case Work(i) => JoinWork(s, i, s');
    case Enqueue(id, target) => JoinEnqueue(s, id, target, s');
    case _ =>
  }

  lemma {:induction false} JoinEnqueue(s: State, id: nat, target: nat, s': State)
    requires JoinOk(s) && id in s.calls && EnqueueStep(s, id, target, s')
    ensures JoinOk(s')
  {
    EnqueueFrame(s, id, target, s');
  }

  lemma {:induction false} JoinWork(s: State, i: nat, s': State)
    requires JoinOk(s) && i < |s.workers| && WorkStep(s, i, s')
    ensures JoinOk(s') && s'.stop == s.stop && s'.dtor == s.dtor
  {
    assert s'.workers == s.workers[i := s'.workers[i]];
  }

  lemma {:induction false} WakeKeeps(s: State, m: Move, s': State)
    requires Inv(s) && Step(s, m, s')
    ensures WakeUpOk(s')
  {
    MovesOneWorker(s, m, s');
    if s'.queue != [] && |s'.workers| > 0 {
      match m
      case Work(i) => WakeWork(s, i, s');
      case Spurious(i) => assert !OutOfAction(s'.workers[i]);
      case NewCall(id, task) => PendingFrame(s, s', id);
      case Enqueue(id, target) => WakeEnqueue(s, id, target, s');
      case Destroy => WakeDestroy(s, s');
    }
  }

  lemma {:induction false} PendingFrame(s: State, s': State, id: nat)
    requires id in s'.calls && s'.calls == s.calls[id := s'.calls[id]]
    requires id in s.calls && (s.calls[id].Pushed? || s.calls[id].Notify?) ==> s'.calls[id].Pushed? || s'.calls[id].Notify?
    ensures NotifyPending(s) ==> NotifyPending(s')
  {
    if NotifyPending(s) {
      var x :| x in s.calls && (s.calls[x].Pushed? || s.calls[x].Notify?);
      assert x in s'.calls && (s'.calls[x].Pushed? || s'.calls[x].Notify?);
    }
  }

  lemma {:induction false} WakeWork(s: State, i: nat, s': State)
    requires Inv(s) && i < |s.workers| && WorkStep(s, i, s') && s'.queue != []
    ensures WakeUpOk(s')
  {
    assert WorkerOk(s, i);
    assert !OutOfAction(s'.workers[i]);
  }

  lemma {:induction false} WakeEnqueue(s: State, id: nat, target: nat, s': State)
    requires Inv(s) && id in s.calls && EnqueueStep(s, id, target, s') && s'.queue != [] && |s.workers| > 0
    ensures WakeUpOk(s')
  {
    match s.calls[id]
    case Want(task) => PendingFrame(s, s', id);
    case Inside(task) =>
      if s.stop { PendingFrame(s, s', id); } else { assert id in s'.calls && s'.calls[id].Pushed?; }
    case Pushed(task) => assert id in s'.calls && s'.calls[id].Notify?;
    case Notify(task) =>
      if AnyAsleep(s) {
        assert !OutOfAction(s'.workers[target]);
      } else {
        assert WorkerOk(s, 0);
        assert !OutOfAction(s'.workers[0]);
      }
    case _ =>
  }

  lemma {:induction false} WakeDestroy(s: State, s': State)
    requires Inv(s) && DestroyStep(s, s') && s'.queue != [] && |s.workers| > 0
    ensures WakeUpOk(s')
  {
    assert WorkerOk(s, 0);
    if s.dtor.NotifyAll? {
      assert !OutOfAction(s'.workers[0]);
    }
  }

  // A call that moves on without queueing anything changes no count.
  lemma {:induction false} SameCallsFor(calls: map<nat, Call>, id: nat, c: Call, x: nat)
    requires if id in calls then HasQueued(c) == HasQueued(calls[id]) && c.task == calls[id].task else !HasQueued(c)
    ensures CallsFor(calls[id := c], x) == CallsFor(calls, x)
  {
  }

  lemma {:induction false} OneMoreCall(calls: map<nat, Call>, id: nat, c: Call, x: nat)
    requires id in calls && !HasQueued(calls[id]) && HasQueued(c)
    ensures |CallsFor(calls[id := c], x)| == |CallsFor(calls, x)| + (if c.task == x then 1 else 0)
  {
    if c.task == x {
      assert CallsFor(calls[id := c], x) == CallsFor(calls, x) + {id};
    } else {
      assert CallsFor(calls[id := c], x) == CallsFor(calls, x);
    }
  }

  lemma {:induction false} CallsEnqueue(s: State, id: nat, target: nat, s': State)
    requires CallsOk(s) && id in s.calls && EnqueueStep(s, id, target, s')
    ensures CallsOk(s')
  {
    EnqueueFrame(s, id, target, s');
    EnqueueCall(s, id, target, s');
    forall x ensures multiset(s'.accepted)[x] == |CallsFor(s'.calls, x)| {
      assert multiset(s.accepted)[x] == |CallsFor(s.calls, x)|;
      if HasQueued(s'.calls[id]) && !HasQueued(s.calls[id]) {
        OneMoreCall(s.calls, id, s'.calls[id], x);
      } else {
        SameCallsFor(s.calls, id, s'.calls[id], x);
      }
    }
  }

  // A call keeps its task, and queues it exactly when it says so.
  lemma {:induction false} EnqueueCall(s: State, id: nat, target: nat, s': State)
    requires id in s.calls && EnqueueStep(s, id, target, s')
    ensures id in s'.calls && s'.calls == s.calls[id := s'.calls[id]] && s'.calls[id].task == s.calls[id].task
    ensures HasQueued(s.calls[id]) ==> HasQueued(s'.calls[id])
    ensures s'.accepted == s.accepted + (if HasQueued(s'.calls[id]) && !HasQueued(s.calls[id]) then [s.calls[id].task] else [])
    ensures s'.calls[id].Threw? ==> s.stop
  {
  }

  lemma {:induction false} CallsKeep(s: State, m: Move, s': State)
    requires CallsOk(s) && Step(s, m, s') && (s.stop ==> s'.stop)
    ensures CallsOk(s')
  {
    match m
    case Work(i) => WorkFrame(s, i, s');
    case Enqueue(id, target) => CallsEnqueue(s, id, target, s');
    case Destroy => DestroyFrame(s, s');
    case NewCall(id, task) =>
      forall x ensures CallsFor(s'.calls, x) == CallsFor(s.calls, x) { SameCallsFor(s.calls, id, Want(task), x); }
    case Spurious(_) =>
  }

  lemma {:induction false} StopStays(s: State, m: Move, s': State)
    requires Step(s, m, s') && s.stop
    ensures s'.stop
  {
    match m
    case Work(i) => WorkFrame(s, i, s');
    case Enqueue(id, target) => EnqueueFrame(s, id, target, s');
    case _ =>
  }

  /** Every step of every agent keeps the invariant. */
  lemma {:induction false} StepKeeps(s: State, m: Move, s': State)
    requires Inv(s) && Step(s, m, s')
    ensures Inv(s')
  {
    MovesOneWorker(s, m, s');
    LockKeeps(s, m, s');
    WakeKeeps(s, m, s');
    StopKeeps(s, m, s');
    StartedKeeps(s, m, s');
    JoinKeeps(s, m, s');
    HistoryKeeps(s, m, s');
    if s.stop { StopStays(s, m, s'); }
    CallsKeep(s, m, s');
    forall j | 0 <= j < |s'.workers| ensures WorkerOk(s', j) { WorkerKeeps(s, m, s', j); }
  }
}
