/**
 The C thread pool: workers wait on one condition variable for tasks in a linked queue
 whose length is counted separately, any number of calls add tasks, and pool_destroy sets
 the shutdown flag, broadcasts, joins the workers and frees what is still queued.

 The pool is a transition system. Every step is one access to shared data: the mutex has
 an explicit owner, the list and its counter change in separate steps under the mutex, and
 the shutdown flag is written without it. A wait releases the mutex and falls asleep in one
 step; sleepers may wake spuriously. Tasks return, and do not add tasks.

 What the program asks of its client is in the steps: one pool_destroy call, and no
 pool_add_worker call in progress or begun once the joins are over.
 */
module WorkerPool {

  // Where a worker stands in thread_routine.
  datatype Worker =
    | Start                 // about to lock
    | TestSize              // holds the mutex, about to compare cur_queue_size with 0
    | TestShutdown          // holds the mutex, the size was 0
    | FallAsleep            // holds the mutex, about to wait
    | Asleep
    | Woken                 // needs the mutex before it tests again
    | Check                 // holds the mutex, left the waiting loop
    | Leave                 // holds the mutex, saw the shutdown flag
    | CheckAsserts          // holds the mutex, about to evaluate both assertions
    | Shrink                // holds the mutex, about to decrement the size
    | Pop                   // holds the mutex, about to unlink the head
    | Got(task: nat)        // holds the mutex, the task is unlinked
    | Running(task: nat)
    | Exited

  // Where a call of pool_add_worker stands.
  datatype Call =
    | Want(task: nat)
    | Inside(task: nat)     // holds the mutex
    | Linked(task: nat)     // holds the mutex, the task is in the list
    | Count(task: nat)      // holds the mutex, the assertion is passed
    | Counted(task: nat)    // holds the mutex, the size is incremented
    | Signal(task: nat)
    | Returned(task: nat)

  datatype Destroyer = NotCalled | SetFlag | Broadcast | Joining(k: nat) | Draining | Done

  datatype Owner = Open | ByWorker(i: nat) | ByCall(id: nat)

  // added, started, finished and freed record the history of the tasks.
  datatype State = State(
    workers: seq<Worker>,
    calls: map<nat, Call>,
    destroyer: Destroyer,
    lock: Owner,
    queue: seq<nat>,
    size: int,
    shutdown: bool,
    aborted: bool,
    added: seq<nat>,
    started: seq<nat>,
    finished: multiset<nat>,
    freed: seq<nat>)

  datatype Move =
    | Work(i: nat)                 // worker i takes its next step
    | Spurious(i: nat)             // worker i wakes without a signal
    | NewCall(id: nat, task: nat)
    | Add(id: nat, target: nat)    // the call goes on; its signal wakes `target` if anyone sleeps
    | Destroy                      // pool_destroy goes on

  function Initial(n: nat): State {
    State(seq(n, _ => Start), map[], NotCalled, Open, [], 0, false, false, [], [], multiset{}, [])
  }

  function SetWorker(s: State, i: nat, w: Worker): State
    requires i < |s.workers|
  {
    s.(workers := s.workers[i := w])
  }

  function SetCall(s: State, id: nat, c: Call): State {
    s.(calls := s.calls[id := c])
  }

  ghost predicate AnyAsleep(s: State) {
    exists i :: 0 <= i < |s.workers| && s.workers[i] == Asleep
  }

  function WakeAll(ws: seq<Worker>): seq<Worker> {
    seq(|ws|, i requires 0 <= i < |ws| => if ws[i] == Asleep then Woken else ws[i])
  }

  // Where worker i's next step takes it.
  function NextWorker(s: State, i: nat): Worker
    requires i < |s.workers|
  {
    match s.workers[i]
    case Start => TestSize
    case Woken => TestSize
    case TestSize => if s.size == 0 then TestShutdown else Check
    case TestShutdown => if s.shutdown then Check else FallAsleep
    case FallAsleep => Asleep
    case Check => if s.shutdown then Leave else CheckAsserts
    case Leave => Exited
    case CheckAsserts => Shrink
    case Shrink => Pop
    case Pop => if s.queue == [] then Pop else Got(s.queue[0])
    case Got(task) => Running(task)
    case Running(_) => Start
    case Asleep => Asleep
    case Exited => Exited
  }

  // What worker i's next step does to the pool.
  function Effect(s: State, i: nat): State
    requires i < |s.workers|
  {
    match s.workers[i]
    case Start => s.(lock := ByWorker(i))
    case Woken => s.(lock := ByWorker(i))
    case FallAsleep => s.(lock := Open)
    case Leave => s.(lock := Open)
    case CheckAsserts => s.(aborted := s.aborted || s.size == 0 || s.queue == [])
    case Shrink => s.(size := s.size - 1)
    case Pop =>
      if s.queue == [] then s.(aborted := true)
      else s.(queue := s.queue[1..], started := s.started + [s.queue[0]])
    case Got(_) => s.(lock := Open)
    case Running(task) => s.(finished := s.finished + multiset{task})
    case _ => s
  }

  function WorkTo(s: State, i: nat): State
    requires i < |s.workers|
  {
    Effect(s, i).(workers := s.workers[i := NextWorker(s, i)])
  }

  predicate WorkEnabled(s: State, i: nat)
    requires i < |s.workers|
  {
    var w := s.workers[i];
    w != Asleep && w != Exited && (w == Start || w == Woken ==> s.lock == Open)
  }

  function AddTo(s: State, id: nat): State
    requires id in s.calls
  {
    match s.calls[id]
    case Want(task) => SetCall(s, id, Inside(task)).(lock := ByCall(id))
    case Inside(task) => SetCall(s, id, Linked(task)).(queue := s.queue + [task], added := s.added + [task])
    case Linked(task) => SetCall(s, id, Count(task)).(aborted := s.aborted || s.queue == [])
    case Count(task) => SetCall(s, id, Counted(task)).(size := s.size + 1)
    case Counted(task) => SetCall(s, id, Signal(task)).(lock := Open)
    case Signal(task) => SetCall(s, id, Returned(task))
    case Returned(_) => s
  }

  ghost predicate AddStep(s: State, id: nat, target: nat, s': State)
    requires id in s.calls
  {
    var c := s.calls[id];
    && !c.Returned? && (c.Want? ==> s.lock == Open)
    && if c.Signal? && AnyAsleep(s) then
         target < |s.workers| && s.workers[target] == Asleep && s' == SetWorker(AddTo(s, id), target, Woken)
       else
         s' == AddTo(s, id)
  }

  ghost predicate AllReturned(s: State) {
    forall id :: id in s.calls ==> s.calls[id].Returned?
  }

  ghost predicate DestroyStep(s: State, s': State) {
    match s.destroyer
    case NotCalled => s' == s.(destroyer := SetFlag)
    case SetFlag => s' == s.(destroyer := Broadcast, shutdown := true)
    case Broadcast => s' == s.(destroyer := Joining(0), workers := WakeAll(s.workers))
    case Joining(k) =>
      if k < |s.workers| then s.workers[k] == Exited && s' == s.(destroyer := Joining(k + 1))
      else AllReturned(s) && s' == s.(destroyer := Draining)
    case Draining =>
      if s.queue == [] then s' == s.(destroyer := Done)
      else s' == s.(queue := s.queue[1..], freed := s.freed + [s.queue[0]])
    case Done => false
  }

  predicate JoinsOver(d: Destroyer) {
    d.Draining? || d.Done?
  }

  ghost predicate Step(s: State, m: Move, s': State) {
    && !s.aborted
    && match m
       case Work(i) => i < |s.workers| && WorkEnabled(s, i) && s' == WorkTo(s, i)
       case Spurious(i) => i < |s.workers| && s.workers[i] == Asleep && s' == SetWorker(s, i, Woken)
       case NewCall(id, task) => id !in s.calls && !JoinsOver(s.destroyer) && s' == SetCall(s, id, Want(task))
       case Add(id, target) => id in s.calls && AddStep(s, id, target, s')
       case Destroy => DestroyStep(s, s')
  }

  // ---------------------------------------------------------------- the invariant

  predicate WorkerHolds(w: Worker) {
    !(w.Start? || w.Asleep? || w.Woken? || w.Running? || w.Exited?)
  }

  predicate CallHolds(c: Call) {
    c.Inside? || c.Linked? || c.Count? || c.Counted?
  }

  ghost predicate LockOk(s: State) {
    && (forall i :: 0 <= i < |s.workers| ==> (s.lock == ByWorker(i) <==> WorkerHolds(s.workers[i])))
    && (forall id :: id in s.calls ==> (s.lock == ByCall(id) <==> CallHolds(s.calls[id])))
    && (s.lock.ByWorker? ==> s.lock.i < |s.workers|)
    && (s.lock.ByCall? ==> s.lock.id in s.calls)
  }

  // How far the counter lags behind the list: 1 between the two updates, else 0.
  ghost function Lag(s: State): int {
    match s.lock
    case Open => 0
    case ByWorker(i) => if i < |s.workers| && s.workers[i] == Pop then 1 else 0
    case ByCall(id) => if id in s.calls && (s.calls[id].Linked? || s.calls[id].Count?) then 1 else 0
  }

  ghost predicate SizeOk(s: State) {
    s.size >= 0 && (!JoinsOver(s.destroyer) ==> s.size + Lag(s) == |s.queue|)
  }

  ghost predicate WorkerOk(s: State, i: nat)
    requires i < |s.workers|
  {
    match s.workers[i]
    case TestShutdown => s.size == 0
    case FallAsleep => s.size == 0
    case Check => s.size != 0 || s.shutdown
    case Leave => s.shutdown
    case CheckAsserts => s.size != 0
    case Shrink => s.size != 0
    case Exited => s.shutdown
    case _ => true
  }

  function Holds(w: Worker, x: nat): nat {
    if w == Running(x) || w == Got(x) then 1 else 0
  }

  // How many workers hold or run task x.
  ghost function HeldOf(ws: seq<Worker>, x: nat): nat {
    if ws == [] then 0 else HeldOf(ws[1..], x) + Holds(ws[0], x)
  }

  predicate OutOfAction(w: Worker) {
    w.Asleep? || w.Exited?
  }

  predicate SignalDue(c: Call) {
    c.Linked? || c.Count? || c.Counted? || c.Signal?
  }

  ghost predicate SignalPending(s: State) {
    exists id :: id in s.calls && SignalDue(s.calls[id])
  }

  /** Until shutdown, a queued task has a worker on its way or a signal still to be sent. */
  ghost predicate WakeUpOk(s: State) {
    s.queue != [] && |s.workers| > 0 && !s.shutdown ==>
      (exists i :: 0 <= i < |s.workers| && !OutOfAction(s.workers[i])) || SignalPending(s)
  }

  ghost predicate JoinOk(s: State) {
    && (s.shutdown <==> !(s.destroyer.NotCalled? || s.destroyer.SetFlag?))
    && (s.destroyer.Joining? ==> s.destroyer.k <= |s.workers| && forall i :: 0 <= i < s.destroyer.k ==> s.workers[i] == Exited)
    && (JoinsOver(s.destroyer) ==> AllReturned(s) && forall i :: 0 <= i < |s.workers| ==> s.workers[i] == Exited)
    && (s.destroyer.Done? ==> s.queue == [])
  }

  // Every added task left the queue to be started or freed, in the order of arrival.
  ghost predicate HistoryOk(s: State) {
    && s.added == s.started + s.freed + s.queue
    && (s.freed != [] ==> JoinsOver(s.destroyer))
    && (forall x :: multiset(s.started)[x] == s.finished[x] + HeldOf(s.workers, x))
  }

  ghost predicate Inv(s: State) {
    && LockOk(s) && SizeOk(s) && WakeUpOk(s) && JoinOk(s) && HistoryOk(s) && !s.aborted
    && (forall i :: 0 <= i < |s.workers| ==> WorkerOk(s, i))
  }

  // ---------------------------------------------------------------- steps keep it

  lemma {:induction false} HeldUpdate(ws: seq<Worker>, i: nat, w: Worker, x: nat)
    requires i < |ws|
    ensures HeldOf(ws[i := w], x)
         == HeldOf(ws, x) - Holds(ws[i], x) + Holds(w, x)
  {
    if i == 0 {
      assert ws[0 := w][1..] == ws[1..];
    } else {
      HeldUpdate(ws[1..], i - 1, w, x);
      assert ws[i := w][1..] == ws[1..][i - 1 := w];
    }
  }

  lemma {:induction false} HeldNone(ws: seq<Worker>, x: nat)
    requires forall i :: 0 <= i < |ws| ==> !ws[i].Running? && !ws[i].Got?
    ensures HeldOf(ws, x) == 0
  {
    if ws != [] { HeldNone(ws[1..], x); }
  }

  lemma {:induction false} HeldWakeAll(ws: seq<Worker>, x: nat)
    ensures HeldOf(WakeAll(ws), x) == HeldOf(ws, x)
  {
    if ws != [] {
      HeldWakeAll(ws[1..], x);
      assert WakeAll(ws)[1..] == WakeAll(ws[1..]);
    }
  }

  lemma {:induction false} InitialInv(n: nat)
    ensures Inv(Initial(n))
  {
    forall x ensures HeldOf(Initial(n).workers, x) == 0 { HeldNone(Initial(n).workers, x); }
  }

  // What a worker's step leaves alone.
  lemma {:induction false} WorkFrame(s: State, i: nat)
    requires i < |s.workers|
    ensures var s' := WorkTo(s, i);
      && s'.calls == s.calls && s'.destroyer == s.destroyer && s'.shutdown == s.shutdown
      && s'.freed == s.freed && s'.added == s.added
    ensures |WorkTo(s, i).workers| == |s.workers| && WorkTo(s, i).workers == s.workers[i := WorkTo(s, i).workers[i]]
  {
    WorkOwn(s, i);
  }

  lemma {:induction false} WorkOwn(s: State, i: nat)
    requires i < |s.workers|
    ensures |WorkTo(s, i).workers| == |s.workers| && WorkTo(s, i).workers == s.workers[i := WorkTo(s, i).workers[i]]
  {
    var w := s.workers[i];
    assert s.workers == s.workers[i := w];
  }

  // What a step of pool_add_worker leaves alone.
  lemma {:induction false} AddFrame(s: State, id: nat)
    requires id in s.calls
    ensures var s' := AddTo(s, id);
      && id in s'.calls && s'.calls == s.calls[id := s'.calls[id]] && s'.workers == s.workers
      && s'.destroyer == s.destroyer && s'.shutdown == s.shutdown
      && s'.freed == s.freed && s'.started == s.started && s'.finished == s.finished
  {
  }

  ghost predicate KeepsButWake(s: State, t: State) {
    && |t.workers| == |s.workers| && t == s.(workers := t.workers)
    && forall i :: 0 <= i < |s.workers| ==> t.workers[i] == s.workers[i] || (s.workers[i] == Asleep && t.workers[i] == Woken)
  }

  /** Waking sleepers keeps the invariant, whoever wakes them. */
  lemma {:induction false} WakingKeeps(s: State, t: State)
    requires Inv(s) && KeepsButWake(s, t)
    ensures Inv(t)
  {
    forall i | 0 <= i < |t.workers| ensures WorkerOk(t, i) { assert WorkerOk(s, i); }
    forall x ensures HeldOf(t.workers, x) == HeldOf(s.workers, x) { HeldWaking(s.workers, t.workers, x); }
    if exists i :: 0 <= i < |s.workers| && !OutOfAction(s.workers[i]) {
      var i :| 0 <= i < |s.workers| && !OutOfAction(s.workers[i]);
      assert !OutOfAction(t.workers[i]);
    }
  }

  lemma {:induction false} HeldWaking(ws: seq<Worker>, us: seq<Worker>, x: nat)
    requires |us| == |ws|
    requires forall i :: 0 <= i < |ws| ==> us[i] == ws[i] || (ws[i] == Asleep && us[i] == Woken)
    ensures HeldOf(us, x) == HeldOf(ws, x)
  {
    if ws != [] { HeldWaking(ws[1..], us[1..], x); }
  }

  lemma {:induction false} WorkLock(s: State, i: nat)
    requires LockOk(s) && i < |s.workers| && WorkEnabled(s, i)
    ensures LockOk(WorkTo(s, i))
  {
    WorkFrame(s, i);
    assert s.lock == ByWorker(i) <==> WorkerHolds(s.workers[i]);
  }

  /** The counter agrees with the list again when the worker unlocks, and neither assertion
      fails. */
  lemma {:induction false} WorkSize(s: State, i: nat)
    requires Inv(s) && i < |s.workers| && WorkEnabled(s, i)
    ensures SizeOk(WorkTo(s, i)) && !WorkTo(s, i).aborted
  {
    assert s.lock == ByWorker(i) <==> WorkerHolds(s.workers[i]);
    assert WorkerOk(s, i);
  }

  lemma {:induction false} WorkWorkers(s: State, i: nat, j: nat)
    requires LockOk(s) && i < |s.workers| && WorkEnabled(s, i) && j < |s.workers|
    requires WorkerOk(s, i) && WorkerOk(s, j) && s.size >= 0
    ensures |WorkTo(s, i).workers| == |s.workers| && WorkerOk(WorkTo(s, i), j)
  {
    WorkFrame(s, i);
    assert s.lock == ByWorker(i) <==> WorkerHolds(s.workers[i]);
    assert s.lock == ByWorker(j) <==> WorkerHolds(s.workers[j]);
  }

  lemma {:induction false} WorkJoin(s: State, i: nat)
    requires JoinOk(s) && i < |s.workers| && WorkEnabled(s, i)
    ensures JoinOk(WorkTo(s, i))
  {
    WorkFrame(s, i);
  }

  lemma {:induction false} WorkHistory(s: State, i: nat)
    requires HistoryOk(s) && JoinOk(s) && i < |s.workers| && WorkEnabled(s, i)
    ensures HistoryOk(WorkTo(s, i))
  {
    var s' := WorkTo(s, i);
    WorkFrame(s, i);
    assert s.workers[i].Pop? ==> s.freed == [];
    WorkOrder(s, i);
    forall x ensures multiset(s'.started)[x] == s'.finished[x] + HeldOf(s'.workers, x) { WorkCount(s, i, x); }
  }

  // Only unlinking and finishing a task make history.
  lemma {:induction false} WorkQuiet(s: State, i: nat)
    requires i < |s.workers| && !s.workers[i].Pop? && !s.workers[i].Running?
    ensures WorkTo(s, i).started == s.started && WorkTo(s, i).finished == s.finished && WorkTo(s, i).queue == s.queue
  {
  }

  lemma {:induction false} WorkHolds(s: State, i: nat, x: nat)
    requires i < |s.workers| && !s.workers[i].Pop? && !s.workers[i].Running?
    ensures |WorkTo(s, i).workers| == |s.workers| && Holds(WorkTo(s, i).workers[i], x) == Holds(s.workers[i], x)
  {
    WorkOwn(s, i);
    var w := WorkTo(s, i).workers[i];
    if s.workers[i].Got? {
      assert w == Running(s.workers[i].task);
    } else {
      assert !w.Got? && !w.Running?;
    }
  }

  lemma {:induction false} WorkOrder(s: State, i: nat)
    requires s.added == s.started + s.freed + s.queue && i < |s.workers| && (s.workers[i].Pop? ==> s.freed == [])
    ensures WorkTo(s, i).added == WorkTo(s, i).started + WorkTo(s, i).freed + WorkTo(s, i).queue
  {
    if s.workers[i].Pop? {
      if s.queue != [] { assert s.started + s.queue == s.started + [s.queue[0]] + s.queue[1..]; }
    } else if !s.workers[i].Running? {
      WorkFrame(s, i);
      WorkQuiet(s, i);
    }
  }

  lemma {:induction false} WorkCount(s: State, i: nat, x: nat)
    requires i < |s.workers| && multiset(s.started)[x] == s.finished[x] + HeldOf(s.workers, x)
    ensures multiset(WorkTo(s, i).started)[x] == WorkTo(s, i).finished[x] + HeldOf(WorkTo(s, i).workers, x)
  {
    var w := NextWorker(s, i);
    HeldUpdate(s.workers, i, w, x);
    match s.workers[i]
    case Pop =>
      if s.queue != [] {
        assert multiset(s.started + [s.queue[0]]) == multiset(s.started) + multiset{s.queue[0]};
      } else {
        assert s.workers[i := Pop] == s.workers;
      }
    case Running(_) =>
    case _ =>
      WorkQuiet(s, i);
      WorkHolds(s, i, x);
  }

  lemma {:induction false} WorkWake(s: State, i: nat)
    requires Inv(s) && i < |s.workers| && WorkEnabled(s, i)
    ensures WakeUpOk(WorkTo(s, i))
  {
    var s' := WorkTo(s, i);
    WorkFrame(s, i);
    assert s.lock == ByWorker(i) <==> WorkerHolds(s.workers[i]);
    assert WorkerOk(s, i);
    assert s'.queue != [] && !s.shutdown ==> !OutOfAction(s'.workers[i]);
  }

  lemma {:induction false} WorkKeeps(s: State, i: nat)
    requires Inv(s) && i < |s.workers| && WorkEnabled(s, i)
    ensures Inv(WorkTo(s, i)) && |WorkTo(s, i).workers| == |s.workers|
  {
    WorkFrame(s, i); WorkLock(s, i); WorkSize(s, i); WorkJoin(s, i); WorkHistory(s, i); WorkWake(s, i);
    assert WorkerOk(s, i);
    forall j | 0 <= j < |s.workers| ensures WorkerOk(WorkTo(s, i), j) {
      assert WorkerOk(s, j);
      WorkWorkers(s, i, j);
    }
  }

  predicate AddEnabled(s: State, id: nat)
    requires id in s.calls
  {
    !s.calls[id].Returned? && (s.calls[id].Want? ==> s.lock == Open)
  }

  lemma {:induction false} AddLock(s: State, id: nat)
    requires LockOk(s) && id in s.calls && AddEnabled(s, id)
    ensures LockOk(AddTo(s, id))
  {
    AddFrame(s, id);
    assert s.lock == ByCall(id) <==> CallHolds(s.calls[id]);
  }

  lemma {:induction false} AddSize(s: State, id: nat)
    requires Inv(s) && id in s.calls && AddEnabled(s, id)
    ensures SizeOk(AddTo(s, id)) && !AddTo(s, id).aborted
  {
    assert s.lock == ByCall(id) <==> CallHolds(s.calls[id]);
    assert !JoinsOver(s.destroyer);
  }

  lemma {:induction false} AddWorkers(s: State, id: nat, j: nat)
    requires LockOk(s) && s.size >= 0 && id in s.calls && AddEnabled(s, id) && j < |s.workers| && WorkerOk(s, j)
    ensures |AddTo(s, id).workers| == |s.workers| && WorkerOk(AddTo(s, id), j)
  {
    AddFrame(s, id);
    assert s.lock == ByCall(id) <==> CallHolds(s.calls[id]);
    assert s.lock == ByWorker(j) <==> WorkerHolds(s.workers[j]);
  }

  lemma {:induction false} AddHistory(s: State, id: nat)
    requires HistoryOk(s) && JoinOk(s) && id in s.calls && AddEnabled(s, id)
    ensures HistoryOk(AddTo(s, id)) && JoinOk(AddTo(s, id))
  {
    AddFrame(s, id);
    assert !JoinsOver(s.destroyer);
  }

  lemma {:induction false} PendingFrame(s: State, s': State, id: nat)
    requires id in s'.calls && s'.calls == s.calls[id := s'.calls[id]]
    requires id in s.calls && SignalDue(s.calls[id]) ==> SignalDue(s'.calls[id])
    ensures SignalPending(s) ==> SignalPending(s')
  {
    if SignalPending(s) {
      var x :| x in s.calls && SignalDue(s.calls[x]);
      assert x in s'.calls && SignalDue(s'.calls[x]);
    }
  }

  // Short of the signal itself.
  lemma {:induction false} AddWake(s: State, id: nat)
    requires WakeUpOk(s) && id in s.calls && AddEnabled(s, id) && !s.calls[id].Signal?
    ensures WakeUpOk(AddTo(s, id))
  {
    var s' := AddTo(s, id);
    AddFrame(s, id);
    if s.calls[id].Want? {
      PendingFrame(s, s', id);
    } else {
      assert id in s'.calls && SignalDue(s'.calls[id]);
    }
  }

  lemma {:induction false} AddKeepsRest(s: State, id: nat)
    requires Inv(s) && id in s.calls && AddEnabled(s, id)
    ensures WakeUpOk(AddTo(s, id)) ==> Inv(AddTo(s, id))
  {
    AddFrame(s, id); AddLock(s, id); AddSize(s, id); AddHistory(s, id);
    forall j | 0 <= j < |s.workers| ensures WorkerOk(AddTo(s, id), j) {
      assert WorkerOk(s, j);
      AddWorkers(s, id, j);
    }
  }

  lemma {:induction false} SignalKeeps(s: State, id: nat, target: nat, s': State)
    requires Inv(s) && id in s.calls && s.calls[id].Signal? && AddStep(s, id, target, s')
    ensures Inv(s') && |s'.workers| == |s.workers|
  {
    var t := AddTo(s, id);
    AddFrame(s, id);
    if AnyAsleep(s) {
      // Wake the target first: then the call may stop counting as pending.
      var u := SetWorker(s, target, Woken);
      WakingKeeps(s, u);
      assert AddTo(u, id) == s';
      AddFrame(u, id);
      assert !OutOfAction(s'.workers[target]);
      AddKeepsRest(u, id);
    } else {
      if |s.workers| > 0 && !s.shutdown {
        assert WorkerOk(s, 0);
        assert !OutOfAction(t.workers[0]);
      }
      AddKeepsRest(s, id);
    }
  }

  lemma {:induction false} AddKeeps(s: State, id: nat, target: nat, s': State)
    requires Inv(s) && id in s.calls && AddStep(s, id, target, s')
    ensures Inv(s') && |s'.workers| == |s.workers|
  {
    if s.calls[id].Signal? {
      SignalKeeps(s, id, target, s');
    } else {
      AddFrame(s, id); AddWake(s, id); AddKeepsRest(s, id);
    }
  }

  lemma {:induction false} NewCallKeeps(s: State, id: nat, task: nat)
    requires Inv(s) && id !in s.calls && !JoinsOver(s.destroyer)
    ensures Inv(SetCall(s, id, Want(task)))
  {
    var s' := SetCall(s, id, Want(task));
    PendingFrame(s, s', id);
    forall j | 0 <= j < |s.workers| ensures WorkerOk(s', j) { assert WorkerOk(s, j); }
  }

  lemma {:induction false} DestroyWorkers(s: State, s': State)
    requires Inv(s) && DestroyStep(s, s') && s'.workers == s.workers
    ensures forall j :: 0 <= j < |s'.workers| ==> WorkerOk(s', j)
  {
    forall j | 0 <= j < |s.workers| ensures WorkerOk(s', j) { assert WorkerOk(s, j); }
  }

  lemma {:induction false} DestroyHistory(s: State, s': State)
    requires HistoryOk(s) && DestroyStep(s, s') && s'.workers == s.workers
    ensures HistoryOk(s')
  {
    if s.destroyer.Draining? && s.queue != [] {
      assert s.queue == [s.queue[0]] + s.queue[1..];
    }
  }

  lemma {:induction false} DestroyLock(s: State, s': State)
    requires LockOk(s) && JoinOk(s) && DestroyStep(s, s') && s'.workers == s.workers
    ensures LockOk(s') && JoinOk(s')
  {
  }

  lemma {:induction false} DestroyKeeps(s: State, s': State)
    requires Inv(s) && DestroyStep(s, s')
    ensures Inv(s') && |s'.workers| == |s.workers|
  {
    if s.destroyer.Broadcast? {
      var u := s.(workers := s'.workers);
      WakingKeeps(s, u);
      forall j | 0 <= j < |s'.workers| ensures WorkerOk(s', j) { assert WorkerOk(u, j); }
    } else {
      DestroyWorkers(s, s');
      DestroyHistory(s, s');
      DestroyLock(s, s');
    }
  }

  /** Every step of every agent keeps the invariant. */
  lemma {:induction false} StepKeeps(s: State, m: Move, s': State)
    requires Inv(s) && Step(s, m, s')
    ensures Inv(s') && |s'.workers| == |s.workers|
  {
    match m
    case Work(i) => WorkKeeps(s, i);
    case Spurious(i) => WakingKeeps(s, s');
    case NewCall(id, task) => NewCallKeeps(s, id, task);
    case Add(id, target) => AddKeeps(s, id, target, s');
    case Destroy => DestroyKeeps(s, s');
  }
}
