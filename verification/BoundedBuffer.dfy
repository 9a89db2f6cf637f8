/**
 One producer and one consumer share a circular buffer through two counting semaphores and
 a mutex. Capacity and items are parameters; the program runs with 5 slots and the items
 0 to 9.

 The two threads are a transition system with one step per access to shared data, so that
 every interleaving is a run.
 */
module BoundedBuffer {
  import opened Arithmetic

  // Where a thread stands in its loop body.
  datatype Pc =
    | Head        // about to wait on its semaphore, or past the last iteration
    | Waited      // about to lock
    | Locked      // holds the mutex, about to access buffer[index]
    | Accessed    // holds the mutex, about to advance its index
    | Advanced    // holds the mutex
    | Unlocked    // about to post the other semaphore

  datatype Owner = Open | Producer | Consumer

  datatype State = State(
    buffer: seq<int>,
    input: int,
    output: int,
    empty: int,
    filled: int,
    lock: Owner,
    producing: nat,     // the producer's loop counter
    producer: Pc,
    consuming: nat,     // the consumer's loop counter
    consumer: Pc,
    consumed: seq<int>)

  datatype Move = Produce | Consume

  // The buffer's first contents do not matter.
  predicate IsInitial(s: State, n: nat) {
    |s.buffer| == n && s == State(s.buffer, 0, 0, n, 0, Open, 0, Head, 0, Head, [])
  }

  ghost predicate ProduceStep(n: nat, items: seq<int>, s: State, s': State)
    requires n > 0
  {
    match s.producer
    case Head => s.producing < |items| && s.empty > 0 && s' == s.(producer := Waited, empty := s.empty - 1)
    case Waited => s.lock == Open && s' == s.(producer := Locked, lock := Producer)
    case Locked =>
      && 0 <= s.input < |s.buffer| && s.producing < |items|
      && s' == s.(producer := Accessed, buffer := s.buffer[s.input := items[s.producing]])
    case Accessed => s' == s.(producer := Advanced, input := (s.input + 1) % n)
    case Advanced => s' == s.(producer := Unlocked, lock := Open)
    case Unlocked => s' == s.(producer := Head, filled := s.filled + 1, producing := s.producing + 1)
  }

  ghost predicate ConsumeStep(n: nat, items: seq<int>, s: State, s': State)
    requires n > 0
  {
    match s.consumer
    case Head => s.consuming < |items| && s.filled > 0 && s' == s.(consumer := Waited, filled := s.filled - 1)
    case Waited => s.lock == Open && s' == s.(consumer := Locked, lock := Consumer)
    case Locked =>
      && 0 <= s.output < |s.buffer|
      && s' == s.(consumer := Accessed, consumed := s.consumed + [s.buffer[s.output]])
    case Accessed => s' == s.(consumer := Advanced, output := (s.output + 1) % n)
    case Advanced => s' == s.(consumer := Unlocked, lock := Open)
    case Unlocked => s' == s.(consumer := Head, empty := s.empty + 1, consuming := s.consuming + 1)
  }

  ghost predicate Step(n: nat, items: seq<int>, s: State, m: Move, s': State)
    requires n > 0
  {
    match m
    case Produce => ProduceStep(n, items, s, s')
    case Consume => ConsumeStep(n, items, s, s')
  }

  predicate IsFinished(items: seq<int>, s: State) {
    s.producer == Head && s.producing == |items| && s.consumer == Head && s.consuming == |items|
  }

  // ---------------------------------------------------------------- the invariant

  predicate HoldsMutex(pc: Pc) {
    pc.Locked? || pc.Accessed? || pc.Advanced?
  }

  // 1 from a thread's wait to its post: the slot it has in hand.
  function InFlight(pc: Pc): int {
    if pc == Head then 0 else 1
  }

  // How many slots a thread has accessed, and past how many its index has moved.
  function AccessedBy(count: nat, pc: Pc): nat {
    if pc.Accessed? || pc.Advanced? || pc.Unlocked? then count + 1 else count
  }

  function AdvancedBy(count: nat, pc: Pc): nat {
    if pc.Advanced? || pc.Unlocked? then count + 1 else count
  }

  function Written(s: State): nat { AccessedBy(s.producing, s.producer) }
  function Read(s: State): nat { AccessedBy(s.consuming, s.consumer) }

  ghost predicate CountsOk(n: nat, items: seq<int>, s: State) {
    && s.empty >= 0 && s.filled >= 0
    && s.empty == n + s.consuming - s.producing - InFlight(s.producer)
    && s.filled == s.producing - s.consuming - InFlight(s.consumer)
    && s.producing + InFlight(s.producer) <= |items|
    && s.consuming + InFlight(s.consumer) <= |items|
  }

  ghost predicate IndexesOk(n: nat, s: State)
    requires n > 0
  {
    && s.input == AdvancedBy(s.producing, s.producer) % n
    && s.output == AdvancedBy(s.consuming, s.consumer) % n
    && |s.buffer| == n
  }

  predicate LockOk(s: State) {
    && (s.lock == Producer <==> HoldsMutex(s.producer))
    && (s.lock == Consumer <==> HoldsMutex(s.consumer))
  }

  // Slots written and not read yet hold their items.
  ghost predicate SlotsOk(n: nat, items: seq<int>, s: State)
    requires n > 0 && |s.buffer| == n && Written(s) <= |items|
  {
    forall j: nat :: Read(s) <= j < Written(s) ==> s.buffer[j % n] == items[j]
  }

  ghost predicate Inv(n: nat, items: seq<int>, s: State)
    requires n > 0
  {
    && CountsOk(n, items, s) && IndexesOk(n, s) && LockOk(s)
    && SlotsOk(n, items, s)
    && s.consumed == items[..Read(s)]
  }

  // ---------------------------------------------------------------- steps keep it

  /** Positions less than n apart fall on different slots. */
  lemma {:induction false} SlotsDistinct(a: int, b: int, n: int)
    requires a < b < a + n
    ensures a % n != b % n
  {
    var d := b / n - a / n;
    assert a == (a / n) * n + a % n && b == (b / n) * n + b % n;
    assert d * n == (b / n) * n - (a / n) * n;
    if 0 < d * n < n { SmallMultiple(d, n); }
  }

  lemma {:induction false} NextSlot(a: int, n: int)
    requires n > 0
    ensures (a % n + 1) % n == (a + 1) % n
  {
    var q, r := a / n, a % n;
    assert a == q * n + r;
    if r + 1 == n {
      assert (q + 1) * n == q * n + n;
      RemainderUnique(a + 1, q + 1, 0, n);
      RemainderUnique(n, 1, 0, n);
    } else {
      RemainderUnique(a + 1, q, r + 1, n);
      RemainderUnique(r + 1, 0, r + 1, n);
    }
  }

  lemma {:induction false} InitialInv(n: nat, items: seq<int>, s: State)
    requires n > 0 && IsInitial(s, n)
    ensures Inv(n, items, s)
  {
  }

  /** The slot the producer is about to write holds no unread item. */
  lemma {:induction false} WritesReadSlot(n: nat, items: seq<int>, s: State, j: nat)
    requires n > 0 && Inv(n, items, s) && s.producer == Locked && Read(s) <= j < Written(s)
    ensures j % n != s.input
  {
    SlotsDistinct(j, Written(s), n);
  }

  lemma {:induction false} ProduceKeeps(n: nat, items: seq<int>, s: State, s': State)
    requires n > 0 && Inv(n, items, s) && ProduceStep(n, items, s, s')
    ensures Inv(n, items, s')
  {
    match s.producer
    case Locked =>
      forall j: nat | Read(s') <= j < Written(s') ensures s'.buffer[j % n] == items[j] {
        if j < Written(s) { WritesReadSlot(n, items, s, j); }
      }
    case Accessed => NextSlot(s.producing, n);
    case _ =>
  }

  lemma {:induction false} ConsumeKeeps(n: nat, items: seq<int>, s: State, s': State)
    requires n > 0 && Inv(n, items, s) && ConsumeStep(n, items, s, s')
    ensures Inv(n, items, s')
  {
    match s.consumer
    case Locked =>
      assert s.buffer[s.consuming % n] == items[s.consuming];
      assert items[..s.consuming] + [items[s.consuming]] == items[..s.consuming + 1];
    case Accessed => NextSlot(s.consuming, n);
    case _ =>
  }

  // ---------------------------------------------------------------- every run

  ghost predicate StepAt(n: nat, items: seq<int>, ss: seq<State>, ms: seq<Move>, k: nat)
    requires n > 0 && k < |ms| == |ss| - 1
  {
    Step(n, items, ss[k], ms[k], ss[k+1])
  }

  ghost predicate IsRun(n: nat, items: seq<int>, ss: seq<State>, ms: seq<Move>)
    requires n > 0
  {
    |ss| == |ms| + 1 && IsInitial(ss[0], n) && forall k :: 0 <= k < |ms| ==> StepAt(n, items, ss, ms, k)
  }

  lemma {:induction false} EveryStateSafe(n: nat, items: seq<int>, ss: seq<State>, ms: seq<Move>, k: nat)
    requires n > 0 && IsRun(n, items, ss, ms) && k < |ss|
    ensures Inv(n, items, ss[k])
    decreases k
  {
    if k == 0 {
      InitialInv(n, items, ss[0]);
    } else {
      EveryStateSafe(n, items, ss, ms, k - 1);
      assert StepAt(n, items, ss, ms, k - 1);
      var s, s' := ss[k-1], ss[k];
      match ms[k-1]
      case Produce => ProduceKeeps(n, items, s, s');
      case Consume => ConsumeKeeps(n, items, s, s');
    }
  }

  /** What was consumed is always a prefix of what was produced, and of the items in order;
      never more than n items are between the two. */
  lemma {:induction false} ConsumedIsPrefix(n: nat, items: seq<int>, ss: seq<State>, ms: seq<Move>, k: nat)
    requires n > 0 && IsRun(n, items, ss, ms) && k < |ss|
    ensures Written(ss[k]) <= |items| && ss[k].consumed <= items[..Written(ss[k])]
    ensures |ss[k].consumed| <= Written(ss[k]) <= |ss[k].consumed| + n
  {
    EveryStateSafe(n, items, ss, ms, k);
  }

  /** No step overwrites an item that has not been read. */
  lemma {:induction false} UnreadKept(n: nat, items: seq<int>, ss: seq<State>, ms: seq<Move>, k: nat, j: nat)
    requires n > 0 && IsRun(n, items, ss, ms) && k < |ms| && Read(ss[k]) <= j < Written(ss[k])
    ensures |ss[k].buffer| == |ss[k+1].buffer| == n && j < |items|
    ensures ss[k+1].buffer[j % n] == ss[k].buffer[j % n] == items[j]
  {
    EveryStateSafe(n, items, ss, ms, k);
    EveryStateSafe(n, items, ss, ms, k + 1);
    assert StepAt(n, items, ss, ms, k);
    var s := ss[k];
    assert s.buffer[j % n] == items[j];
    if ms[k].Produce? && s.producer == Locked { WritesReadSlot(n, items, s, j); }
  }

  /** The semaphores and the slots in hand add up to the capacity, at all times, and the two
      threads are never both inside. */
  lemma {:induction false} SlotsConserved(n: nat, items: seq<int>, ss: seq<State>, ms: seq<Move>, k: nat)
    requires n > 0 && IsRun(n, items, ss, ms) && k < |ss|
    ensures var s := ss[k]; s.empty + s.filled + InFlight(s.producer) + InFlight(s.consumer) == n
    ensures 0 <= ss[k].empty <= n && 0 <= ss[k].filled <= n
    ensures !(HoldsMutex(ss[k].producer) && HoldsMutex(ss[k].consumer))
  {
    EveryStateSafe(n, items, ss, ms, k);
  }

  function Position(pc: Pc): nat {
    match pc
    case Head => 0
    case Waited => 1
    case Locked => 2
    case Accessed => 3
    case Advanced => 4
    case Unlocked => 5
  }

  function StepsTaken(s: State): nat {
    6 * s.producing + Position(s.producer) + 6 * s.consuming + Position(s.consumer)
  }

  /** Every run is finite: it has taken as many steps as the loop counters say, at most
      twelve for each item, and both threads are done exactly when it has taken them all. */
  lemma {:induction false} RunLength(n: nat, items: seq<int>, ss: seq<State>, ms: seq<Move>, k: nat)
    requires n > 0 && IsRun(n, items, ss, ms) && k < |ss|
    ensures StepsTaken(ss[k]) == k <= 12 * |items|
    ensures k == 12 * |items| <==> IsFinished(items, ss[k])
    decreases k
  {
    EveryStateSafe(n, items, ss, ms, k);
    if k > 0 {
      RunLength(n, items, ss, ms, k - 1);
      assert StepAt(n, items, ss, ms, k - 1);
    }
  }

  ghost predicate CanStep(n: nat, items: seq<int>, s: State, m: Move)
    requires n > 0
  {
    exists s' :: Step(n, items, s, m, s')
  }

  /** No deadlock: until both threads are done, one of them can take a step. */
  lemma {:induction false} SomeoneCanStep(n: nat, items: seq<int>, ss: seq<State>, ms: seq<Move>, k: nat) returns (m: Move)
    requires n > 0 && IsRun(n, items, ss, ms) && k < |ss| && !IsFinished(items, ss[k])
    ensures CanStep(n, items, ss[k], m)
  {
    var s := ss[k];
    EveryStateSafe(n, items, ss, ms, k);
    var producerReady := match s.producer
      case Head => s.producing < |items| && s.empty > 0
      case Waited => s.lock == Open
      case _ => true;
    if producerReady {
      m := Produce;
      ProducerCanStep(n, items, s);
    } else {
      m := Consume;
      ConsumerCanStep(n, items, s);
    }
  }

  lemma {:induction false} ProducerCanStep(n: nat, items: seq<int>, s: State)
    requires n > 0 && Inv(n, items, s)
    requires s.producer.Head? ==> s.producing < |items| && s.empty > 0
    requires s.producer.Waited? ==> s.lock == Open
    ensures CanStep(n, items, s, Produce)
  {
    var s' := match s.producer
      case Head => s.(producer := Waited, empty := s.empty - 1)
      case Waited => s.(producer := Locked, lock := Producer)
      case Locked => s.(producer := Accessed, buffer := s.buffer[s.input := items[s.producing]])
      case Accessed => s.(producer := Advanced, input := (s.input + 1) % n)
      case Advanced => s.(producer := Unlocked, lock := Open)
      case Unlocked => s.(producer := Head, filled := s.filled + 1, producing := s.producing + 1);
    assert Step(n, items, s, Produce, s');
  }

  lemma {:induction false} ConsumerCanStep(n: nat, items: seq<int>, s: State)
    requires n > 0 && Inv(n, items, s)
    requires s.consumer.Head? ==> s.consuming < |items| && s.filled > 0
    requires s.consumer.Waited? ==> s.lock == Open
    ensures CanStep(n, items, s, Consume)
  {
    var s' := match s.consumer
      case Head => s.(consumer := Waited, filled := s.filled - 1)
      case Waited => s.(consumer := Locked, lock := Consumer)
      case Locked => s.(consumer := Accessed, consumed := s.consumed + [s.buffer[s.output]])
      case Accessed => s.(consumer := Advanced, output := (s.output + 1) % n)
      case Advanced => s.(consumer := Unlocked, lock := Open)
      case Unlocked => s.(consumer := Head, empty := s.empty + 1, consuming := s.consuming + 1);
    assert Step(n, items, s, Consume, s');
  }

  /** Exactly what each thread waits for: its semaphore at the head of its loop, and the mutex
      after that. */
  lemma {:induction false} WhoCanMove(n: nat, items: seq<int>, ss: seq<State>, ms: seq<Move>, k: nat)
    requires n > 0 && IsRun(n, items, ss, ms) && k < |ss|
    ensures var s := ss[k];
      && (CanStep(n, items, s, Produce) <==>
            (s.producer.Head? ==> s.producing < |items| && s.empty > 0) && (s.producer.Waited? ==> s.lock == Open))
      && (CanStep(n, items, s, Consume) <==>
            (s.consumer.Head? ==> s.consuming < |items| && s.filled > 0) && (s.consumer.Waited? ==> s.lock == Open))
  {
    var s := ss[k];
    EveryStateSafe(n, items, ss, ms, k);
    if (s.producer.Head? ==> s.producing < |items| && s.empty > 0) && (s.producer.Waited? ==> s.lock == Open) {
      ProducerCanStep(n, items, s);
    }
    if (s.consumer.Head? ==> s.consuming < |items| && s.filled > 0) && (s.consumer.Waited? ==> s.lock == Open) {
      ConsumerCanStep(n, items, s);
    }
  }

  /** At the end exactly the produced items were consumed, and all slots are empty again. */
  lemma {:induction false} EndsWithAllConsumed(n: nat, items: seq<int>, ss: seq<State>, ms: seq<Move>, k: nat)
    requires n > 0 && IsRun(n, items, ss, ms) && k < |ss| && IsFinished(items, ss[k])
    ensures ss[k].consumed == items && ss[k].empty == n && ss[k].filled == 0 && ss[k].lock == Open
  {
    EveryStateSafe(n, items, ss, ms, k);
    assert items[..|items|] == items;
  }
}
