/**
 The error log that survives restarts: a ring of 100 entries in memory, written to a file
 as a whole after every entry.

 A file that cannot be opened or removed is left alone, as in the program, so every
 operation takes a flag for it. The clock is a parameter of blackbox_log. The file is one
 that this program wrote.
 */
module BlackBox {

  const MAX_LOG_COUNT: nat := 100
  const DESCRIPTION_MAX: nat := 255

  datatype ErrorLog = ErrorLog(timestamp: int, code: int, description: string)

  datatype Image = Image(start: int, count: int, logs: seq<ErrorLog>)

  datatype Option<T> = None | Some(value: T)

  predicate IsImage(r: Image) {
    0 <= r.start < MAX_LOG_COUNT && 0 <= r.count <= MAX_LOG_COUNT && |r.logs| == MAX_LOG_COUNT
  }

  // The entries, oldest first.
  function Contents(r: Image): seq<ErrorLog>
    requires IsImage(r)
  {
    seq(r.count, i requires 0 <= i < r.count => r.logs[(r.start + i) % MAX_LOG_COUNT])
  }

  function Truncated(text: string): string {
    if |text| <= DESCRIPTION_MAX then text else text[..DESCRIPTION_MAX]
  }

  // The newest 100 entries.
  function Newest(s: seq<ErrorLog>): seq<ErrorLog> {
    if |s| <= MAX_LOG_COUNT then s else s[|s| - MAX_LOG_COUNT..]
  }

  // What blackbox_log makes of the ring.
  function Pushed(r: Image, e: ErrorLog): Image
    requires IsImage(r)
  {
    Image(
      if r.count == MAX_LOG_COUNT then (r.start + 1) % MAX_LOG_COUNT else r.start,
      if r.count == MAX_LOG_COUNT then r.count else r.count + 1,
      r.logs[(r.start + r.count) % MAX_LOG_COUNT := e])
  }

  /** What is kept of a description: all of it up to 255 characters, its first 255 otherwise. */
  ghost predicate IsKeptOf(kept: string, text: string) {
    kept <= text && |kept| == if |text| <= 255 then |text| else 255
  }

  lemma {:induction false} TruncatedKeeps(text: string)
    ensures IsKeptOf(Truncated(text), text)
    ensures |text| <= 255 ==> Truncated(text) == text
  {
  }

  /** Logging into the ring appends to the entries and drops the oldest if there were 100. */
  lemma {:induction false} PushedContents(r: Image, e: ErrorLog)
    requires IsImage(r)
    ensures IsImage(Pushed(r, e)) && Contents(Pushed(r, e)) == Newest(Contents(r) + [e])
  {
    var got, want := Contents(Pushed(r, e)), Newest(Contents(r) + [e]);
    assert |got| == |want|;
    forall i | 0 <= i < |got| ensures got[i] == want[i] { PushedAt(r, e, i); }
  }

  lemma {:induction false} PushedAt(r: Image, e: ErrorLog, i: nat)
    requires IsImage(r) && IsImage(Pushed(r, e)) && i < Pushed(r, e).count
    requires |Newest(Contents(r) + [e])| == Pushed(r, e).count
    ensures Contents(Pushed(r, e))[i] == Newest(Contents(r) + [e])[i]
  {
    if r.count == MAX_LOG_COUNT {
      SlotsAfterWrap(r.start, i);
    } else {
      SlotsWithRoom(r.start, r.count, i);
    }
  }

  // In a full ring the overwritten slot is the oldest, and the others move up by one.
  lemma {:induction false} SlotsAfterWrap(start: nat, i: nat)
    requires start < MAX_LOG_COUNT && i < MAX_LOG_COUNT
    ensures ((start + 1) % MAX_LOG_COUNT + i) % MAX_LOG_COUNT == (start + (i + 1)) % MAX_LOG_COUNT
    ensures (start + (i + 1)) % MAX_LOG_COUNT == (start + MAX_LOG_COUNT) % MAX_LOG_COUNT <==> i == MAX_LOG_COUNT - 1
  {
    SlotOf(start + MAX_LOG_COUNT);
    SlotOf(start + 1);
    SlotOf((start + 1) % MAX_LOG_COUNT + i);
    SlotOf(start + (i + 1));
  }

  lemma {:induction false} SlotsWithRoom(start: nat, count: nat, i: nat)
    requires start < MAX_LOG_COUNT && i <= count < MAX_LOG_COUNT
    ensures (start + i) % MAX_LOG_COUNT == (start + count) % MAX_LOG_COUNT <==> i == count
  {
    SlotOf(start + i);
    SlotOf(start + count);
  }

  lemma {:induction false} SlotOf(a: nat)
    requires a < 2 * MAX_LOG_COUNT
    ensures a % MAX_LOG_COUNT == if a < MAX_LOG_COUNT then a else a - MAX_LOG_COUNT
  {
  }

  /** The file outlives the process that has it open. */
  class Disk {
    var image: Option<Image>

    constructor ()
      ensures image == None
    {
      image := None;
    }

    ghost predicate Valid()
      reads this
    {
      image.Some? ==> IsImage(image.value)
    }

    ghost function Saved(): seq<ErrorLog>
      requires Valid()
      reads this
    {
      if image.None? then [] else Contents(image.value)
    }
  }

  class Box {
    var start: int
    var count: int
    const logs: array<ErrorLog>
    const disk: Disk

    ghost predicate Valid()
      reads this, logs, disk
    {
      disk.Valid() && IsImage(Ring())
    }

    ghost function Ring(): Image
      reads this, logs
    {
      Image(start, count, logs[..])
    }

    ghost function Entries(): seq<ErrorLog>
      requires IsImage(Ring())
      reads this, logs
    {
      Contents(Ring())
    }

    /** blackbox_init in a new process: what the file holds, if there is one to read. */
    constructor (disk: Disk, opens: bool)
      requires disk.Valid()
      ensures Valid() && this.disk == disk && fresh(logs)
      ensures Entries() == if opens then disk.Saved() else []
    {
      this.disk := disk;
      start, count := 0, 0;
      logs := new ErrorLog[MAX_LOG_COUNT];
      new;
      Load(opens);
    }

    method Load(opens: bool)
      requires Valid()
      modifies this, logs
      ensures Valid()
      ensures Ring() == if opens && disk.image.Some? then disk.image.value else old(Ring())
    {
      if opens && disk.image.Some? {
        var r := disk.image.value;
        start, count := r.start, r.count;
        forall i | 0 <= i < MAX_LOG_COUNT { logs[i] := r.logs[i]; }
        assert logs[..] == r.logs;
      }
    }

    method Save(opens: bool)
      requires Valid()
      modifies disk
      ensures Valid()
      ensures disk.image == if opens then Some(Ring()) else old(disk.image)
    {
      if opens {
        disk.image := Some(Image(start, count, logs[..]));
      }
    }

    method Log(code: int, text: string, now: int, opens: bool)
      requires Valid()
      modifies this, logs, disk
      ensures Valid()
      ensures Entries() == Newest(old(Entries()) + [ErrorLog(now, code, Truncated(text))])
      ensures disk.Saved() == if opens then Entries() else old(disk.Saved())
      ensures |Entries()| == (if |old(Entries())| < 100 then |old(Entries())| + 1 else 100)
      ensures var e := Entries()[|Entries()|-1]; e.timestamp == now && e.code == code && IsKeptOf(e.description, text)
    {
      TruncatedKeeps(text);
      var e := ErrorLog(now, code, Truncated(text));
      PushedContents(Ring(), e);
      Push(e);
      Save(opens);
    }

    // The ring's part of blackbox_log.
    method Push(e: ErrorLog)
      requires Valid()
      modifies this, logs
      ensures Ring() == Pushed(old(Ring()), e)
    {
      var index := (start + count) % MAX_LOG_COUNT;
      if count == MAX_LOG_COUNT {
        start := (start + 1) % MAX_LOG_COUNT;
      } else {
        count := count + 1;
      }
      logs[index] := e;
    }

    method Clear(removed: bool)
      requires Valid()
      modifies this, disk
      ensures Valid()
      ensures Entries() == []
      ensures disk.Saved() == if removed then [] else old(disk.Saved())
    {
      start, count := 0, 0;
      if removed {
        disk.image := None;
      }
    }

    /** blackbox_export: the entries in the order in which they are printed. */
    method Export() returns (out: seq<ErrorLog>)
      requires Valid()
      ensures out == Entries()
    {
      out := [];
      for i := 0 to count
        invariant |out| == i
        invariant forall j :: 0 <= j < i ==> out[j] == Entries()[j]
      {
        var index := (start + i) % MAX_LOG_COUNT;
        out := out + [logs[index]];
      }
    }
  }

  // ---------------------------------------------------------------- whole runs

  datatype Op =
    | Log(code: int, text: string, now: int, saved: bool)
    | Clear(removed: bool)
    | Restart(opens: bool)

  // What is in memory and what is in the file.
  datatype View = View(memory: seq<ErrorLog>, file: seq<ErrorLog>)

  function Apply(v: View, op: Op): View {
    match op
    case Log(code, text, now, saved) =>
      var m := Newest(v.memory + [ErrorLog(now, code, Truncated(text))]);
      View(m, if saved then m else v.file)
    case Clear(removed) => View([], if removed then [] else v.file)
    case Restart(opens) => View(if opens then v.file else [], v.file)
  }

  function After(ops: seq<Op>): View {
    if ops == [] then View([], []) else Apply(After(ops[..|ops|-1]), ops[|ops|-1])
  }

  /** Everything logged since the last clear, without any bound. */
  function Logged(ops: seq<Op>): seq<ErrorLog> {
    if ops == [] then [] else
    var before := Logged(ops[..|ops|-1]);
    match ops[|ops|-1]
    case Log(code, text, now, _) => before + [ErrorLog(now, code, Truncated(text))]
    case Clear(_) => []
    case Restart(_) => before
  }

  // The operation reached the file.
  predicate Succeeds(op: Op) {
    match op
    case Log(_, _, _, saved) => saved
    case Clear(removed) => removed
    case Restart(opens) => opens
  }

  lemma {:induction false} NewestAppend(s: seq<ErrorLog>, e: ErrorLog)
    ensures Newest(Newest(s) + [e]) == Newest(s + [e])
  {
  }

  /** When the file operations succeed, memory and file both hold exactly the last 100
      entries logged since the last clear, oldest first, across any number of restarts. */
  lemma {:induction false} HoldsNewest(ops: seq<Op>)
    requires forall k :: 0 <= k < |ops| ==> Succeeds(ops[k])
    ensures After(ops).memory == After(ops).file == Newest(Logged(ops))
    decreases |ops|
  {
    if ops != [] {
      var before, op := ops[..|ops|-1], ops[|ops|-1];
      HoldsNewest(before);
      if op.Log? {
        NewestAppend(Logged(before), ErrorLog(op.now, op.code, Truncated(op.text)));
      }
    }
  }

  // ---------------------------------------------------------------- in terms of the operations

  /** Operation k logged something, and nothing was cleared after it. */
  ghost predicate StillCounts(ops: seq<Op>, k: nat)
    requires k < |ops|
  {
    ops[k].Log? && forall j :: k < j < |ops| ==> !ops[j].Clear?
  }

  // The operations that still count, in order.
  ghost function Counting(ops: seq<Op>): seq<nat> {
    if ops == [] then [] else
    var before := Counting(ops[..|ops|-1]);
    match ops[|ops|-1]
    case Log(_, _, _, _) => before + [|ops| - 1]
    case Clear(_) => []
    case Restart(_) => before
  }

  /** Counting lists exactly the operations that still count, each once, oldest first. */
  lemma {:induction false} CountingIs(ops: seq<Op>)
    ensures forall k: nat :: k in Counting(ops) <==> k < |ops| && StillCounts(ops, k)
    ensures forall i, j :: 0 <= i < j < |Counting(ops)| ==> Counting(ops)[i] < Counting(ops)[j]
    decreases |ops|
  {
    if ops != [] {
      var before := ops[..|ops|-1];
      CountingIs(before);
      forall k: nat ensures k in Counting(ops) <==> k < |ops| && StillCounts(ops, k) {
        if k < |before| {
          assert StillCounts(ops, k) <==> StillCounts(before, k) && !ops[|ops|-1].Clear?;
        }
      }
      forall i, j | 0 <= i < j < |Counting(ops)| ensures Counting(ops)[i] < Counting(ops)[j] {
        if ops[|ops|-1].Log? && j == |Counting(before)| { assert Counting(before)[i] in Counting(before); }
      }
    }
  }

  // The entry records the operation.
  ghost predicate Records(e: ErrorLog, op: Op) {
    op.Log? && e.timestamp == op.now && e.code == op.code && IsKeptOf(e.description, op.text)
  }

  /** The entries are the records of the last 100 operations that still count, or of all of
      them if there are fewer, oldest first. */
  ghost predicate Reports(out: seq<ErrorLog>, ops: seq<Op>) {
    var counting := Counting(ops);
    && |out| == (if |counting| <= 100 then |counting| else 100)
    && forall i :: 0 <= i < |out| ==>
         var k := counting[|counting| - |out| + i]; k < |ops| && Records(out[i], ops[k])
  }

  lemma {:induction false} LoggedRecords(ops: seq<Op>)
    ensures |Logged(ops)| == |Counting(ops)|
    ensures forall i :: 0 <= i < |Logged(ops)| ==> Counting(ops)[i] < |ops| && Records(Logged(ops)[i], ops[Counting(ops)[i]])
    decreases |ops|
  {
    if ops != [] {
      LoggedRecords(ops[..|ops|-1]);
      if ops[|ops|-1].Log? { TruncatedKeeps(ops[|ops|-1].text); }
    }
  }

  /** When the file operations succeed, memory and file both report the operations. */
  lemma {:induction false} MemoryReports(ops: seq<Op>)
    requires forall k :: 0 <= k < |ops| ==> Succeeds(ops[k])
    ensures Reports(After(ops).memory, ops) && Reports(After(ops).file, ops)
  {
    HoldsNewest(ops);
    LoggedRecords(ops);
  }

  /** A text of at most 255 characters that was logged is exported unchanged, as long as it is
      among the last 100 since the last clear, whatever restarts there were. */
  lemma {:induction false} ShortTextKept(ops: seq<Op>, k: nat) returns (i: nat)
    requires forall j :: 0 <= j < |ops| ==> Succeeds(ops[j])
    requires k < |ops| && StillCounts(ops, k) && |ops[k].text| <= 255 && k in NewestOf(Counting(ops))
    ensures i < |After(ops).memory|
    ensures After(ops).memory[i] == ErrorLog(ops[k].now, ops[k].code, ops[k].text)
  {
    MemoryReports(ops);
    var counting := Counting(ops);
    var out := After(ops).memory;
    i :| 0 <= i < |NewestOf(counting)| && NewestOf(counting)[i] == k;
    assert counting[|counting| - |out| + i] == k && Records(out[i], ops[k]);
  }

  ghost function NewestOf(ks: seq<nat>): seq<nat> {
    if |ks| <= 100 then ks else ks[|ks| - 100..]
  }

  // How many operations the file reflects: up to the last log or clear that reached it.
  function Persisted(ops: seq<Op>): (k: nat)
    ensures k <= |ops|
  {
    if ops == [] then 0
    else if !ops[|ops|-1].Restart? && Succeeds(ops[|ops|-1]) then |ops|
    else Persisted(ops[..|ops|-1])
  }

  /** Whatever fails, the file holds what memory held after the last operation that reached
      it, so that is what a restart brings back. */
  lemma {:induction false} FileIsLastPersisted(ops: seq<Op>)
    ensures After(ops).file == After(ops[..Persisted(ops)]).memory
    decreases |ops|
  {
    if ops != [] && (ops[|ops|-1].Restart? || !Succeeds(ops[|ops|-1])) {
      FileIsLastPersisted(ops[..|ops|-1]);
      assert ops[..|ops|-1][..Persisted(ops)] == ops[..Persisted(ops)];
    } else {
      assert ops[..|ops|] == ops;
    }
  }

  /** The program, driven through any sequence of operations, each restart in a new process:
      export prints what the unbounded log says. */
  method Drive(ops: seq<Op>) returns (out: seq<ErrorLog>)
    ensures out == After(ops).memory
    ensures (forall k :: 0 <= k < |ops| ==> Succeeds(ops[k])) ==> out == Newest(Logged(ops)) && Reports(out, ops)
  {
    var disk := new Disk();
    var box := new Box(disk, true);
    for i := 0 to |ops|
      invariant fresh(disk) && fresh(box) && fresh(box.logs) && box.Valid() && box.disk == disk
      invariant After(ops[..i]) == View(box.Entries(), disk.Saved())
    {
      assert ops[..i+1][..i] == ops[..i];
      match ops[i]
      case Log(code, text, now, saved) => box.Log(code, text, now, saved);
      case Clear(removed) => box.Clear(removed);
      case Restart(opens) => box := new Box(disk, opens);
    }
    assert ops[..|ops|] == ops;
    out := box.Export();
    if forall k :: 0 <= k < |ops| ==> Succeeds(ops[k]) {
      HoldsNewest(ops);
      MemoryReports(ops);
    }
  }
}
