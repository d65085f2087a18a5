/** The queue pool as the program keeps it: queues found by name, and arrays indexed by task id. */
module QueuePools {
  import opened QueueState
  import opened PoolState
  import opened LinkedQueues
  import Queues

  /** strcmp: negative, zero or positive. */
  function Compare(a: string, b: string): int {
    if a == [] || b == [] then |a| - |b|
    else if a[0] != b[0] then a[0] as int - b[0] as int
    else Compare(a[1..], b[1..])
  }

  lemma {:induction false} CompareEqual(a: string, b: string)
    ensures Compare(a, b) == 0 <==> a == b
  {
    if a != [] && b != [] && a[0] == b[0] {
      CompareEqual(a[1..], b[1..]);
      assert a == [a[0]] + a[1..] && b == [b[0]] + b[1..];
    }
  }

  lemma {:induction false} CompareTransitive(a: string, b: string, c: string)
    requires Compare(a, b) < 0
    ensures Compare(b, c) <= 0 ==> Compare(a, c) < 0
    ensures Compare(c, a) <= 0 ==> Compare(c, b) < 0
  {
    CompareEqual(b, c);
    CompareEqual(c, a);
    if a != [] && b != [] && c != [] && (a[0] == b[0] == c[0]) {
      CompareTransitive(a[1..], b[1..], c[1..]);
    }
  }

  ghost predicate Sorted(names: seq<string>) {
    forall i, j :: 0 <= i < j < |names| ==> Compare(names[i], names[j]) < 0
  }

  /** lookup: binary search over the sorted names; the index, or -1 exactly when the name is unknown. */
  method Lookup(names: seq<string>, name: string) returns (i: int)
    requires Sorted(names)
    ensures if name in names then 0 <= i < |names| && names[i] == name else i == -1
  {
    var begin, end := 0, |names| - 1;
    while begin <= end
      invariant 0 <= begin <= end + 1 <= |names|
      invariant forall k :: 0 <= k < begin ==> Compare(names[k], name) < 0
      invariant forall k :: end < k < |names| ==> Compare(names[k], name) > 0
    {
      var middle := (end + begin) / 2;
      var cmp := Compare(names[middle], name);
      CompareEqual(names[middle], name);
      if cmp == 0 {
        return middle;
      }
      if cmp < 0 {
        forall k | 0 <= k < middle ensures Compare(names[k], name) < 0 {
          CompareTransitive(names[k], names[middle], name);
        }
        begin := middle + 1;
      } else {
        forall k | middle < k < |names| ensures Compare(names[k], name) > 0 {
          Above(names[middle], names[k], name);
        }
        end := middle - 1;
      }
    }
    forall k | 0 <= k < |names| ensures names[k] != name {
      CompareEqual(names[k], name);
    }
    return -1;
  }

  lemma Above(a: string, b: string, c: string)
    requires Compare(a, b) < 0 && Compare(a, c) > 0
    ensures Compare(b, c) > 0
  {
    CompareEqual(b, c);
    if Compare(b, c) <= 0 {
      CompareTransitive(a, b, c);
    }
  }

  /** The table of ids: an id is free when it has no workflow instance. */
  ghost function Slots(queueIndex: seq<nat>, task: seq<int>, workflowInstance: seq<int>): (r: seq<Slot>)
    requires |queueIndex| == |task| == |workflowInstance|
    ensures |r| == |queueIndex|
  {
    seq(|queueIndex|, t requires 0 <= t < |queueIndex| => SlotOf(queueIndex[t], task[t], workflowInstance[t]))
  }

  ghost function SlotOf(queueIndex: nat, task: int, workflowInstance: int): Slot {
    if workflowInstance == 0 then Free else Held(queueIndex, Entry(workflowInstance, task))
  }

  /** What DequeueTask does before it would return or wait. */
  datatype Dequeued = ShutDown | Wait | NoTask | Task(index: nat, entry: Entry)

  /** The answer of ExecuteTask, and of TerminateTask, unless they write or read outside the table. */
  datatype Registered = Tid(id: nat) | OutOfTable

  datatype Terminated = Found(entry: Entry) | NotFound | Outside

  class QueuePool {
    const names: seq<string>
    const queues: seq<Queues.Queue>
    const tidQueueIndex: array<nat>
    const tidTask: array<int>
    const tidWorkflowInstance: array<int>
    const maxpid: nat
    var lasttid: nat
    var forkPossible: bool
    var forkLocked: bool
    var isShuttingDown: bool

    ghost predicate Shaped() {
      && |names| == |queues| && Sorted(names) && maxpid > 0
      && tidQueueIndex.Length == tidTask.Length == tidWorkflowInstance.Length == maxpid + 1
      && tidTask != tidWorkflowInstance
    }

    /** The queues are sound and share no node. */
    ghost predicate Valid()
      reads queues, Cells(queues)
    {
      Shaped() && AllSound(queues) && Disjoint(queues)
    }

    ghost function Table(): seq<Slot>
      requires Shaped()
      reads tidQueueIndex, tidTask, tidWorkflowInstance
    {
      Slots(tidQueueIndex[..], tidTask[..], tidWorkflowInstance[..])
    }

    ghost function State(): Pool
      requires Shaped()
      reads this, queues, tidQueueIndex, tidTask, tidWorkflowInstance
    {
      Pool(States(queues), Table(), lasttid, forkPossible, forkLocked, isShuttingDown)
    }

    constructor (names: seq<string>, queues: seq<Queues.Queue>, maxpid: nat)
      requires |names| == |queues| && Sorted(names) && maxpid > 0 && AllSound(queues) && Disjoint(queues)
      ensures Valid() && fresh(tidQueueIndex) && fresh(tidTask) && fresh(tidWorkflowInstance)
      ensures this.names == names && this.queues == queues && State().MaxPid() == maxpid && lasttid == 0
      ensures forall t :: 0 <= t <= maxpid ==> State().tids[t].Free?
      ensures forkPossible == !State().IsLocked() && !forkLocked && !isShuttingDown
    {
      var locked := IsLocked(queues);
      var queueIndex, task, workflowInstance := NewTable(maxpid + 1);
      this.names, this.queues, this.maxpid, lasttid := names, queues, maxpid, 0;
      tidQueueIndex, tidTask, tidWorkflowInstance := queueIndex, task, workflowInstance;
      forkPossible, isShuttingDown, forkLocked := !locked, false, false;
      new;
      assert Valid() && States(queues) == old(States(queues));
    }

    /** The arrays indexed by task id, with every id free. */
    static method NewTable(n: nat) returns (queueIndex: array<nat>, task: array<int>, workflowInstance: array<int>)
      ensures fresh(queueIndex) && fresh(task) && fresh(workflowInstance) && task != workflowInstance
      ensures queueIndex.Length == task.Length == workflowInstance.Length == n
      ensures forall t :: 0 <= t < n ==> workflowInstance[t] == 0
    {
      queueIndex := new nat[n](_ => 0);
      task := new int[n](_ => 0);
      workflowInstance := new int[n](_ => 0);
    }

    /** The end of most operations: the flag is brought up to date, and the forker signalled if it sleeps and has work. */
    method Refresh() returns (signal: bool)
      requires Shaped() && AllLinked(queues)
      modifies `forkPossible
      ensures AllLinked(queues)
      ensures old(Disjoint(queues)) ==> Disjoint(queues)
      ensures old(AllSound(queues)) ==> AllSound(queues) && State() == old(State()).Refresh() && signal == State().Signals()
    {
      var locked := IsLocked(queues);
      forkPossible := !locked;
      signal := forkLocked && forkPossible;
    }

    /** EnqueueTask; what it does to a queue whose tail has been cancelled is in Append. */
    method EnqueueTask(name: string, e: Entry) returns (known: bool, signal: bool)
      requires Valid()
      modifies `forkPossible, queues, Cells(queues)
      ensures (known <==> name in names) && AllLinked(queues) && Disjoint(queues)
      ensures forall q :: q in queues ==> fresh(q.cells - old(q.cells))
      ensures !known ==> Valid() && State() == old(State()) && !signal
      ensures forall k :: 0 <= k < |names| && names[k] == name && old(queues[k].TailKept()) ==>
        Valid() && State() == old(State()).EnqueueTask(k, e) && signal == State().Signals()
      ensures forall k :: 0 <= k < |names| && names[k] == name && !old(queues[k].TailKept()) ==>
        queues[k].size == |queues[k].fifo| + 1 && queues[k].fifo == old(queues[k].fifo)
    {
      var i := Lookup(names, name);
      if i == -1 {
        return false, false;
      }
      OnlyName(i, name);
      signal := EnqueueIn(i, e);
      known := true;
    }

    method EnqueueIn(k: nat, e: Entry) returns (signal: bool)
      requires Valid() && k < |queues|
      modifies `forkPossible, queues[k], queues[k].cells
      ensures AllLinked(queues) && Disjoint(queues)
      ensures forall q :: q in queues ==> fresh(q.cells - old(q.cells))
      ensures old(queues[k].TailKept()) ==> Valid() && State() == old(State()).EnqueueTask(k, e) && signal == State().Signals()
      ensures !old(queues[k].TailKept()) ==> queues[k].size == |queues[k].fifo| + 1 && queues[k].fifo == old(queues[k].fifo)
    {
      Append(queues, k, e);
      assert old(queues[k].TailKept()) ==> Valid() && State().Refresh() == old(State()).EnqueueTask(k, e);
      signal := Refresh();
    }

    method RunIn(k: nat, more: bool)
      requires Valid() && k < |queues|
      modifies queues[k]
      ensures Valid()
      ensures var q := old(State()).queues[k];
        State() == old(State()).(queues := old(State()).queues[k := q.(running := q.running + if more then 1 else -1)])
    {
      Run(queues, k, more);
    }

    lemma OnlyName(i: nat, name: string)
      requires Sorted(names) && i < |names| && names[i] == name
      ensures forall k :: 0 <= k < |names| && names[k] == name ==> k == i
    {
      CompareEqual(name, name);
    }

    /** DequeueTask up to the wait; without a wait it goes on at once. */
    method DequeueTask() returns (d: Dequeued)
      requires Valid() && State().Valid()
      modifies `forkPossible, `forkLocked, queues
      ensures Valid()
      ensures old(isShuttingDown) ==> d == ShutDown && State() == old(State())
      ensures !old(isShuttingDown) && !old(forkPossible) ==> d == Wait && State() == old(State()).(forkLocked := true)
      ensures !old(isShuttingDown) && old(forkPossible) ==> Took(d, old(State())) && State() == old(State()).DequeueTask()
    {
      if isShuttingDown {
        return ShutDown;
      }
      if !forkPossible {
        forkLocked := true;
        return Wait;
      }
      d := AfterWait();
    }

    /** The first task of the first queue that is not locked. */
    static ghost predicate Took(d: Dequeued, p: Pool) {
      !p.IsLocked() && d == Task(FirstUnlocked(p.queues), p.queues[FirstUnlocked(p.queues)].Head())
    }

    /** DequeueTask after the wait. */
    method AfterWait() returns (d: Dequeued)
      requires Valid()
      modifies `forkPossible, `forkLocked, queues
      ensures Valid()
      ensures old(isShuttingDown) ==> d == ShutDown && State() == old(State())
      ensures !old(isShuttingDown) && old(State()).IsLocked() ==> d == NoTask && State() == old(State()).(forkLocked := false)
      ensures !old(isShuttingDown) && !old(State()).IsLocked() ==> Took(d, old(State())) && State() == old(State()).DequeueTask()
    {
      if isShuttingDown {
        return ShutDown;
      }
      forkLocked := false;
      d := DequeueFirst();
      if d.Task? {
        assert State().Refresh() == old(State()).DequeueTask();
        var signal := Refresh();
      }
    }

    method DequeueFirst() returns (d: Dequeued)
      requires Valid()
      modifies queues
      ensures Valid()
      ensures old(State()).IsLocked() ==> d == NoTask && State() == old(State())
      ensures !old(State()).IsLocked() ==> Took(d, old(State()))
      ensures !old(State()).IsLocked() ==>
        var k := FirstUnlocked(old(State()).queues);
        State() == old(State()).(queues := old(State()).queues[k := old(State()).queues[k].Dequeue()])
    {
      var k, t := TakeFirst(queues);
      if k == |queues| {
        return NoTask;
      }
      d := Task(k, t.entry);
    }

    /** The search for a free id: the offset of the one found, or maxpid; and the last id looked at, which is remembered. */
    method FindTid() returns (i: nat, tid: nat)
      requires Valid() && lasttid < maxpid
      modifies `lasttid
      ensures i == Search(old(Table()), maxpid, old(lasttid), 0)
      ensures tid == NthTid(old(lasttid), maxpid, if i < maxpid then i else maxpid - 1)
      ensures Valid() && State() == old(State()).(lasttid := tid)
    {
      i, tid := 0, 0;
      ghost var tids := Table();
      while i < maxpid
        invariant 0 <= i <= maxpid && Search(tids, maxpid, lasttid, 0) == Search(tids, maxpid, lasttid, i)
        invariant i > 0 ==> tid == NthTid(lasttid, maxpid, i - 1)
      {
        tid := NthTid(lasttid, maxpid, i);
        assert tids[tid].Free? <==> tidWorkflowInstance[tid] == 0;
        if tidWorkflowInstance[tid] == 0 {
          break;
        }
        i := i + 1;
      }
      lasttid := tid;
    }

    method SetTid(tid: nat, k: nat, e: Entry)
      requires Valid() && tid <= maxpid && e.instance != 0
      modifies tidQueueIndex, tidTask, tidWorkflowInstance
      ensures Valid() && State() == old(State()).(tids := old(State()).tids[tid := Held(k, e)])
    {
      tidQueueIndex[tid] := k;
      tidTask[tid] := e.task;
      tidWorkflowInstance[tid] := e.instance;
    }

    method ClearTid(tid: nat)
      requires Valid() && tid <= maxpid
      modifies tidQueueIndex, tidTask, tidWorkflowInstance
      ensures Valid() && State() == old(State()).(tids := old(State()).tids[tid := Free])
    {
      tidQueueIndex[tid] := 0;
      tidTask[tid] := 0;
      tidWorkflowInstance[tid] := 0;
    }

    /**
     * ExecuteTask. An unknown queue or a full table gives 0, and 0 as an id asks for a new one; the
     * program does not check an id that it is given against the size of the table.
     */
    method ExecuteTask(e: Entry, name: string, taskId: int) returns (tid: Registered, signal: bool)
      requires Valid() && State().Valid() && e.instance != 0
      modifies this, queues, tidQueueIndex, tidTask, tidWorkflowInstance
      ensures Valid() && (tid.OutOfTable? <==> name in names && !(0 <= taskId <= maxpid))
      ensures name !in names ==> State() == old(State()) && tid == Tid(0)
      ensures forall k :: 0 <= k < |names| && names[k] == name && 0 <= taskId <= maxpid ==>
        && tid.Tid? && (State(), tid.id) == old(State()).ExecuteAs(k, e, taskId)
        && (taskId != 0 || old(State()).HasFreeTid() ==> signal == State().Signals())
    {
      signal := false;
      var i := Lookup(names, name);
      if i == -1 {
        return Tid(0), false;
      }
      OnlyName(i, name);
      if !(0 <= taskId <= maxpid) {
        return OutOfTable, false;
      }
      if taskId != 0 {
        signal := Register(taskId, i, e);
        return Tid(taskId), signal;
      }
      var id;
      id, signal := Allocate(i, e);
      tid := Tid(id);
    }

    /** ExecuteTask when it has to find an id. */
    method Allocate(k: nat, e: Entry) returns (tid: nat, signal: bool)
      requires Valid() && State().Valid() && k < |queues| && e.instance != 0
      modifies this, queues, tidQueueIndex, tidTask, tidWorkflowInstance
      ensures Valid() && (State(), tid) == old(State()).ExecuteTask(k, e)
      ensures old(State()).HasFreeTid() ==> signal == State().Signals()
    {
      ExecuteFindsNearestFree(State(), k, e);
      var offset;
      offset, tid := FindTid();
      signal := false;
      if offset == maxpid {
        tid := 0;
        return;
      }
      signal := Register(tid, k, e);
    }

    method Register(tid: nat, k: nat, e: Entry) returns (signal: bool)
      requires Valid() && tid <= maxpid && k < |queues| && e.instance != 0
      modifies `forkPossible, queues, tidQueueIndex, tidTask, tidWorkflowInstance
      ensures Valid() && State() == old(State()).Register(tid, k, e) && signal == State().Signals()
    {
      SetTid(tid, k, e);
      RunIn(k, true);
      assert State().Refresh() == old(State()).Register(tid, k, e);
      signal := Refresh();
    }

    /** TerminateTask; an id outside the table would be looked up there all the same. */
    method TerminateTask(tid: int) returns (t: Terminated, signal: bool)
      requires Valid() && State().Valid()
      modifies `forkPossible, queues, tidQueueIndex, tidTask, tidWorkflowInstance
      ensures Valid() && (t.Outside? <==> !(0 <= tid <= maxpid))
      ensures t.NotFound? <==> 0 <= tid <= maxpid && old(State()).tids[tid].Free?
      ensures !t.Found? ==> State() == old(State()) && !signal
      ensures t.Found? ==> t.entry == old(State()).tids[tid].entry
      ensures t.Found? ==> State() == old(State()).TerminateTask(tid) && signal == State().Signals()
    {
      signal := false;
      if !(0 <= tid <= maxpid) {
        return Outside, false;
      }
      if tidWorkflowInstance[tid] == 0 {
        return NotFound, false;
      }
      var k := tidQueueIndex[tid];
      var e := Entry(tidWorkflowInstance[tid], tidTask[tid]);
      assert Table()[tid] == Held(k, e) && State().tids[tid] == Held(k, e);
      RunIn(k, false);
      ClearTid(tid);
      assert State().Refresh() == old(State()).TerminateTask(tid);
      signal := Refresh();
      t := Found(e);
    }

    /** CancelTasks; the queues stay whole exactly if none loses its tail. */
    method CancelTasks(instance: int) returns (signal: bool)
      requires Valid()
      modifies `forkPossible, queues, Cells(queues)
      ensures Valid() && State() == old(State()).CancelTasks(instance) && signal == State().Signals()
      ensures forall q :: q in queues ==> q.cells == old(q.cells)
      ensures old(Whole(queues)) ==>
        (Whole(queues) <==> forall k :: 0 <= k < |queues| ==> !old(State()).queues[k].LosesTail(instance))
    {
      CancelIn(instance);
      signal := Refresh();
    }

    method CancelIn(instance: int)
      requires Valid()
      modifies queues, Cells(queues)
      ensures Valid() && State() == old(State()).(queues := CancelAll(old(State()).queues, instance))
      ensures forall q :: q in queues ==> q.cells == old(q.cells)
      ensures old(Whole(queues)) ==>
        (Whole(queues) <==> forall k :: 0 <= k < |queues| ==> !old(State()).queues[k].LosesTail(instance))
    {
      Cancel(queues, instance);
    }

    method Shutdown() returns (signal: bool)
      requires Valid()
      modifies `isShuttingDown
      ensures Valid() && State() == old(State()).Shutdown() && signal == forkLocked
    {
      isShuttingDown := true;
      signal := forkLocked;
    }
  }
}
