/** The queue as it is: a linked list, a linked stack, and counters. */
module Queues {
  import Model = QueueState
  import opened QueueState

  class Task {
    const entry: Entry
    var next: Task?

    ghost var cancelled: bool // which list the node is on
    ghost var place: int      // and where, counted from that list's origin

    constructor (entry: Entry)
      ensures this.entry == entry && next == null && !cancelled
    {
      this.entry := entry;
      next := null;
      cancelled := false;
    }
  }

  ghost function Entries(nodes: seq<Task>): (es: seq<Entry>)
    ensures |es| == |nodes| && forall i :: 0 <= i < |nodes| ==> es[i] == nodes[i].entry
  {
    seq(|nodes|, i requires 0 <= i < |nodes| => nodes[i].entry)
  }

  ghost function Next(nodes: seq<Task>, i: nat, end: Task?): Task?
    requires i < |nodes|
  {
    if i + 1 < |nodes| then nodes[i + 1] else end
  }

  /** Following next from `first` visits these nodes and arrives at `end`. */
  ghost predicate Chain(first: Task?, nodes: seq<Task>, end: Task?)
    reads nodes
  {
    && first == (if nodes == [] then end else nodes[0])
    && forall i {:trigger nodes[i].next} :: 0 <= i < |nodes| ==> nodes[i].next == Next(nodes, i, end)
  }

  ghost predicate Within(nodes: seq<Task>, cells: set<Task>) {
    forall i :: 0 <= i < |nodes| ==> nodes[i] in cells
  }

  /** Each node knows its list and its place, so no node occurs twice. */
  ghost predicate Placed(nodes: seq<Task>, cancelled: bool, origin: int)
    reads nodes
  {
    forall i :: 0 <= i < |nodes| ==>
      nodes[i].cancelled == cancelled && nodes[i].place == if cancelled then origin - i else origin + i
  }

  lemma ChainTail(first: Task?, nodes: seq<Task>)
    requires nodes != [] && Chain(first, nodes, null)
    ensures Chain(nodes[0].next, nodes[1..], null)
    ensures Entries(nodes[1..]) == Entries(nodes)[1..]
  {
    assert forall i {:trigger nodes[1..][i].next} :: 0 <= i < |nodes[1..]| ==> nodes[1..][i].next == nodes[i + 1].next;
  }

  lemma ChainAppend(nodes: seq<Task>, n: Task, cancelled: bool, origin: int)
    requires nodes != [] && Chain(nodes[0], nodes, n) && n.next == null
    requires Placed(nodes, cancelled, origin) && n.cancelled == cancelled
    requires n.place == if cancelled then origin - |nodes| else origin + |nodes|
    ensures Chain(nodes[0], nodes + [n], null) && Placed(nodes + [n], cancelled, origin)
  {
  }

  lemma EntriesAppend(nodes: seq<Task>, n: Task)
    ensures Entries(nodes + [n]) == Entries(nodes) + [n.entry]
    ensures nodes == [] ==> Entries([n]) == [n.entry]
  {
  }

  lemma ChainPush(n: Task, nodes: seq<Task>, top: int)
    requires Chain(n.next, nodes, null) && Placed(nodes, true, top - 1) && n.cancelled && n.place == top
    ensures Chain(n, [n] + nodes, null) && Placed([n] + nodes, true, top)
  {
    var all := [n] + nodes;
    assert forall i :: 0 < i < |all| ==> all[i] == nodes[i - 1];
    assert forall i {:trigger Next(all, i, null)} :: 0 < i < |all| ==> Next(all, i, null) == Next(nodes, i - 1, null);
  }

  /** What cancelling an instance makes of some nodes: those kept, and those stacked on `below`. */
  ghost predicate Parted(nodes: seq<Task>, instance: int, kept: seq<Task>, stacked: seq<Task>, below: seq<Task>) {
    kept == Kept(nodes, instance) && stacked == Moved(nodes, instance, below)
  }

  ghost function Kept(nodes: seq<Task>, instance: int): (kept: seq<Task>)
    ensures forall n :: n in kept ==> n in nodes
  {
    if nodes == [] then []
    else
      var last := nodes[|nodes| - 1];
      Kept(nodes[..|nodes| - 1], instance) + if last.entry.instance == instance then [] else [last]
  }

  ghost function Moved(nodes: seq<Task>, instance: int, below: seq<Task>): (moved: seq<Task>)
  {
    if nodes == [] then below
    else
      var last := nodes[|nodes| - 1];
      (if last.entry.instance == instance then [last] else []) + Moved(nodes[..|nodes| - 1], instance, below)
  }

  lemma PartedStep(nodes: seq<Task>, done: nat, instance: int, kept: seq<Task>, stacked: seq<Task>, below: seq<Task>)
    requires done < |nodes| && Parted(nodes[..done], instance, kept, stacked, below)
    ensures nodes[done..] != [] && nodes[done..][0] == nodes[done] && nodes[done..][1..] == nodes[done + 1..]
    ensures if nodes[done].entry.instance == instance
            then Parted(nodes[..done + 1], instance, kept, [nodes[done]] + stacked, below)
            else Parted(nodes[..done + 1], instance, kept + [nodes[done]], stacked, below)
  {
    assert nodes[..done + 1][..done] == nodes[..done];
  }

  lemma {:induction false} PartedEntries(nodes: seq<Task>, instance: int, kept: seq<Task>, stacked: seq<Task>, below: seq<Task>)
    requires Parted(nodes, instance, kept, stacked, below)
    ensures Entries(kept) == Survivors(Entries(nodes), instance)
    ensures Entries(stacked) == Stacked(Entries(nodes), instance, Entries(below))
    ensures nodes != [] && nodes[|nodes| - 1].entry.instance == instance ==> stacked != [] && stacked[0] == nodes[|nodes| - 1]
    ensures forall n :: n in kept ==> n in nodes
    ensures forall n :: n in stacked ==> n in nodes || n in below
    ensures nodes != [] && nodes[|nodes| - 1].entry.instance != instance ==>
      kept != [] && kept[|kept| - 1] == nodes[|nodes| - 1]
    decreases |nodes|
  {
    if nodes != [] {
      var init, last := nodes[..|nodes| - 1], nodes[|nodes| - 1];
      PartedEntries(init, instance, Kept(init, instance), Moved(init, instance, below), below);
      assert Entries(nodes)[..|nodes| - 1] == Entries(init);
    }
  }

  ghost function PositionIn(nodes: seq<Task>, n: Task?): (k: nat)
    requires n in nodes
    ensures k < |nodes| && nodes[k] == n
  {
    var k :| 0 <= k < |nodes| && nodes[k] == n;
    k
  }

  /** A stack cut after one of its nodes and continued with a new one. */
  ghost predicate CutAfter(was: seq<Task>, tail: Task?, now: seq<Task>, n: Task) {
    exists k :: 0 <= k < |was| && was[k] == tail && now == was[..k + 1] + [n]
  }

  /** What DequeueTask finds: nothing, a task, or a null pointer to follow. */
  datatype Dequeued = Nothing | Taken(entry: Entry) | Crashed

  class Queue {
    var concurrency: int
    var size: int
    var runningTasks: int
    var firstTask: Task?
    var lastTask: Task?
    var cancelledTasks: Task?

    ghost var fifo: seq<Task>
    ghost var side: seq<Task>
    ghost var base: int
    ghost var top: int
    ghost var cells: set<Task> // every node that may be written
    ghost var gone: set<Task>  // those that have been dequeued, and so freed

    /** The two lists share no node and visit none twice. */
    ghost predicate Apart()
      reads `fifo, `side, `base, `top, `cells, cells
    {
      && Within(fifo, cells) && Within(side, cells)
      && Placed(fifo, false, base) && Placed(side, true, top)
    }

    ghost predicate Linked()
      reads `firstTask, `cancelledTasks, `fifo, `side, `base, `top, `cells, cells
    {
      Apart() && Chain(firstTask, fifo, null) && Chain(cancelledTasks, side, null)
    }

    /** While tasks are being cancelled: the kept part of the list, then the nodes not yet looked at. */
    ghost predicate Split(kept: seq<Task>, rest: seq<Task>, task: Task?, done: int)
      reads `firstTask, `cancelledTasks, `fifo, `side, `base, `top, `cells, cells
    {
      && Within(kept, cells) && Within(rest, cells) && Within(side, cells)
      && Chain(firstTask, kept, task) && Chain(task, rest, null) && Chain(cancelledTasks, side, null)
      && Placed(kept, false, base) && Placed(rest, false, base + done) && |kept| <= done
      && Placed(side, true, top)
    }

    /** last_task is the last node of the list, when there is one. */
    ghost predicate TailKept()
      reads `fifo, `lastTask
    {
      fifo != [] ==> lastTask == fifo[|fifo| - 1]
    }

    ghost predicate Valid()
      reads `firstTask, `lastTask, `size, `cancelledTasks, `fifo, `side, `base, `top, `cells, cells
    {
      Linked() && TailKept() && size == |fifo|
    }

    ghost function State(): Model.Queue
      reads `fifo, `side, `runningTasks, `concurrency
    {
      Model.Queue(Entries(fifo), Entries(side), runningTasks, concurrency)
    }

    constructor (concurrency: int)
      ensures Valid() && TailKnown() && State() == Model.Queue([], [], 0, concurrency) && cells == {}
    {
      this.concurrency := concurrency;
      size, runningTasks := 0, 0;
      firstTask, lastTask, cancelledTasks := null, null, null;
      fifo, side, cells, gone := [], [], {}, {};
    }

    /** As long as size is right, the fields decide what the contents say. */
    predicate IsLocked()
      requires Linked()
      reads this, cells
      ensures size == |fifo| ==> IsLocked() == State().IsLocked()
    {
      cancelledTasks == null && !(size > 0 && runningTasks < concurrency)
    }

    /** The list has been linked to a new node: it is now part of the list. */
    ghost method TakeIntoFifo(n: Task)
      requires fifo != [] && Chain(firstTask, fifo, n) && Chain(cancelledTasks, side, null) && n.next == null
      requires Apart() && n !in cells
      modifies `fifo, `cells, n`place, n`cancelled
      ensures Linked() && fifo == old(fifo) + [n] && cells == old(cells) + {n}
    {
      n.cancelled, n.place := false, base + |fifo|;
      ChainAppend(fifo, n, false, base);
      fifo, cells := fifo + [n], cells + {n};
    }

    /** The cancelled stack has been linked to a new node, which cuts the rest of it off. */
    ghost method TakeIntoSide(n: Task, k: nat)
      requires k < |side| && Chain(firstTask, fifo, null) && Chain(cancelledTasks, side[..k + 1], n) && n.next == null
      requires Apart() && n !in cells
      modifies `side, `cells, n`place, n`cancelled
      ensures Linked() && side == old(side)[..k + 1] + [n] && cells == old(cells) + {n}
    {
      var cut := side[..k + 1];
      n.cancelled, n.place := true, top - |cut|;
      ChainAppend(cut, n, true, top);
      side, cells := cut + [n], cells + {n};
    }

    /** Enqueueing into an empty list. */
    method LinkFirst(n: Task)
      requires Linked() && fifo == [] && n.next == null && n !in cells && !n.cancelled
      modifies `firstTask, `lastTask, `fifo, `cells, n`place
      ensures Linked() && TailKept() && fifo == [n] && lastTask == n && cells == old(cells) + {n}
    {
      lastTask := n;
      firstTask := n;
      n.place := base;
      fifo, cells := [n], cells + {n};
    }

    /**
     * No node on a list has been freed. And last_task is a node once allocated; if it is in the
     * list at all, it is its last node.
     */
    ghost predicate TailKnown()
      reads `fifo, `side, `lastTask, `cells, `gone
    {
      && gone <= cells && (forall n :: n in gone ==> n !in fifo && n !in side)
      && (fifo != [] ==> lastTask in cells && (lastTask in fifo ==> TailKept()))
    }

    /** last_task has been freed, while the list goes on. */
    ghost predicate TailFreed()
      reads `fifo, `lastTask, `gone
    {
      fifo != [] && lastTask in gone
    }

    /** last_task is on no list, but has not been freed: it was cut off or linked to a freed node. */
    ghost predicate TailLeaked()
      reads `fifo, `side, `lastTask, `gone
    {
      fifo != [] && lastTask !in fifo && lastTask !in side && lastTask !in gone
    }

    /** Enqueueing behind last_task, whichever list that is on, and even if it has been freed. */
    method LinkNext(n: Task) returns (ghost freed: bool)
      requires Linked() && fifo != [] && n.next == null && n !in cells && TailKnown()
      modifies `lastTask, `fifo, `side, `cells, cells, n
      ensures Linked() && lastTask == n && cells == old(cells) + {n} && (freed <==> old(TailFreed()))
      ensures old(TailKept()) ==> fifo == old(fifo) + [n] && side == old(side)
      ensures !old(TailKept()) ==> fifo == old(fifo)
      ensures !old(TailKept()) && old(lastTask in side) ==> CutAfter(old(side), old(lastTask), side, n)
      ensures !old(TailKept()) && old(lastTask !in side) ==> side == old(side) && TailLeaked()
      ensures TailKnown() && (TailKept() <==> old(TailKept()))
    {
      freed := TailFreed();
      ghost var kept, stacked := TailKept(), lastTask in side;
      ghost var k := if kept then PositionIn(fifo, lastTask) else if stacked then PositionIn(side, lastTask) else 0;
      lastTask.next := n;
      lastTask := n;
      if kept {
        TakeIntoFifo(n);
      } else if stacked {
        TakeIntoSide(n, k);
      } else {
        TakeNowhere(n);
      }
    }

    /** A node on neither list has been linked to a new node: neither list has that. */
    ghost method TakeNowhere(n: Task)
      requires Linked()
      modifies `cells
      ensures Linked() && cells == old(cells) + {n}
    {
      cells := cells + {n};
    }

    /** Enqueueing a new node. */
    method Link(n: Task) returns (ghost freed: bool)
      requires Linked() && TailKnown() && n.next == null && n !in cells && !n.cancelled
      modifies `firstTask, `lastTask, `fifo, `side, `cells, cells, n
      ensures Linked() && TailKnown() && cells == old(cells) + {n} && (freed <==> old(TailFreed()))
      ensures TailKept() <==> old(TailKept())
      ensures old(TailKept()) ==> fifo == old(fifo) + [n] && side == old(side)
      ensures !old(TailKept()) ==> fifo == old(fifo) && lastTask == n
      ensures !old(TailKept()) && old(lastTask in side) ==> CutAfter(old(side), old(lastTask), side, n)
      ensures !old(TailKept()) && old(lastTask !in side) ==> side == old(side) && TailLeaked()
    {
      freed := false;
      if firstTask == null {
        LinkFirst(n);
      } else {
        freed := LinkNext(n);
      }
    }

    /**
     * Appends a task. With a tail that is still in the list this is a FIFO append. With a tail
     * that was cancelled, the list does not get the task, though size counts it: the cancelled
     * stack is cut after the old tail and continued with the new task, and what was below the old
     * tail is on no list any more. With a tail on no list the task is on none either; and if that
     * tail has been dequeued, a freed node is written to.
     */
    method EnqueueTask(e: Entry) returns (ghost freed: bool)
      requires Linked() && TailKnown()
      modifies this, cells
      ensures concurrency == old(concurrency) && runningTasks == old(runningTasks) && size == old(size) + 1 && gone == old(gone)
      ensures Linked() && TailKnown() && fresh(cells - old(cells)) && (freed <==> old(TailFreed()))
      ensures old(TailKept()) ==> TailKept() && State() == old(State()).Enqueue(e)
      ensures !old(TailKept()) ==> !TailKept() && fifo == old(fifo)
      ensures !old(TailKept()) && old(lastTask in side) ==> side != [] && side[|side| - 1].entry == e && lastTask == side[|side| - 1] && CutAfter(old(side), old(lastTask), side, lastTask)
      ensures !old(TailKept()) && old(lastTask !in side) ==> side == old(side) && TailLeaked()
    {
      var newTask := new Task(e);
      EntriesAppend(fifo, newTask);
      freed := Link(newTask);
      size := size + 1;
    }

    /** The stack's head has moved to the second node. */
    ghost method PopSide()
      requires Apart() && Chain(firstTask, fifo, null) && side != [] && Chain(side[0], side, null)
      requires cancelledTasks == side[0].next
      modifies `side, `top
      ensures Linked() && side == old(side)[1..] && Entries(side) == old(Entries(side))[1..]
    {
      ChainTail(side[0], side);
      side, top := side[1..], top - 1;
    }

    /** The list's head has moved to the second node. */
    ghost method PopFifo()
      requires Apart() && Chain(cancelledTasks, side, null) && fifo != [] && Chain(fifo[0], fifo, null)
      requires firstTask == fifo[0].next
      modifies `fifo, `base
      ensures Linked() && fifo == old(fifo)[1..] && Entries(fifo) == old(Entries(fifo))[1..]
    {
      ChainTail(fifo[0], fifo);
      fifo, base := fifo[1..], base + 1;
    }

    /** The top of the cancelled stack. */
    method TakeCancelled() returns (e: Entry)
      requires Linked() && cancelledTasks != null
      modifies this
      ensures Linked() && side == old(side)[1..] && fifo == old(fifo) && size == old(size)
      ensures old(side) != [] && e == old(side)[0].entry && State() == old(State()).Dequeue() && gone == old(gone) + {old(side)[0]}
      ensures unchanged(`lastTask) && unchanged(`runningTasks) && unchanged(`concurrency) && unchanged(`cells)
    {
      var tmp := cancelledTasks;
      cancelledTasks := cancelledTasks.next;
      PopSide();
      gone := gone + {tmp};
      e := tmp.entry;
    }

    /** The head of the list. */
    method TakeFirst() returns (e: Entry)
      requires Linked() && firstTask != null && cancelledTasks == null && runningTasks < concurrency
      modifies this
      ensures Linked() && side == old(side) && fifo == old(fifo)[1..] && size == old(size) - 1
      ensures old(fifo) != [] && e == old(fifo)[0].entry && State() == old(State()).Dequeue() && gone == old(gone) + {old(fifo)[0]}
      ensures unchanged(`lastTask) && unchanged(`runningTasks) && unchanged(`concurrency) && unchanged(`cells)
    {
      var tmp := firstTask;
      firstTask := firstTask.next;
      PopFifo();
      size := size - 1;
      gone := gone + {tmp};
      e := tmp.entry;
    }

    /**
     * Takes a cancelled task if there is one, else the first task, unless the queue is locked. A
     * size that counts a task the list did not get unlocks an empty queue, and the program crashes.
     */
    method DequeueTask() returns (d: Dequeued)
      requires Linked() && TailKnown() && size >= |fifo|
      modifies this
      ensures Linked() && TailKnown() && cells == old(cells) && size - |fifo| == old(size) - old(|fifo|) && (old(TailKept()) ==> TailKept())
      ensures d.Crashed? <==> old(side == [] && fifo == [] && size > 0 && runningTasks < concurrency)
      ensures d.Nothing? <==> old(IsLocked())
      ensures d.Taken? ==> old(side != [] || fifo != [])
      ensures d.Taken? ==> d.entry == (if old(side) != [] then old(side)[0].entry else old(fifo)[0].entry)
      ensures d.Taken? ==> State() == old(State()).Dequeue()
      ensures d.Taken? && old(side) != [] ==> side == old(side)[1..] && fifo == old(fifo) && gone == old(gone) + {old(side)[0]}
      ensures d.Taken? && old(side) == [] ==> side == [] && fifo == old(fifo)[1..] && gone == old(gone) + {old(fifo)[0]}
      ensures !d.Taken? ==> State() == old(State()) && side == old(side) && fifo == old(fifo) && gone == old(gone)
      ensures lastTask == old(lastTask) && runningTasks == old(runningTasks) && concurrency == old(concurrency)
    {
      if IsLocked() {
        return Nothing;
      }
      var e;
      if cancelledTasks != null {
        e := TakeCancelled();
      } else if firstTask == null {
        return Crashed;
      } else {
        e := TakeFirst();
      }
      return Taken(e);
    }

    method ExecuteTask()
      modifies this`runningTasks
      ensures State() == old(State()).(running := old(runningTasks) + 1)
    {
      runningTasks := runningTasks + 1;
    }

    method TerminateTask()
      modifies this`runningTasks
      ensures State() == old(State()).(running := old(runningTasks) - 1)
    {
      runningTasks := runningTasks - 1;
    }

    /** A node pointing at the cancelled stack goes on top of it. */
    ghost method PushOnSide(task: Task)
      requires cancelledTasks == task && Chain(task.next, side, null) && Placed(side, true, top) && !task.cancelled
      modifies `side, `top, task`place, task`cancelled
      ensures Chain(cancelledTasks, side, null) && Placed(side, true, top)
      ensures side == [task] + old(side) && task.cancelled
    {
      assert task !in side;
      top := top + 1;
      task.cancelled, task.place := true, top;
      ChainPush(task, side, top);
      side := [task] + side;
    }

    /** Takes a node out of the list, behind prev. */
    method Unlink(prev: Task?, task: Task, ghost kept: seq<Task>, ghost rest: seq<Task>, ghost done: int)
      requires Split(kept, rest, task, done) && rest != []
      requires prev == if kept == [] then null else kept[|kept| - 1]
      modifies `firstTask, cells
      ensures Split(kept, rest[1..], task.next, done + 1) && task.next == old(task.next)
      ensures !task.cancelled && task.place == base + done && task in cells
    {
      ChainTail(task, rest);
      if prev == null {
        firstTask := task.next;
      } else {
        prev.next := task.next;
      }
    }

    /** Pushes a node that is on neither list on the cancelled stack. */
    method Push(task: Task, ghost kept: seq<Task>, ghost rest: seq<Task>, ghost next: Task?, ghost done: int)
      requires Split(kept, rest, next, done) && task in cells && !task.cancelled
      requires forall i :: 0 <= i < |kept| ==> kept[i] != task
      requires forall i :: 0 <= i < |rest| ==> rest[i] != task
      modifies `cancelledTasks, `side, `top, task
      ensures Split(kept, rest, next, done) && side == [task] + old(side)
    {
      assert forall i :: 0 <= i < |side| ==> side[i] != task;
      task.next := cancelledTasks;
      cancelledTasks := task;
      PushOnSide(task);
    }

    /** Unlinks a node from the list and pushes it on the cancelled stack. */
    method MoveToSide(prev: Task?, task: Task, ghost kept: seq<Task>, ghost rest: seq<Task>, ghost done: int)
      requires Split(kept, rest, task, done) && rest != []
      requires prev == if kept == [] then null else kept[|kept| - 1]
      modifies `firstTask, `cancelledTasks, `size, `side, `top, cells
      ensures Split(kept, rest[1..], old(task.next), done + 1) && side == [task] + old(side)
      ensures size == old(size) - 1
    {
      Unlink(prev, task, kept, rest, done);
      Push(task, kept, rest[1..], task.next, done + 1);
      size := size - 1;
    }

    /** Leaves a node in the list and moves past it. */
    ghost method Keep(task: Task, kept: seq<Task>, rest: seq<Task>, done: int)
      requires Split(kept, rest, task, done) && rest != []
      modifies task`place
      ensures Split(kept + [task], rest[1..], task.next, done + 1)
    {
      ChainTail(task, rest);
      task.place := base + |kept|;
    }

    /** One turn of the loop of CancelTasks. */
    method CancelStep(instance: int, prev: Task?, task: Task, ghost kept: seq<Task>, ghost rest: seq<Task>, ghost done: int)
      returns (prev': Task?, ghost kept': seq<Task>)
      requires Split(kept, rest, task, done) && rest != []
      requires prev == if kept == [] then null else kept[|kept| - 1]
      modifies `firstTask, `cancelledTasks, `size, `side, `top, cells
      ensures Split(kept', rest[1..], old(task.next), done + 1)
      ensures prev' == if kept' == [] then null else kept'[|kept'| - 1]
      ensures if task.entry.instance == instance
              then kept' == kept && side == [task] + old(side) && size == old(size) - 1
              else kept' == kept + [task] && side == old(side) && size == old(size)
    {
      if task.entry.instance == instance {
        MoveToSide(prev, task, kept, rest, done);
        prev', kept' := prev, kept;
      } else {
        Keep(task, kept, rest, done);
        prev', kept' := task, kept + [task];
      }
    }

    /** The loop of CancelTasks, after some of the nodes; size counts `excess` tasks more than there are. */
    ghost predicate Moving(nodes: seq<Task>, done: int, kept: seq<Task>, prev: Task?, task: Task?, excess: int)
      reads `firstTask, `cancelledTasks, `size, `fifo, `side, `base, `top, `cells, cells
    {
      && 0 <= done <= |nodes| && size == |kept| + |nodes| - done + excess
      && Split(kept, nodes[done..], task, done)
      && prev == (if kept == [] then null else kept[|kept| - 1])
    }

    method MoveTurn(instance: int, prev: Task?, task: Task, ghost nodes: seq<Task>, ghost done: nat, ghost kept: seq<Task>,
                    ghost below: seq<Task>, ghost excess: int)
      returns (prev': Task?, ghost kept': seq<Task>)
      requires Moving(nodes, done, kept, prev, task, excess) && Parted(nodes[..done], instance, kept, side, below)
      modifies `firstTask, `cancelledTasks, `size, `side, `top, cells
      ensures Moving(nodes, done + 1, kept', prev', old(task.next), excess)
      ensures Parted(nodes[..done + 1], instance, kept', side, below)
    {
      PartedStep(nodes, done, instance, kept, side, below);
      prev', kept' := CancelStep(instance, prev, task, kept, nodes[done..], done);
    }

    method MoveAll(instance: int) returns (prev: Task?)
      requires Linked()
      modifies `firstTask, `cancelledTasks, `size, `fifo, `side, `top, cells
      ensures Linked() && size - |fifo| == old(size) - old(|fifo|)
      ensures Parted(old(fifo), instance, fifo, side, old(side))
      ensures prev == if fifo == [] then null else fifo[|fifo| - 1]
    {
      ghost var nodes, kept: seq<Task>, done := fifo, [], 0;
      ghost var excess := size - |fifo|;
      prev := null;
      var task := firstTask;
      assert nodes[0..] == nodes;
      while task != null
        invariant Moving(nodes, done, kept, prev, task, excess)
        invariant Parted(nodes[..done], instance, kept, side, old(side))
        decreases |nodes| - done
      {
        var next := task.next;
        prev, kept := MoveTurn(instance, prev, task, nodes, done, kept, old(side), excess);
        done := done + 1;
        task := next;
      }
      assert nodes[..done] == nodes;
      fifo := kept;
    }

    /**
     * Moves an instance's tasks to the cancelled stack. last_task is left alone, so a list that
     * has its tail keeps it if and only if it is now empty or its last task survived.
     */
    method CancelTasks(instance: int)
      requires Linked() && TailKnown()
      modifies this, cells
      ensures Linked() && TailKnown() && size - |fifo| == old(size) - old(|fifo|) && State() == old(State()).Cancel(instance)
      ensures lastTask == old(lastTask) && cells == old(cells) && gone == old(gone)
      ensures old(TailKept()) ==> (TailKept() <==> fifo == [] || old(fifo[|fifo| - 1].entry.instance != instance))
      ensures old(TailKept()) && !TailKept() ==> side != [] && lastTask == side[0]
    {
      var prev := MoveAll(instance);
      PartedEntries(old(fifo), instance, fifo, side, old(side));
    }

    /** The top of the stack is not further down as well. */
    lemma TopIsOnce()
      requires Linked()
      ensures forall k :: 0 < k < |side| ==> side[k] != side[0]
    {
    }

    /** CancelTasks with the missing update of last_task. */
    method CancelTasksRepaired(instance: int)
      requires Linked() && TailKnown()
      modifies this, cells
      ensures Linked() && TailKnown() && TailKept() && size - |fifo| == old(size) - old(|fifo|)
      ensures State() == old(State()).Cancel(instance) && cells == old(cells)
    {
      var prev := MoveAll(instance);
      PartedEntries(old(fifo), instance, fifo, side, old(side));
      lastTask := prev;
    }
  }

  /**
   * Whenever a cancel takes the tail while other tasks stay, the next task enqueued is not in the
   * list: it is on the cancelled stack behind the old tail, so the queue is unlocked whatever its
   * concurrency, size counts a task too many, and every other cancelled task is lost.
   */
  method EnqueueBehindCancelledTail(q: Queue, instance: int, e: Entry)
    requires q.Valid() && q.TailKnown() && q.fifo != [] && q.fifo[|q.fifo| - 1].entry.instance == instance
    requires exists x :: x in q.State().fifo && x.instance != instance
    modifies q, q.cells
    ensures q.Linked() && q.TailKnown() && fresh(q.cells - old(q.cells))
    ensures q.concurrency == old(q.concurrency) && q.runningTasks == old(q.runningTasks)
    ensures q.State().fifo == Survivors(old(q.State()).fifo, instance) != []
    ensures q.State().cancelled == [old(q.fifo[|q.fifo| - 1].entry), e]
    ensures q.size == |q.State().fifo| + 1 && !q.IsLocked()
  {
    ghost var last := q.lastTask;
    ghost var x :| x in q.State().fifo && x.instance != instance;
    SurvivorsAre(q.State().fifo, instance, x);
    q.CancelTasks(instance);
    ghost var was := q.side;
    q.TopIsOnce();
    ghost var freed := q.EnqueueTask(e);
    CutEntries(was, last, q.side, q.side[|q.side| - 1]);
  }

  /** Two tasks, the later one cancelled, then a third: it is served beyond any concurrency, and size says 2 for a list of 1. */
  method ServedBeyondConcurrency(concurrency: int) returns (q: Queue)
    ensures fresh(q) && q.concurrency == concurrency && q.runningTasks == 0 && q.Linked()
    ensures q.State().cancelled == [Entry(2, 1), Entry(1, 2)] && q.size == 2 && !q.IsLocked()
  {
    q := new Queue(concurrency);
    ghost var freed := q.EnqueueTask(Entry(1, 1));
    freed := q.EnqueueTask(Entry(2, 1));
    assert q.State().fifo == [Entry(1, 1), Entry(2, 1)];
    SurvivorOfTwo();
    EnqueueBehindCancelledTail(q, 2, Entry(1, 2));
  }

  /** The same, with the cancelled task served before the third is enqueued: a freed node is written to. */
  method WritesToFreedTail(concurrency: int) returns (ghost freed: bool)
    ensures freed
  {
    var q := new Queue(concurrency);
    freed := q.EnqueueTask(Entry(1, 1));
    freed := q.EnqueueTask(Entry(2, 1));
    assert q.State().fifo == [Entry(1, 1), Entry(2, 1)] && q.State().cancelled == [];
    SurvivorOfTwo();
    q.CancelTasks(2);
    assert q.State().fifo == [Entry(1, 1)];
    var d := q.DequeueTask();
    assert q.fifo != [];
    freed := q.EnqueueTask(Entry(1, 2));
  }

  lemma SurvivorOfTwo()
    ensures Survivors([Entry(1, 1), Entry(2, 1)], 2) == [Entry(1, 1)]
  {
    var s := [Entry(1, 1), Entry(2, 1)];
    assert s[..1] == [Entry(1, 1)] && s[..1][..0] == [];
    assert Survivors(s[..1][..0], 2) == [];
    assert Survivors(s[..1], 2) == [Entry(1, 1)];
  }

  lemma CutEntries(was: seq<Task>, tail: Task?, now: seq<Task>, n: Task)
    requires CutAfter(was, tail, now, n) && was != [] && was[0] == tail && forall k :: 0 < k < |was| ==> was[k] != was[0]
    ensures Entries(now) == [was[0].entry, n.entry]
  {
    assert now == was[..1] + [n];
  }

  /** In the order in which they are served. */
  ghost function Contents(q: Queue): seq<Entry>
    reads q
  {
    q.State().cancelled + q.State().fifo
  }

  ghost predicate HasRoom(q: Queue, excess: int)
    reads q, q.cells
  {
    q.Linked() && q.TailKnown() && q.size - |q.fifo| == excess >= 0 && q.runningTasks < q.concurrency
  }

  method ServeOne(q: Queue, ghost excess: int) returns (d: Dequeued)
    requires HasRoom(q, excess)
    modifies q
    ensures HasRoom(q, excess) && q.cells == old(q.cells)
    ensures d.Taken? ==> old(Contents(q)) == [d.entry] + Contents(q)
    ensures !d.Taken? ==> Contents(q) == old(Contents(q)) == [] && d == if excess > 0 then Crashed else Nothing
  {
    ghost var s := q.State();
    d := q.DequeueTask();
    if d.Taken? {
      TakenIsFirst(s, q.State(), d.entry);
    }
  }

  lemma TakenIsFirst(s: Model.Queue, t: Model.Queue, e: Entry)
    requires !s.IsLocked() && t == s.Dequeue() && e == s.Head()
    ensures s.cancelled + s.fifo == [e] + (t.cancelled + t.fifo)
  {
  }

  /**
   * Serving a queue that has room for one more task: first the cancelled tasks, then the list, and
   * then a stop, which is a crash exactly if size counts more tasks than the list has.
   */
  method ServeAll(q: Queue, ghost excess: int) returns (served: seq<Entry>, d: Dequeued)
    requires HasRoom(q, excess)
    modifies q
    ensures served == old(Contents(q))
    ensures d == if excess > 0 then Crashed else Nothing
  {
    served := [];
    d := ServeOne(q, excess);
    while d.Taken?
      invariant HasRoom(q, excess)
      invariant served + (if d.Taken? then [d.entry] + Contents(q) else []) == old(Contents(q))
      invariant !d.Taken? ==> d == if excess > 0 then Crashed else Nothing
      decreases |Contents(q)|, d.Taken?
    {
      served := served + [d.entry];
      ghost var was := Contents(q);
      d := ServeOne(q, excess);
      assert d.Taken? ==> was == [d.entry] + Contents(q);
    }
    assert served + [] == served;
  }
}
