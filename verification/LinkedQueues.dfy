/** The queues of a pool: linked queues that share no node. */
module LinkedQueues {
  import opened QueueState
  import opened PoolState
  import Queues

  /** Well linked, and with the right size; its tail may have been cancelled. */
  ghost predicate Sound(q: Queues.Queue)
    reads q, q.cells
  {
    q.Linked() && q.TailKnown() && q.size == |q.fifo|
  }

  /** Every node of every queue. */
  ghost function Cells(queues: seq<Queues.Queue>): set<Queues.Task>
    reads queues
  {
    set q, t | q in queues && t in q.cells :: t
  }

  ghost predicate AllSound(queues: seq<Queues.Queue>)
    reads queues, Cells(queues)
  {
    forall q :: q in queues ==> Sound(q)
  }

  ghost predicate AllLinked(queues: seq<Queues.Queue>)
    reads queues, Cells(queues)
  {
    forall q :: q in queues ==> q.Linked() && q.TailKnown()
  }

  ghost predicate Disjoint(queues: seq<Queues.Queue>)
    reads queues
  {
    forall i, j :: 0 <= i < j < |queues| ==> queues[i] != queues[j] && queues[i].cells !! queues[j].cells
  }

  /** No queue has lost its tail. */
  ghost predicate Whole(queues: seq<Queues.Queue>)
    reads queues
  {
    forall q :: q in queues ==> q.TailKept()
  }

  ghost function States(queues: seq<Queues.Queue>): (r: seq<Queue>)
    reads queues
    ensures |r| == |queues| && forall i :: 0 <= i < |queues| ==> r[i] == queues[i].State()
  {
    seq(|queues|, i requires 0 <= i < |queues| reads queues => queues[i].State())
  }

  /** Some queues, from the first on, have cancelled an instance: what all hold, and which still have the tail they had. */
  ghost predicate Cancelled(queues: seq<Queues.Queue>, was: seq<Queue>, had: seq<bool>, done: nat, instance: int)
    reads queues
  {
    && |was| == |had| == |queues|
    && (forall k :: 0 <= k < |queues| ==> queues[k].State() == if k < done then was[k].Cancel(instance) else was[k])
    && (forall k :: 0 <= k < |queues| && had[k] ==>
      (queues[k].TailKept() <==> k < done ==> !was[k].LosesTail(instance)))
  }

  /** Enqueueing in one queue: as it should be if the tail is in its list; otherwise its size is wrong from then on. */
  method Append(queues: seq<Queues.Queue>, k: nat, e: Entry)
    requires k < |queues| && AllSound(queues) && Disjoint(queues)
    modifies queues[k], queues[k].cells
    ensures AllLinked(queues) && Disjoint(queues)
    ensures forall q :: q in queues ==> fresh(q.cells - old(q.cells)) && q.TailKept() == old(q.TailKept())
    ensures old(queues[k].TailKept()) ==> AllSound(queues)
    ensures old(queues[k].TailKept()) ==> States(queues) == old(States(queues))[k := old(States(queues))[k].Enqueue(e)]
    ensures !old(queues[k].TailKept()) ==> queues[k].size == |queues[k].fifo| + 1 && queues[k].fifo == old(queues[k].fifo)
  {
    var q := queues[k];
    assert q in queues && Sound(q);
    ghost var freed := q.EnqueueTask(e);
    forall j | 0 <= j < |queues| && j != k
      ensures Sound(queues[j])
      ensures queues[j].State() == old(queues[j].State())
      ensures queues[j].cells == old(queues[j].cells) && queues[j].TailKept() == old(queues[j].TailKept())
    {
      assert queues[j] in queues && old(Sound(queues[j]));
      assert queues[j] != q && queues[j].cells !! old(q.cells);
    }
  }

  /** Dequeueing from one queue. */
  method Take(queues: seq<Queues.Queue>, k: nat) returns (d: Queues.Dequeued)
    requires k < |queues| && AllSound(queues) && Disjoint(queues)
    modifies queues[k]
    ensures AllSound(queues)
    ensures Disjoint(queues)
    ensures d == if old(States(queues))[k].IsLocked() then Queues.Nothing else Queues.Taken(old(States(queues))[k].Head())
    ensures old(Whole(queues)) ==> Whole(queues)
    ensures States(queues) == if d.Nothing? then old(States(queues)) else old(States(queues))[k := old(States(queues))[k].Dequeue()]
  {
    var q := queues[k];
    assert q in queues && Sound(q);
    d := q.DequeueTask();
    assert Sound(q);
    forall j | 0 <= j < |queues| && j != k
      ensures Sound(queues[j])
      ensures queues[j].State() == old(queues[j].State())
      ensures queues[j].cells == old(queues[j].cells) && queues[j].TailKept() == old(queues[j].TailKept())
    {
      assert queues[j] in queues && old(Sound(queues[j]));
      assert queues[j] != q;
    }
  }

  /** One more, or one fewer, running task on one queue. */
  method Run(queues: seq<Queues.Queue>, k: nat, more: bool)
    requires k < |queues| && AllSound(queues) && Disjoint(queues)
    modifies queues[k]
    ensures AllSound(queues)
    ensures Disjoint(queues)
    ensures old(Whole(queues)) ==> Whole(queues)
    ensures var q := old(States(queues)[k]);
      States(queues) == old(States(queues))[k := q.(running := q.running + if more then 1 else -1)]
  {
    if more {
      queues[k].ExecuteTask();
    } else {
      queues[k].TerminateTask();
    }
    forall j | 0 <= j < |queues|
      ensures Sound(queues[j])
      ensures j != k ==> queues[j].State() == old(queues[j].State())
    {
      assert queues[j] in queues && old(Sound(queues[j]));
    }
  }

  /** Cancelling in one queue. */
  method CancelOne(queues: seq<Queues.Queue>, k: nat, instance: int, ghost was: seq<Queue>, ghost had: seq<bool>)
    requires k < |queues| && AllSound(queues) && Disjoint(queues) && Cancelled(queues, was, had, k, instance)
    modifies queues[k], queues[k].cells
    ensures AllSound(queues)
    ensures Disjoint(queues)
    ensures forall q :: q in queues ==> q.cells == old(q.cells)
    ensures Cancelled(queues, was, had, k + 1, instance)
  {
    var q := queues[k];
    assert q in queues && Sound(q);
    q.CancelTasks(instance);
    assert Sound(q);
    forall j | 0 <= j < |queues| && j != k
      ensures Sound(queues[j])
      ensures queues[j].State() == old(queues[j].State())
      ensures queues[j].cells == old(queues[j].cells) && queues[j].TailKept() == old(queues[j].TailKept())
    {
      assert queues[j] in queues && old(Sound(queues[j]));
      assert queues[j] != q && queues[j].cells !! old(q.cells);
    }
  }

  /** Dequeueing from the first queue that is not locked; its index, or the number of queues if all are. */
  method TakeFirst(queues: seq<Queues.Queue>) returns (k: nat, d: Queues.Dequeued)
    requires AllSound(queues) && Disjoint(queues)
    modifies queues
    ensures AllSound(queues) && Disjoint(queues)
    ensures old(Whole(queues)) ==> Whole(queues)
    ensures k <= |queues| && forall j :: 0 <= j < k ==> old(States(queues))[j].IsLocked()
    ensures k == |queues| ==> d == Queues.Nothing && States(queues) == old(States(queues))
    ensures k < |queues| ==> !old(States(queues))[k].IsLocked() && d == Queues.Taken(old(States(queues))[k].Head())
    ensures k < |queues| ==> States(queues) == old(States(queues))[k := old(States(queues))[k].Dequeue()]
  {
    ghost var was := States(queues);
    for i := 0 to |queues|
      invariant AllSound(queues) && Disjoint(queues) && (old(Whole(queues)) ==> Whole(queues))
      invariant States(queues) == was && forall j :: 0 <= j < i ==> was[j].IsLocked()
    {
      d := Take(queues, i);
      if d.Taken? {
        return i, d;
      }
      assert was[i].IsLocked();
    }
    return |queues|, Queues.Nothing;
  }

  /** Cancelling in every queue; the queues stay whole exactly if none loses its tail. */
  method Cancel(queues: seq<Queues.Queue>, instance: int)
    requires AllSound(queues) && Disjoint(queues)
    modifies queues, Cells(queues)
    ensures AllSound(queues) && Disjoint(queues) && forall q :: q in queues ==> q.cells == old(q.cells)
    ensures States(queues) == CancelAll(old(States(queues)), instance)
    ensures old(Whole(queues)) ==>
      (Whole(queues) <==> forall k :: 0 <= k < |queues| ==> !old(States(queues))[k].LosesTail(instance))
  {
    ghost var was, had := States(queues), seq(|queues|, i requires 0 <= i < |queues| reads queues => queues[i].TailKept());
    for i := 0 to |queues|
      invariant AllSound(queues) && Disjoint(queues) && Cancelled(queues, was, had, i, instance)
      invariant forall q :: q in queues ==> q.cells == old(q.cells)
    {
      CancelOne(queues, i, instance, was, had);
    }
  }

  /** Whether every queue is locked, judged by its fields. */
  method IsLocked(queues: seq<Queues.Queue>) returns (locked: bool)
    requires AllLinked(queues)
    ensures AllSound(queues) ==> (locked <==> forall k :: 0 <= k < |queues| ==> States(queues)[k].IsLocked())
  {
    for i := 0 to |queues|
      invariant AllSound(queues) ==> forall k :: 0 <= k < i ==> States(queues)[k].IsLocked()
    {
      assert queues[i] in queues;
      if !queues[i].IsLocked() {
        assert Sound(queues[i]) ==> !States(queues)[i].IsLocked();
        return false;
      }
    }
    return true;
  }
}
