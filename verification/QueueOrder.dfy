/** A queue over any sequence of its operations: first in, first out, but for what is cancelled. */
module QueueOrder {
  import opened Subsequences
  import opened QueueState

  datatype Operation = Put(e: Entry) | Take | CancelAll(instance: int) | Runs(running: int)

  /** A queue and its past: everything enqueued and everything dequeued, in order, and the instances cancelled. */
  datatype Past = Past(queue: Queue, put: seq<Entry>, taken: seq<Entry>, cancelled: set<int>)

  function Do(p: Past, op: Operation): Past {
    match op
    case Put(e) => p.(queue := p.queue.Enqueue(e), put := p.put + [e])
    case Take => if p.queue.IsLocked() then p else p.(queue := p.queue.Dequeue(), taken := p.taken + [p.queue.Head()])
    case CancelAll(instance) => p.(queue := p.queue.Cancel(instance), cancelled := p.cancelled + {instance})
    case Runs(running) => p.(queue := p.queue.(running := running))
  }

  function DoAll(ops: seq<Operation>, concurrency: int): Past {
    if ops == [] then Past(Queue([], [], 0, concurrency), [], [], {})
    else Do(DoAll(ops[..|ops| - 1], concurrency), ops[|ops| - 1])
  }

  /** The tasks of all other instances. */
  function Others(s: seq<Entry>, gone: set<int>): seq<Entry> {
    if s == [] then []
    else
      var last := s[|s| - 1];
      Others(s[..|s| - 1], gone) + if last.instance in gone then [] else [last]
  }

  lemma {:induction false} OthersJoin(a: seq<Entry>, b: seq<Entry>, gone: set<int>)
    ensures Others(a + b, gone) == Others(a, gone) + Others(b, gone)
    decreases |b|
  {
    if b == [] {
      assert a + b == a;
    } else {
      assert (a + b)[..|a + b| - 1] == a + b[..|b| - 1];
      OthersJoin(a, b[..|b| - 1], gone);
    }
  }

  lemma {:induction false} OthersSurvive(s: seq<Entry>, instance: int, gone: set<int>)
    requires instance in gone
    ensures Others(Survivors(s, instance), gone) == Others(s, gone)
  {
    if s != [] {
      var init, last := s[..|s| - 1], s[|s| - 1];
      OthersSurvive(init, instance, gone);
      if last.instance != instance {
        OthersJoin(Survivors(init, instance), [last], gone);
        OneOther(last, gone);
      } else {
        assert Survivors(init, instance) + [] == Survivors(init, instance);
      }
    }
  }

  lemma OneOther(e: Entry, gone: set<int>)
    ensures Others([e], gone) == if e.instance in gone then [] else [e]
  {
    assert [e][..0] == [];
  }

  /** The tasks of other instances are in order. */
  ghost predicate InOrder(p: Past, gone: set<int>) {
    Others(p.put, gone) == Others(p.taken, gone) + Others(p.queue.fifo, gone)
  }

  /** The stack holds only cancelled instances' tasks, and no task is lost or doubled. */
  ghost predicate Accounted(p: Past) {
    && (forall e :: e in p.queue.cancelled ==> e.instance in p.cancelled)
    && multiset(p.put) == multiset(p.taken) + Waiting(p.queue)
  }

  lemma PutInOrder(p: Past, e: Entry, gone: set<int>)
    requires InOrder(p, gone)
    ensures InOrder(Do(p, Put(e)), gone)
  {
    OthersJoin(p.put, [e], gone);
    OthersJoin(p.queue.fifo, [e], gone);
    Associative(Others(p.taken, gone), Others(p.queue.fifo, gone), Others([e], gone));
  }

  lemma Associative(a: seq<Entry>, b: seq<Entry>, c: seq<Entry>)
    ensures (a + b) + c == a + (b + c)
  {
  }

  lemma TakeInOrder(p: Past, gone: set<int>)
    requires InOrder(p, gone) && Accounted(p) && p.cancelled <= gone && !p.queue.IsLocked()
    ensures InOrder(Do(p, Take), gone)
  {
    var q := p.queue;
    if q.cancelled == [] {
      HeadMoves(p.taken, q.fifo, gone);
    } else {
      assert q.cancelled[0].instance in gone;
      OthersJoin(p.taken, [q.cancelled[0]], gone);
      OneOther(q.cancelled[0], gone);
      assert Others(p.taken, gone) + [] == Others(p.taken, gone);
    }
  }

  lemma HeadMoves(taken: seq<Entry>, fifo: seq<Entry>, gone: set<int>)
    requires fifo != []
    ensures Others(taken + [fifo[0]], gone) + Others(fifo[1..], gone) == Others(taken, gone) + Others(fifo, gone)
  {
    OthersJoin(taken, [fifo[0]], gone);
    OthersJoin([fifo[0]], fifo[1..], gone);
    assert [fifo[0]] + fifo[1..] == fifo;
  }

  lemma CancelInOrder(p: Past, instance: int, gone: set<int>)
    requires InOrder(p, gone) && instance in gone
    ensures InOrder(Do(p, CancelAll(instance)), gone)
  {
    OthersSurvive(p.queue.fifo, instance, gone);
  }

  lemma StepAccounts(p: Past, op: Operation)
    requires Accounted(p)
    ensures Accounted(Do(p, op))
  {
    match op
    case Take => if !p.queue.IsLocked() { DequeueRemoves(p.queue); }
    case CancelAll(instance) =>
      CancelKeeps(p.queue, instance);
      forall e | e in p.queue.Cancel(instance).cancelled ensures e.instance in p.cancelled + {instance} {
        StackedAre(p.queue.fifo, instance, p.queue.cancelled, e);
      }
    case _ =>
  }

  lemma {:induction false} AllInOrder(ops: seq<Operation>, concurrency: int, gone: set<int>)
    requires DoAll(ops, concurrency).cancelled <= gone
    ensures InOrder(DoAll(ops, concurrency), gone) && Accounted(DoAll(ops, concurrency))
  {
    if ops != [] {
      var p, op := DoAll(ops[..|ops| - 1], concurrency), ops[|ops| - 1];
      AllInOrder(ops[..|ops| - 1], concurrency, gone);
      StepAccounts(p, op);
      match op
      case Put(e) => PutInOrder(p, e, gone);
      case Take => if !p.queue.IsLocked() { TakeInOrder(p, gone); }
      case CancelAll(instance) => CancelInOrder(p, instance, gone);
      case Runs(_) =>
    }
  }

  /**
   * Whatever is done to a queue, every task enqueued is dequeued once or still waits; and the tasks
   * of instances never cancelled are dequeued in the order in which they were enqueued.
   */
  lemma FirstInFirstOut(ops: seq<Operation>, concurrency: int)
    ensures var p := DoAll(ops, concurrency);
      && multiset(p.put) == multiset(p.taken) + Waiting(p.queue)
      && Others(p.put, p.cancelled) == Others(p.taken, p.cancelled) + Others(p.queue.fifo, p.cancelled)
  {
    AllInOrder(ops, concurrency, DoAll(ops, concurrency).cancelled);
  }

  /** And a task comes from the list only when none is cancelled and fewer run than may. */
  lemma TakenWithinConcurrency(q: Queue)
    requires !q.IsLocked()
    ensures q.Dequeue().fifo != q.fifo <==> q.cancelled == []
    ensures q.cancelled == [] ==> q.running < q.concurrency && q.fifo == [q.Head()] + q.Dequeue().fifo
  {
    if q.cancelled == [] {
      assert |q.Dequeue().fifo| < |q.fifo|;
    }
  }

  function Reversed(s: seq<Entry>): seq<Entry> {
    if s == [] then [] else Reversed(s[1..]) + [s[0]]
  }

  /** Cancelled tasks are stacked on those that were there, the last queued on top. */
  lemma {:induction false} LastQueuedOnTop(s: seq<Entry>, instance: int, below: seq<Entry>)
    ensures Stacked(s, instance, below) == Stacked(s, instance, []) + below
    ensures IsSubsequence(Reversed(Stacked(s, instance, [])), s)
  {
    if s != [] {
      var init, last := s[..|s| - 1], s[|s| - 1];
      LastQueuedOnTop(init, instance, below);
      var moved := Stacked(init, instance, []);
      if last.instance == instance {
        assert Stacked(s, instance, []) == [last] + moved && ([last] + moved)[1..] == moved;
        assert (Reversed(moved) + [last])[..|Reversed(moved)|] == Reversed(moved);
      } else {
        assert [] + moved == moved && [] + Stacked(init, instance, below) == Stacked(init, instance, below);
      }
    }
  }
}
