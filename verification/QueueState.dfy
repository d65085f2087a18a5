/** What a queue holds: a FIFO of waiting tasks and a stack of cancelled ones. */
module QueueState {
  import opened Subsequences

  /** A queued task: the workflow instance it belongs to, by id, and the task within it. */
  datatype Entry = Entry(instance: int, task: int)

  datatype Queue = Queue(fifo: seq<Entry>, cancelled: seq<Entry>, running: int, concurrency: int) {

    /** Cancelled tasks are always available; others only below the concurrency limit. */
    predicate IsLocked() {
      cancelled == [] && (fifo == [] || running >= concurrency)
    }

    function Enqueue(e: Entry): Queue {
      this.(fifo := fifo + [e])
    }

    function Head(): Entry
      requires !IsLocked()
    {
      if cancelled != [] then cancelled[0] else fifo[0]
    }

    function Dequeue(): Queue
      requires !IsLocked()
    {
      if cancelled != [] then this.(cancelled := cancelled[1..]) else this.(fifo := fifo[1..])
    }

    /** Every task of an instance moves to the stack, the last queued ending on top. */
    function Cancel(instance: int): Queue {
      this.(fifo := Survivors(fifo, instance), cancelled := Stacked(fifo, instance, cancelled))
    }

    /** Whether cancelling moves the last task away from a list that goes on without it. */
    predicate LosesTail(instance: int) {
      fifo != [] && fifo[|fifo| - 1].instance == instance && Survivors(fifo, instance) != []
    }
  }

  function Survivors(s: seq<Entry>, instance: int): seq<Entry> {
    if s == [] then []
    else
      var last := s[|s| - 1];
      Survivors(s[..|s| - 1], instance) + if last.instance == instance then [] else [last]
  }

  function Stacked(s: seq<Entry>, instance: int, below: seq<Entry>): seq<Entry> {
    if s == [] then below
    else
      var last := s[|s| - 1];
      (if last.instance == instance then [last] else []) + Stacked(s[..|s| - 1], instance, below)
  }

  /** Cancelling keeps the other instances' tasks, in order. */
  lemma {:induction false} SurvivorsKeepOrder(s: seq<Entry>, instance: int)
    ensures IsSubsequence(Survivors(s, instance), s)
  {
    if s != [] {
      var init, last := s[..|s| - 1], s[|s| - 1];
      SurvivorsKeepOrder(init, instance);
      var a := Survivors(s, instance);
      if last.instance != instance {
        assert a == Survivors(init, instance) + [last];
        assert a[..|a| - 1] == Survivors(init, instance);
      } else {
        assert a == Survivors(init, instance);
      }
    }
  }

  lemma {:induction false} SurvivorsAre(s: seq<Entry>, instance: int, e: Entry)
    ensures e in Survivors(s, instance) <==> e in s && e.instance != instance
  {
    if s != [] {
      var init, last := s[..|s| - 1], s[|s| - 1];
      SurvivorsAre(init, instance, e);
      assert s == init + [last];
    }
  }

  lemma {:induction false} StackedAre(s: seq<Entry>, instance: int, below: seq<Entry>, e: Entry)
    ensures e in Stacked(s, instance, below) <==> (e in s && e.instance == instance) || e in below
  {
    if s != [] {
      var init, last := s[..|s| - 1], s[|s| - 1];
      StackedAre(init, instance, below, e);
      assert s == init + [last];
    }
  }

  /** Cancelling loses nothing and duplicates nothing. */
  lemma {:induction false} CancelMovesEntries(s: seq<Entry>, instance: int, below: seq<Entry>)
    ensures multiset(Survivors(s, instance)) + multiset(Stacked(s, instance, below)) == multiset(s) + multiset(below)
  {
    if s != [] {
      var init, last := s[..|s| - 1], s[|s| - 1];
      CancelMovesEntries(init, instance, below);
      var kept, moved := Survivors(init, instance), Stacked(init, instance, below);
      OneMore(multiset(kept), multiset(moved), multiset(init), multiset(below), last);
      LastEntry(s, instance, below);
    }
  }

  /** Where the last task of a list goes. */
  lemma LastEntry(s: seq<Entry>, instance: int, below: seq<Entry>)
    requires s != []
    ensures multiset(s) == multiset(s[..|s| - 1]) + multiset{s[|s| - 1]}
    ensures multiset(Survivors(s, instance)) == multiset(Survivors(s[..|s| - 1], instance))
      + if s[|s| - 1].instance == instance then multiset{} else multiset{s[|s| - 1]}
    ensures multiset(Stacked(s, instance, below)) == multiset(Stacked(s[..|s| - 1], instance, below))
      + if s[|s| - 1].instance == instance then multiset{s[|s| - 1]} else multiset{}
  {
    var init, last := s[..|s| - 1], s[|s| - 1];
    assert s == init + [last];
    assert Survivors(init, instance) + [] == Survivors(init, instance);
    assert [] + Stacked(init, instance, below) == Stacked(init, instance, below);
  }

  lemma OneMore(a: multiset<Entry>, b: multiset<Entry>, c: multiset<Entry>, d: multiset<Entry>, x: Entry)
    requires a + b == c + d
    ensures a + (multiset{x} + b) == (c + multiset{x}) + d
    ensures (a + multiset{x}) + b == (c + multiset{x}) + d
  {
    assert a + (multiset{x} + b) == (a + b) + multiset{x};
    assert (a + multiset{x}) + b == (a + b) + multiset{x};
    assert (c + multiset{x}) + d == (c + d) + multiset{x};
  }

  /** The multiset of everything waiting in a queue. */
  function Waiting(q: Queue): multiset<Entry> {
    multiset(q.fifo) + multiset(q.cancelled)
  }

  lemma EnqueueAdds(q: Queue, e: Entry)
    ensures Waiting(q.Enqueue(e)) == Waiting(q) + multiset{e}
  {
  }

  lemma HeadAndTail(s: seq<Entry>)
    requires s != []
    ensures multiset(s) == multiset{s[0]} + multiset(s[1..])
  {
    assert s == [s[0]] + s[1..];
  }

  lemma DequeueRemoves(q: Queue)
    requires !q.IsLocked()
    ensures q.Head() in Waiting(q) && Waiting(q.Dequeue()) == Waiting(q) - multiset{q.Head()}
  {
    if q.cancelled != [] { HeadAndTail(q.cancelled); } else { HeadAndTail(q.fifo); }
  }

  lemma CancelKeeps(q: Queue, instance: int)
    ensures Waiting(q.Cancel(instance)) == Waiting(q)
  {
    CancelMovesEntries(q.fifo, instance, q.cancelled);
  }

  /** Enqueueing, releasing and cancelling never lock an unlocked queue. */
  lemma StaysUnlocked(q: Queue, e: Entry, instance: int, running: int)
    requires !q.IsLocked() && running <= q.running
    ensures !q.Enqueue(e).IsLocked() && !q.(running := running).IsLocked() && !q.Cancel(instance).IsLocked()
  {
    var first := if q.cancelled != [] then q.cancelled[0] else q.fifo[0];
    SurvivorsAre(q.fifo, instance, first);
    StackedAre(q.fifo, instance, q.cancelled, first);
  }
}
