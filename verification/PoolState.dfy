/** The queue pool as a value: its queues, its table of task ids, and the flag the forker waits on. */
module PoolState {
  import opened QueueState

  /** What a task id is registered for: a queue, by index, and a task. */
  datatype Slot = Free | Held(queue: nat, entry: Entry)

  datatype Pool = Pool(
    queues: seq<Queue>,
    tids: seq<Slot>,
    lasttid: nat,
    forkPossible: bool,
    forkLocked: bool,
    shuttingDown: bool)
  {
    /** Ids 0 to maxpid - 1 are handed out; the table has one more. */
    function MaxPid(): int {
      |tids| - 1
    }

    predicate IsLocked() {
      forall k :: 0 <= k < |queues| ==> queues[k].IsLocked()
    }

    function Refresh(): Pool {
      this.(forkPossible := !IsLocked())
    }

    /** Whether an operation that leaves this pool behind signals the forker. */
    predicate Signals() {
      forkLocked && forkPossible
    }

    function EnqueueTask(k: nat, e: Entry): Pool
      requires k < |queues|
    {
      this.(queues := queues[k := queues[k].Enqueue(e)]).Refresh()
    }

    /** DequeueTask once it is certain not to wait: the first queue that is not locked gives a task. */
    function DequeueTask(): Pool
      requires !IsLocked()
    {
      var k := FirstUnlocked(queues);
      this.(forkLocked := false, queues := queues[k := queues[k].Dequeue()]).Refresh()
    }

    /** Whether an id can be handed out. */
    predicate HasFreeTid() {
      exists t :: 0 <= t < MaxPid() && tids[t].Free?
    }

    /** ExecuteTask with no id given: the new pool and the id, or 0. */
    function ExecuteTask(k: nat, e: Entry): (Pool, nat)
      requires k < |queues| && lasttid < MaxPid()
    {
      var i := Search(tids, MaxPid(), lasttid, 0);
      if i == MaxPid() then (this.(lasttid := NthTid(lasttid, MaxPid(), i - 1)), 0)
      else
        var tid := NthTid(lasttid, MaxPid(), i);
        (this.(lasttid := tid).Register(tid, k, e), tid)
    }

    /** ExecuteTask from there on; an id given by the caller is taken as it is. */
    function Register(tid: nat, k: nat, e: Entry): Pool
      requires k < |queues| && tid < |tids|
    {
      this.(tids := tids[tid := Held(k, e)], queues := queues[k := queues[k].(running := queues[k].running + 1)]).Refresh()
    }

    /** ExecuteTask with the id the caller gives; 0 asks for a new one. */
    function ExecuteAs(k: nat, e: Entry, tid: nat): (Pool, nat)
      requires k < |queues| && tid < |tids| && lasttid < MaxPid()
    {
      if tid == 0 then ExecuteTask(k, e) else (Register(tid, k, e), tid)
    }

    function TerminateTask(tid: nat): Pool
      requires tid < |tids| && tids[tid].Held? && tids[tid].queue < |queues|
    {
      var k := tids[tid].queue;
      this.(tids := tids[tid := Free], queues := queues[k := queues[k].(running := queues[k].running - 1)]).Refresh()
    }

    function CancelTasks(instance: int): Pool {
      this.(queues := CancelAll(queues, instance)).Refresh()
    }

    function Shutdown(): Pool {
      this.(shuttingDown := true)
    }

    /** What holds whenever the mutex is free. */
    ghost predicate Valid() {
      && MaxPid() > 0 && lasttid < MaxPid()
      && (forkPossible <==> !IsLocked())
      && (forall t :: 0 <= t < |tids| && tids[t].Held? ==> tids[t].queue < |queues|)
      && (forall k :: 0 <= k < |queues| ==> queues[k].running == |LiveOn(tids, k)|)
    }
  }

  /** The ids registered for a queue. */
  function LiveOn(tids: seq<Slot>, k: nat): set<int> {
    set t | 0 <= t < |tids| && tids[t].Held? && tids[t].queue == k
  }

  function FirstUnlocked(queues: seq<Queue>): (k: nat)
    requires exists k :: 0 <= k < |queues| && !queues[k].IsLocked()
    ensures k < |queues| && !queues[k].IsLocked()
    ensures forall j :: 0 <= j < k ==> queues[j].IsLocked()
  {
    if !queues[0].IsLocked() then 0
    else
      assert exists k :: 0 <= k < |queues[1..]| && !queues[1..][k].IsLocked() by {
        var k :| 0 <= k < |queues| && !queues[k].IsLocked();
        assert queues[1..][k - 1] == queues[k];
      }
      1 + FirstUnlocked(queues[1..])
  }

  function CancelAll(queues: seq<Queue>, instance: int): (r: seq<Queue>)
    ensures |r| == |queues| && forall k :: 0 <= k < |queues| ==> r[k] == queues[k].Cancel(instance)
  {
    seq(|queues|, k requires 0 <= k < |queues| => queues[k].Cancel(instance))
  }

  /** The id looked at after i others. */
  function NthTid(lasttid: nat, maxpid: nat, i: nat): (tid: nat)
    requires lasttid < maxpid && i < maxpid
    ensures tid < maxpid && tid == if lasttid + 1 + i < maxpid then lasttid + 1 + i else lasttid + 1 + i - maxpid
  {
    Wraps(lasttid + 1 + i, maxpid);
    (lasttid + 1 + i) % maxpid
  }

  lemma Wraps(a: nat, m: nat)
    requires a < 2 * m
    ensures a % m == if a < m then a else a - m
  {
    if a >= m {
      assert a == m * 1 + (a - m);
    }
  }

  /** The first offset from i on that leads to a free id, or the number of ids. */
  function Search(tids: seq<Slot>, maxpid: nat, lasttid: nat, i: nat): (r: nat)
    requires lasttid < maxpid == |tids| - 1 && i <= maxpid
    ensures i <= r <= maxpid
    ensures r < maxpid ==> tids[NthTid(lasttid, maxpid, r)].Free?
    ensures forall j :: i <= j < r ==> tids[NthTid(lasttid, maxpid, j)].Held?
    decreases maxpid - i
  {
    if i == maxpid || tids[NthTid(lasttid, maxpid, i)].Free? then i else Search(tids, maxpid, lasttid, i + 1)
  }

  /** Cyclic distance from lasttid: the ids after it come first, then the others from 0. */
  function Distance(lasttid: nat, maxpid: nat, t: nat): (i: nat)
    requires lasttid < maxpid && t < maxpid
    ensures i < maxpid && NthTid(lasttid, maxpid, i) == t
    ensures forall j :: 0 <= j < maxpid && NthTid(lasttid, maxpid, j) == t ==> j == i
  {
    if t > lasttid then t - lasttid - 1 else t + maxpid - lasttid - 1
  }

  /**
   * An id is found if and only if one is free, and it is the free one nearest after lasttid.
   * The answer 0 does not tell the two outcomes apart; the registration does.
   */
  lemma ExecuteFindsNearestFree(p: Pool, k: nat, e: Entry)
    requires p.Valid() && k < |p.queues|
    ensures var (q, tid) := p.ExecuteTask(k, e);
      if p.HasFreeTid() then
        && tid < p.MaxPid() && p.tids[tid].Free? && q == p.(lasttid := tid).Register(tid, k, e)
        && forall t :: 0 <= t < p.MaxPid() && p.tids[t].Free? ==>
          Distance(p.lasttid, p.MaxPid(), tid) <= Distance(p.lasttid, p.MaxPid(), t)
      else tid == 0 && q == p
  {
    var n := p.MaxPid();
    var i := Search(p.tids, n, p.lasttid, 0);
    forall t | 0 <= t < n && p.tids[t].Free? ensures i <= Distance(p.lasttid, n, t) {
      assert p.tids[NthTid(p.lasttid, n, Distance(p.lasttid, n, t))].Free?;
    }
    if i < n {
      assert Distance(p.lasttid, n, NthTid(p.lasttid, n, i)) == i;
    }
  }

  lemma LiveAfter(tids: seq<Slot>, tid: nat, s: Slot, k: nat)
    requires tid < |tids|
    ensures LiveOn(tids[tid := s], k) == if s.Held? && s.queue == k then LiveOn(tids, k) + {tid} else LiveOn(tids, k) - {tid}
    ensures tid in LiveOn(tids, k) <==> tids[tid].Held? && tids[tid].queue == k
  {
    var after := LiveOn(tids[tid := s], k);
    if s.Held? && s.queue == k {
      assert after == LiveOn(tids, k) + {tid};
    } else {
      assert after == LiveOn(tids, k) - {tid};
    }
  }

  /** Registering keeps the counters right exactly when the id was free. */
  lemma RegisterIsValid(p: Pool, tid: nat, k: nat, e: Entry)
    requires p.Valid() && k < |p.queues| && tid < |p.tids|
    ensures p.Register(tid, k, e).Valid() <==> p.tids[tid].Free?
  {
    if p.tids[tid].Free? {
      RegisterFree(p, tid, k, e);
    } else {
      RegisterHeld(p, tid, k, e);
    }
  }

  lemma RegisterFree(p: Pool, tid: nat, k: nat, e: Entry)
    requires p.Valid() && k < |p.queues| && tid < |p.tids| && p.tids[tid].Free?
    ensures p.Register(tid, k, e).Valid()
  {
    var q := p.Register(tid, k, e);
    forall j | 0 <= j < |p.queues|
      ensures LiveOn(q.tids, j) == if j == k then LiveOn(p.tids, j) + {tid} else LiveOn(p.tids, j)
    {
      LiveAfter(p.tids, tid, Held(k, e), j);
      assert tid !in LiveOn(p.tids, j);
    }
  }

  lemma RegisterHeld(p: Pool, tid: nat, k: nat, e: Entry)
    requires p.Valid() && k < |p.queues| && tid < |p.tids| && p.tids[tid].Held?
    ensures !p.Register(tid, k, e).Valid()
  {
    var q, was := p.Register(tid, k, e), p.tids[tid].queue;
    LiveAfter(p.tids, tid, Held(k, e), was);
    assert |LiveOn(q.tids, was)| == |LiveOn(p.tids, was)| - if was == k then 0 else 1 by {
      if was == k { assert LiveOn(q.tids, was) == LiveOn(p.tids, was); }
    }
    assert q.queues[was].running == |LiveOn(p.tids, was)| + if was == k then 1 else 0;
  }

  /**
   * The answer is 0 exactly when no id is free, or when 0 is and every id after the last one given
   * is taken: then 0 is handed out like any other.
   */
  lemma ZeroIsAnsweredIff(p: Pool, k: nat, e: Entry)
    requires p.Valid() && k < |p.queues|
    ensures p.ExecuteTask(k, e).1 == 0
      <==> !p.HasFreeTid() || (p.tids[0].Free? && forall t :: p.lasttid < t < p.MaxPid() ==> p.tids[t].Held?)
  {
    ExecuteFindsNearestFree(p, k, e);
    var n, tid := p.MaxPid(), p.ExecuteTask(k, e).1;
    if p.HasFreeTid() && tid == 0 {
      forall t | p.lasttid < t < n ensures p.tids[t].Held? {
        assert Distance(p.lasttid, n, t) < Distance(p.lasttid, n, 0);
      }
    } else if p.HasFreeTid() && p.tids[0].Free? {
      assert Distance(p.lasttid, n, tid) <= Distance(p.lasttid, n, 0);
      assert p.lasttid < tid < n && p.tids[tid].Free?;
    }
  }

  /**
   * A task handed back is registered under its saved id exactly when that id is not 0, or when
   * every id after the last one given is taken. Id 0 otherwise becomes another id.
   */
  lemma RegisteredAsSavedIff(p: Pool, k: nat, e: Entry, tid: nat)
    requires p.Valid() && k < |p.queues| && tid < |p.tids| && p.tids[tid].Free?
    ensures p.ExecuteAs(k, e, tid).0.Valid()
    ensures p.ExecuteAs(k, e, tid).0.tids == p.tids[tid := Held(k, e)]
      <==> tid != 0 || forall t :: p.lasttid < t < p.MaxPid() ==> p.tids[t].Held?
  {
    if tid == 0 {
      assert p.HasFreeTid();
      ExecuteFindsNearestFree(p, k, e);
      ZeroIsAnsweredIff(p, k, e);
      var (q, given) := p.ExecuteTask(k, e);
      RegisterIsValid(p.(lasttid := given), given, k, e);
      assert q.tids[given] == Held(k, e);
    } else {
      RegisterIsValid(p, tid, k, e);
    }
  }

  lemma TerminateIsValid(p: Pool, tid: nat)
    requires p.Valid() && tid < |p.tids| && p.tids[tid].Held?
    ensures p.TerminateTask(tid).Valid()
  {
    var q := p.TerminateTask(tid);
    forall j | 0 <= j < |p.queues| ensures LiveOn(q.tids, j) == LiveOn(p.tids, j) - {tid} {
      LiveAfter(p.tids, tid, Free, j);
    }
    assert tid in LiveOn(p.tids, p.tids[tid].queue);
  }

  lemma EnqueueIsValid(p: Pool, k: nat, e: Entry)
    requires p.Valid() && k < |p.queues|
    ensures p.EnqueueTask(k, e).Valid()
  {
  }

  lemma DequeueIsValid(p: Pool)
    requires p.Valid() && !p.IsLocked()
    ensures p.DequeueTask().Valid()
  {
  }

  lemma CancelIsValid(p: Pool, instance: int)
    requires p.Valid()
    ensures p.CancelTasks(instance).Valid()
  {
  }

  /** Enqueueing, releasing and cancelling never lock a pool that is not locked. */
  lemma PoolStaysUnlocked(p: Pool, k: nat, e: Entry, tid: nat, instance: int)
    requires p.Valid() && !p.IsLocked()
    ensures k < |p.queues| ==> !p.EnqueueTask(k, e).IsLocked()
    ensures tid < |p.tids| && p.tids[tid].Held? ==> !p.TerminateTask(tid).IsLocked()
    ensures !p.CancelTasks(instance).IsLocked()
  {
    var j :| 0 <= j < |p.queues| && !p.queues[j].IsLocked();
    StaysUnlocked(p.queues[j], e, instance, p.queues[j].running - 1);
    if k < |p.queues| {
      assert !p.EnqueueTask(k, e).queues[j].IsLocked();
    }
    if tid < |p.tids| && p.tids[tid].Held? {
      assert !p.TerminateTask(tid).queues[j].IsLocked();
    }
    assert !p.CancelTasks(instance).queues[j].IsLocked();
  }

  /** How often a task waits in the queues. */
  function CountWaiting(queues: seq<Queue>, e: Entry): nat {
    if queues == [] then 0 else CountWaiting(queues[..|queues| - 1], e) + Waiting(queues[|queues| - 1])[e]
  }

  lemma {:induction false} CountWaitingUpdate(queues: seq<Queue>, k: nat, q: Queue, e: Entry)
    requires k < |queues|
    ensures CountWaiting(queues[k := q], e) == CountWaiting(queues, e) - Waiting(queues[k])[e] + Waiting(q)[e]
    ensures Waiting(queues[k])[e] <= CountWaiting(queues, e)
  {
    var n := |queues| - 1;
    if k < n {
      CountWaitingUpdate(queues[..n], k, q, e);
      assert queues[k := q][..n] == queues[..n][k := q];
    } else {
      assert queues[k := q][..n] == queues[..n];
    }
  }

  lemma {:induction false} CountWaitingSame(queues: seq<Queue>, others: seq<Queue>, e: Entry)
    requires |queues| == |others| && forall k :: 0 <= k < |queues| ==> Waiting(queues[k]) == Waiting(others[k])
    ensures CountWaiting(queues, e) == CountWaiting(others, e)
  {
    if queues != [] {
      CountWaitingSame(queues[..|queues| - 1], others[..|others| - 1], e);
    }
  }

  /** How often a task is registered. */
  function CountHeld(tids: seq<Slot>, e: Entry): nat {
    if tids == [] then 0
    else CountHeld(tids[..|tids| - 1], e) + Holds(tids[|tids| - 1], e)
  }

  function Holds(s: Slot, e: Entry): nat {
    if s.Held? && s.entry == e then 1 else 0
  }

  lemma {:induction false} CountHeldUpdate(tids: seq<Slot>, tid: nat, s: Slot, e: Entry)
    requires tid < |tids|
    ensures CountHeld(tids[tid := s], e) == CountHeld(tids, e) - Holds(tids[tid], e) + Holds(s, e)
    ensures Holds(tids[tid], e) <= CountHeld(tids, e)
  {
    var n := |tids| - 1;
    if tid < n {
      CountHeldUpdate(tids[..n], tid, s, e);
      assert tids[tid := s][..n] == tids[..n][tid := s];
    } else {
      assert tids[tid := s][..n] == tids[..n];
    }
  }

  /** What each operation does to the waiting tasks. */
  lemma EnqueueWaits(p: Pool, k: nat, e: Entry, f: Entry)
    requires k < |p.queues|
    ensures CountWaiting(p.EnqueueTask(k, e).queues, f) == CountWaiting(p.queues, f) + if e == f then 1 else 0
  {
    CountWaitingUpdate(p.queues, k, p.queues[k].Enqueue(e), f);
    EnqueueAdds(p.queues[k], e);
  }

  lemma DequeueTakes(p: Pool, f: Entry)
    requires !p.IsLocked()
    ensures var e := p.queues[FirstUnlocked(p.queues)].Head();
      CountWaiting(p.DequeueTask().queues, f) == CountWaiting(p.queues, f) - if e == f then 1 else 0
  {
    var k := FirstUnlocked(p.queues);
    CountWaitingUpdate(p.queues, k, p.queues[k].Dequeue(), f);
    DequeueRemoves(p.queues[k]);
  }

  lemma CancelLosesNothing(p: Pool, instance: int, f: Entry)
    ensures CountWaiting(p.CancelTasks(instance).queues, f) == CountWaiting(p.queues, f)
  {
    forall k | 0 <= k < |p.queues| ensures Waiting(p.queues[k]) == Waiting(p.CancelTasks(instance).queues[k]) {
      CancelKeeps(p.queues[k], instance);
    }
    CountWaitingSame(p.queues, p.CancelTasks(instance).queues, f);
  }

  /** Registering and releasing an id leave the waiting tasks alone. */
  lemma RegisterCounts(p: Pool, tid: nat, k: nat, e: Entry, f: Entry)
    requires k < |p.queues| && tid < |p.tids| && p.tids[tid].Free?
    ensures CountWaiting(p.Register(tid, k, e).queues, f) == CountWaiting(p.queues, f)
    ensures CountHeld(p.Register(tid, k, e).tids, f) == CountHeld(p.tids, f) + if e == f then 1 else 0
  {
    CountWaitingUpdate(p.queues, k, p.queues[k].(running := p.queues[k].running + 1), f);
    CountHeldUpdate(p.tids, tid, Held(k, e), f);
  }

  lemma TerminateCounts(p: Pool, tid: nat, f: Entry)
    requires tid < |p.tids| && p.tids[tid].Held? && p.tids[tid].queue < |p.queues|
    ensures CountWaiting(p.TerminateTask(tid).queues, f) == CountWaiting(p.queues, f)
    ensures CountHeld(p.TerminateTask(tid).tids, f) == CountHeld(p.tids, f) - if p.tids[tid].entry == f then 1 else 0
  {
    var k := p.tids[tid].queue;
    CountWaitingUpdate(p.queues, k, p.queues[k].(running := p.queues[k].running - 1), f);
    CountHeldUpdate(p.tids, tid, Free, f);
  }
}
