/** How many tasks of a queue run at once. */
module SystemBounds {
  import opened WorkflowState
  import opened QueueState
  import opened PoolState
  import opened SystemState
  import opened SystemPlaces
  import opened SystemSafety

  /** The forker holds a registration on the queue for a task not forked. */
  predicate Extra(s: State, k: int) {
    (s.forker.Registered? || s.forker.Refused?) && s.HasEntry(s.forker.tid) && s.pool.tids[s.forker.tid].queue == k
  }

  /** Only tasks of cancelled instances are on the side lists. */
  ghost predicate SideIsCancelled(queues: seq<Queue>, cancelled: set<int>) {
    forall k :: 0 <= k < |queues| ==> forall e :: e in queues[k].cancelled ==> e.instance in cancelled
  }

  /** Running tasks within the concurrency, but for one that the forker has registered. */
  ghost predicate Within(s: State) {
    forall k :: 0 <= k < |s.pool.queues| ==>
      s.pool.queues[k].running <= s.pool.queues[k].concurrency + if Extra(s, k) then 1 else 0
  }

  /** The forker goes beyond the concurrency only with a task of a cancelled instance. */
  ghost predicate BeyondIsCancelled(s: State) {
    && (s.forker.Holding? && s.forker.queue < |s.pool.queues| && s.forker.entry.instance !in s.cancelled ==>
         s.pool.queues[s.forker.queue].running < s.pool.queues[s.forker.queue].concurrency)
    && (s.forker.Registered? && s.HasEntry(s.forker.tid) && s.pool.tids[s.forker.tid].entry.instance !in s.cancelled ==>
         var q := s.pool.queues[s.pool.tids[s.forker.tid].queue]; q.running <= q.concurrency)
    && (s.forker.Refused? && s.HasEntry(s.forker.tid) && s.pool.tids[s.forker.tid].entry.instance !in s.cancelled ==>
         var q := s.pool.queues[s.pool.tids[s.forker.tid].queue]; q.running <= q.concurrency)
  }

  ghost predicate Bounded(s: State) {
    SideIsCancelled(s.pool.queues, s.cancelled) && Within(s) && BeyondIsCancelled(s)
  }

  /** The concurrency limits never change. */
  ghost predicate SameLimits(s: State, s': State) {
    |s'.pool.queues| == |s.pool.queues| && forall k :: 0 <= k < |s.pool.queues| ==>
      s'.pool.queues[k].concurrency == s.pool.queues[k].concurrency
  }

  lemma CallBounded(s: State, w: int)
    requires Bounded(s) && s.CanCall(w)
    ensures Bounded(s.MakeCall(w))
  {
  }

  lemma CancelledGrows(queues: seq<Queue>, cancelled: set<int>, w: int)
    requires SideIsCancelled(queues, cancelled) && w in cancelled
    ensures SideIsCancelled(CancelAll(queues, w), cancelled)
  {
    forall k, e | 0 <= k < |queues| && e in CancelAll(queues, w)[k].cancelled ensures e.instance in cancelled {
      StackedAre(queues[k].fifo, w, queues[k].cancelled, e);
    }
  }

  lemma CancelQueuedBounded(s: State, w: int)
    requires Bounded(s) && w in s.cancelled
    ensures Bounded(s.CancelQueued(w))
  {
    CancelledGrows(s.pool.queues, s.cancelled, w);
  }

  lemma ScanBounded(s: State)
    requires Bounded(s) && (s.forker.Ready? || s.forker.Asleep?)
    ensures Bounded(s.Scan())
  {
    if !s.pool.IsLocked() {
      var k := FirstUnlocked(s.pool.queues);
      var q := s.pool.queues[k];
      assert forall e :: e in q.Dequeue().cancelled ==> e in q.cancelled;
    }
  }

  lemma EnterBounded(s: State)
    requires Bounded(s) && s.forker.Ready?
    ensures Bounded(s.EnterDequeue())
  {
    ScanBounded(s);
  }

  lemma WakeBounded(s: State)
    requires Bounded(s) && s.forker.Asleep?
    ensures Bounded(s.WakeUp())
  {
    ScanBounded(s);
  }

  lemma CancelBounded(s: State, w: int)
    requires Bounded(s) && s.CanCancel(w)
    ensures Bounded(s.Cancel(w))
  {
  }

  lemma RegisterBounded(s: State)
    requires s.pool.Valid() && Bounded(s) && s.CanRegister()
    ensures Bounded(s.RegisterTask())
  {
    RegisterPool(s);
  }

  /** A task is only forked when its instance is not cancelled, and then the concurrency is respected. */
  lemma ExecuteBounded(s: State, outcome: ForkOutcome)
    requires Inv(s) && Bounded(s) && s.CanExecute()
    ensures Bounded(s.ExecuteTask(outcome))
  {
  }

  lemma ReleaseBounded(s: State)
    requires Bounded(s) && s.CanRelease()
    ensures Bounded(s.ReleaseTask())
  {
  }

  lemma GatherBounded(s: State, tid: nat)
    requires Inv(s) && Bounded(s) && s.CanGather(tid)
    ensures Bounded(s.Gather(tid))
  {
  }

  lemma RestartBounded(s: State, e: Entry)
    requires Bounded(s) && s.Unlocked(e.instance)
    ensures Bounded(s.Restart(e))
  {
  }

  lemma StopBounded(s: State, retval: int, output: OutputOutcome, o: Oracle)
    requires Bounded(s) && s.CanStop()
    ensures Bounded(s.StopTask(retval, output, o))
  {
  }

  /** A step that leaves the queues, the ids, the forker's registration and the cancelled ids alone. */
  lemma SameBounded(s: State, s': State)
    requires Bounded(s) && s'.pool.queues == s.pool.queues && s'.pool.tids == s.pool.tids && s'.cancelled == s.cancelled
    requires s'.forker == s.forker || (s.forker.Asleep? && s'.forker.Asleep?)
    ensures Bounded(s')
  {
  }

  lemma StepBounded(s: State, step: Step)
    requires Inv(s) && Bounded(s) && Can(s, step)
    ensures Bounded(Do(s, step))
  {
    match step
    case CallStep(w) => CallBounded(s, w);
    case CancelQueuedStep(w) => CancelQueuedBounded(s, w);
    case CancelStep(w) => CancelBounded(s, w);
    case EnterStep => EnterBounded(s);
    case WakeStep => WakeBounded(s);
    case RegisterStep => RegisterBounded(s);
    case ExecuteStep(outcome) => ExecuteBounded(s, outcome);
    case ReleaseStep => ReleaseBounded(s);
    case GatherStep(tid) => GatherBounded(s, tid);
    case RestartStep(e) => RestartBounded(s, e);
    case StopStep(retval, output, o) => StopBounded(s, retval, output, o);
    case _ => SameBounded(s, Do(s, step));
  }

  lemma {:induction false} RunBounded(run: seq<State>, steps: seq<Step>, k: nat)
    requires Run(run, steps) && Inv(run[0]) && Ends(run[0]) && Bounded(run[0]) && k < |run|
    ensures Bounded(run[k]) && SameLimits(run[0], run[k])
  {
    if k > 0 {
      RunBounded(run, steps, k - 1);
      StepOfRunBounded(run, steps, k - 1);
    }
  }

  lemma StepOfRunBounded(run: seq<State>, steps: seq<Step>, k: nat)
    requires Run(run, steps) && Inv(run[0]) && Ends(run[0]) && k < |steps| && Bounded(run[k])
    ensures Bounded(run[k + 1]) && SameLimits(run[k], run[k + 1])
  {
    RunKeeps(run, steps, k);
    StepBounded(run[k], steps[k]);
    StepLimits(run[k], steps[k]);
  }

  lemma StepLimits(s: State, step: Step)
    requires s.pool.Valid() && Can(s, step)
    ensures SameLimits(s, Do(s, step))
  {
    match step
    case CallStep(w) => CallLimits(s, w);
    case EnterStep => ScanLimits(s);
    case WakeStep => ScanLimits(s);
    case RegisterStep => RegisterPool(s);
    case ReleaseStep => ReleaseLimits(s);
    case GatherStep(tid) => GatherLimits(s, tid);
    case CancelQueuedStep(w) => CancelQueuedLimits(s, w);
    case _ => assert Do(s, step).pool.queues == s.pool.queues;
  }

  lemma ReleaseLimits(s: State)
    requires s.CanRelease()
    ensures SameLimits(s, s.ReleaseTask())
  {
  }

  lemma GatherLimits(s: State, tid: nat)
    requires s.CanGather(tid)
    ensures SameLimits(s, s.Gather(tid))
  {
  }

  lemma CancelQueuedLimits(s: State, w: int)
    ensures SameLimits(s, s.CancelQueued(w))
  {
  }

  lemma CallLimits(s: State, w: int)
    requires s.CanCall(w)
    ensures SameLimits(s, s.MakeCall(w))
  {
  }

  lemma ScanLimits(s: State)
    ensures SameLimits(s, s.Scan())
  {
  }

  /** The tasks of a queue that have been forked and whose exit has not been gathered. */
  function ForkedOn(s: State, k: int): set<nat> {
    set t | t in s.children && s.HasEntry(t) && s.pool.tids[t].queue == k
  }

  lemma ForkedAreLive(s: State, k: nat)
    requires s.pool.Valid() && IdsOwned(s) && k < |s.pool.queues|
    ensures |ForkedOn(s, k)| + (if Extra(s, k) then 1 else 0) == s.pool.queues[k].running
  {
    var live := LiveOn(s.pool.tids, k);
    var forked: set<int> := set t: int | t in live && t in s.children;
    forall t: nat | t in live ensures s.HasEntry(t) {}
    SameSize(ForkedOn(s, k), forked);
    if Extra(s, k) {
      assert live == forked + {s.forker.tid};
    } else {
      assert live == forked;
    }
  }

  lemma {:induction false} SameSize(a: set<nat>, b: set<int>)
    requires forall t: int :: t in b <==> t >= 0 && t in a
    ensures |a| == |b|
    decreases a
  {
    if a == {} {
      assert forall t :: t !in b;
      assert b == {};
    } else {
      var t: nat :| t in a;
      SameSize(a - {t}, b - {t});
    }
  }

  /**
   * In every run that starts within the concurrency: forked tasks never exceed it, and the counter
   * exceeds it by at most one, only while the forker holds a registration for a cancelled instance's task.
   */
  lemma ConcurrencyIsBounded(run: seq<State>, steps: seq<Step>, n: nat, k: nat)
    requires Run(run, steps) && Inv(run[0]) && Ends(run[0]) && Bounded(run[0])
    requires n < |run| && k < |run[0].pool.queues|
    ensures k < |run[n].pool.queues| && |ForkedOn(run[n], k)| <= run[0].pool.queues[k].concurrency
    ensures run[n].pool.queues[k].running <= run[0].pool.queues[k].concurrency + 1
    ensures run[n].pool.queues[k].running > run[0].pool.queues[k].concurrency ==>
      Extra(run[n], k) && run[n].pool.tids[run[n].forker.tid].entry.instance in run[n].cancelled
  {
    RunBounded(run, steps, n);
    RunKeeps(run, steps, n);
    ForkedAreLive(run[n], k);
  }

  lemma InitialIsBounded(s: State)
    requires Initial(s)
    ensures Bounded(s)
  {
    forall k | 0 <= k < |s.pool.queues| ensures s.pool.queues[k].running == 0 && s.pool.queues[k].cancelled == [] {
      assert LiveOn(s.pool.tids, k) == {};
      assert |Waiting(s.pool.queues[k])| == |s.pool.queues[k].fifo| + |s.pool.queues[k].cancelled|;
    }
  }
}
