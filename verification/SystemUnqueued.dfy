/** After a cancel the instance's tasks wait only where they are served at once. */
module SystemUnqueued {
  import opened RetryPlan
  import opened WorkflowState
  import opened QueueState
  import opened PoolState
  import opened SystemState
  import opened SystemPlaces
  import opened SystemSafety
  import opened SystemWakeUp
  import opened SystemCancel

  /** The instance is cancelled, and has nothing more to ask for if it is in memory. */
  ghost predicate Quiet(s: State, w: int) {
    w in s.cancelled && (w in s.instances ==> s.instances[w].Pending() == [])
  }

  ghost predicate NoneIn(fifo: seq<Entry>, w: int) {
    forall e :: e in fifo ==> e.instance != w
  }

  /** None of its tasks is in a list; those that wait are on the stacks of cancelled tasks. */
  ghost predicate Unqueued(s: State, w: int) {
    forall k :: 0 <= k < |s.pool.queues| ==> NoneIn(s.pool.queues[k].fifo, w)
  }

  /** CancelTasks takes them out of the lists. */
  lemma CancelUnqueues(s: State, w: int)
    ensures Unqueued(s.CancelQueued(w), w)
    ensures forall e: Entry :: CountWaiting(s.CancelQueued(w).pool.queues, e) == CountWaiting(s.pool.queues, e)
  {
    forall k | 0 <= k < |s.pool.queues| ensures NoneIn(s.CancelQueued(w).pool.queues[k].fifo, w) {
      forall e | e in Survivors(s.pool.queues[k].fifo, w) ensures e.instance != w {
        SurvivorsAre(s.pool.queues[k].fifo, w, e);
      }
    }
    forall e: Entry ensures CountWaiting(s.CancelQueued(w).pool.queues, e) == CountWaiting(s.pool.queues, e) {
      CancelLosesNothing(s.pool, w, e);
    }
  }

  /** Cancelling makes an instance quiet. */
  lemma CancelIsQuiet(s: State, w: int)
    requires s.CanCancel(w)
    ensures Quiet(s.Cancel(w), w)
  {
  }

  lemma StartStaysQuiet(s: State, v: int, doc: Document, attributes: map<int, Attributes>, o: Oracle, w: int)
    requires Quiet(s, w) && s.CanStart(v, doc)
    ensures Quiet(s.Start(v, doc, attributes, o), w)
  {
    var i := NewInstance(doc, attributes, v in s.cancelled);
    assert TasksWith(i.status, Queued) == {} && TasksWith(i.status, Executing) == {};
    LaunchOnlyQueues(i, 0, o);
  }

  /** And it stays quiet. */
  lemma StepStaysQuiet(s: State, step: Step, w: int)
    requires Inv(s) && Can(s, step) && Quiet(s, w)
    ensures Quiet(Do(s, step), w)
  {
    if step.StartStep? {
      StartStaysQuiet(s, step.w, step.doc, step.attributes, step.o, w);
    } else if w in s.instances && w in Do(s, step).instances {
      StepWinds(s, step, w);
    }
  }

  lemma CallStaysUnqueued(s: State, v: int, w: int)
    requires Quiet(s, w) && Unqueued(s, w) && s.CanCall(v)
    ensures Unqueued(s.MakeCall(v), w)
  {
  }

  lemma CancelStaysUnqueued(s: State, v: int, w: int)
    requires Unqueued(s, w)
    ensures Unqueued(s.CancelQueued(v), w)
  {
    forall k | 0 <= k < |s.pool.queues| ensures NoneIn(s.CancelQueued(v).pool.queues[k].fifo, w) {
      forall e | e in Survivors(s.pool.queues[k].fifo, v) ensures e.instance != w {
        SurvivorsAre(s.pool.queues[k].fifo, v, e);
      }
    }
  }

  lemma ScanStaysUnqueued(s: State, w: int)
    requires Unqueued(s, w)
    ensures Unqueued(s.Scan(), w)
  {
    if !s.pool.IsLocked() {
      var k := FirstUnlocked(s.pool.queues);
      forall e | e in s.pool.queues[k].Dequeue().fifo ensures e in s.pool.queues[k].fifo {}
    }
  }

  lemma RegisterStaysUnqueued(s: State, w: int)
    requires Unqueued(s, w) && s.CanRegister()
    ensures Unqueued(s.RegisterTask(), w)
  {
  }

  lemma TerminateStaysUnqueued(s: State, p: Pool, tid: nat, w: int)
    requires Unqueued(s, w) && s.HasEntry(tid) && p == s.pool.TerminateTask(tid)
    ensures forall k :: 0 <= k < |p.queues| ==> NoneIn(p.queues[k].fifo, w)
  {
  }

  lemma StepStaysUnqueued(s: State, step: Step, w: int)
    requires Inv(s) && Can(s, step) && Quiet(s, w) && Unqueued(s, w)
    ensures Unqueued(Do(s, step), w)
  {
    match step
    case CallStep(v) => CallStaysUnqueued(s, v, w);
    case CancelQueuedStep(v) => CancelStaysUnqueued(s, v, w);
    case EnterStep => ScanStaysUnqueued(s, w);
    case WakeStep => ScanStaysUnqueued(s, w);
    case RegisterStep => RegisterStaysUnqueued(s, w);
    case ReleaseStep => TerminateStaysUnqueued(s, s.pool.TerminateTask(s.forker.tid), s.forker.tid, w);
    case GatherStep(tid) => TerminateStaysUnqueued(s, s.pool.TerminateTask(tid), tid, w);
    case _ =>
  }

  lemma StepOfRunStaysQuiet(run: seq<State>, steps: seq<Step>, w: int, k: nat)
    requires Run(run, steps) && Inv(run[0]) && Ends(run[0]) && k < |steps| && Quiet(run[k], w)
    ensures Quiet(run[k + 1], w)
  {
    RunKeeps(run, steps, k);
    StepStaysQuiet(run[k], steps[k], w);
  }

  lemma StepOfRunStaysUnqueued(run: seq<State>, steps: seq<Step>, w: int, k: nat)
    requires Run(run, steps) && Inv(run[0]) && Ends(run[0]) && k < |steps| && Quiet(run[k], w) && Unqueued(run[k], w)
    ensures Unqueued(run[k + 1], w)
  {
    RunKeeps(run, steps, k);
    StepStaysUnqueued(run[k], steps[k], w);
  }

  lemma {:induction false} RunStaysQuiet(run: seq<State>, steps: seq<Step>, w: int, a: nat, k: nat)
    requires Run(run, steps) && Inv(run[0]) && Ends(run[0]) && a <= k < |run| && Quiet(run[a], w)
    ensures Quiet(run[k], w)
    decreases k - a
  {
    if a < k {
      RunStaysQuiet(run, steps, w, a, k - 1);
      StepOfRunStaysQuiet(run, steps, w, k - 1);
    }
  }

  lemma {:induction false} RunStaysUnqueued(run: seq<State>, steps: seq<Step>, w: int, a: nat, k: nat)
    requires Run(run, steps) && Inv(run[0]) && Ends(run[0]) && a <= k < |run| && Quiet(run[a], w) && Unqueued(run[a], w)
    ensures Unqueued(run[k], w)
    decreases k - a
  {
    if a < k {
      RunStaysUnqueued(run, steps, w, a, k - 1);
      RunStaysQuiet(run, steps, w, a, k - 1);
      StepOfRunStaysUnqueued(run, steps, w, k - 1);
    }
  }

  /** From the end of a cancel on, the instance's tasks are in no list. */
  lemma CancelledStaysUnqueued(run: seq<State>, steps: seq<Step>, w: int, a: nat, b: nat, k: nat)
    requires Run(run, steps) && Inv(run[0]) && Ends(run[0]) && a < b < k < |run|
    requires steps[a] == CancelStep(w) && steps[b] == CancelQueuedStep(w)
    ensures Unqueued(run[k], w)
  {
    CancelIsQuiet(run[a], w);
    RunStaysQuiet(run, steps, w, a + 1, b + 1);
    CancelUnqueues(run[b], w);
    RunStaysUnqueued(run, steps, w, b + 1, k);
  }

  /**
   * In every run, once an instance has been cancelled and its queued tasks too, none of its tasks
   * ever waits for room in its queue: while one waits, no forker sleeps that has not been signalled.
   */
  lemma CancelledNeverWaitsForRoom(run: seq<State>, steps: seq<Step>, w: int, e: Entry, a: nat, b: nat, k: nat)
    requires Run(run, steps) && Inv(run[0]) && Ends(run[0]) && WakesUp(run[0]) && a < b < k < |run|
    requires steps[a] == CancelStep(w) && steps[b] == CancelQueuedStep(w)
    requires e.instance == w && CountWaiting(run[k].pool.queues, e) > 0
    ensures !run[k].pool.IsLocked() && run[k].forker != Asleep(false)
  {
    CancelledStaysUnqueued(run, steps, w, a, b, k);
    NoLostWakeUp(run, steps, k);
    WaitsSomewhere(run[k].pool.queues, e);
    var n :| 0 <= n < |run[k].pool.queues| && e in Waiting(run[k].pool.queues[n]);
    assert NoneIn(run[k].pool.queues[n].fifo, w);
    assert e in run[k].pool.queues[n].cancelled;
    assert !run[k].pool.queues[n].IsLocked();
  }
}
