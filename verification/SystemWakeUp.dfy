/** The forker never sleeps through work, and stops only for a shutdown. */
module SystemWakeUp {
  import opened QueueState
  import opened PoolState
  import opened SystemState
  import opened SystemPlaces
  import opened SystemSafety

  /**
   * A sleeping forker is known to be asleep. It has been signalled exactly when there is
   * something for it to do; and it has exited only for a shutdown.
   */
  ghost predicate WakesUp(s: State) {
    && (s.forker.Asleep? ==> s.pool.forkLocked)
    && (s.forker.Asleep? ==> (s.forker.signalled <==> !s.pool.IsLocked() || s.pool.shuttingDown))
    && (s.forker.Exited? ==> s.pool.shuttingDown)
  }

  /** An operation that does not lock the pool leaves no sleeping forker without its signal. */
  lemma SignalIsEnough(s: State, p: Pool)
    requires WakesUp(s) && p.Valid() && p.forkLocked == s.pool.forkLocked && p.shuttingDown == s.pool.shuttingDown
    requires !s.pool.IsLocked() ==> !p.IsLocked()
    ensures WakesUp(s.WithPool(p))
  {
  }

  lemma CallWakes(s: State, w: int)
    requires s.pool.Valid() && WakesUp(s) && s.CanCall(w)
    ensures WakesUp(s.MakeCall(w))
  {
    var c := s.instances[w].Pending()[0];
    if c.EnqueueCall? {
      var p := s.pool.EnqueueTask(c.queue, Entry(w, c.task));
      EnqueueIsValid(s.pool, c.queue, Entry(w, c.task));
      if !s.pool.IsLocked() {
        PoolStaysUnlocked(s.pool, c.queue, Entry(w, c.task), 0, 0);
      }
      SignalIsEnough(s, p);
    }
  }

  lemma CancelQueuedWakes(s: State, w: int)
    requires s.pool.Valid() && WakesUp(s)
    ensures WakesUp(s.CancelQueued(w))
  {
    CancelIsValid(s.pool, w);
    if !s.pool.IsLocked() {
      PoolStaysUnlocked(s.pool, 0, Entry(0, 0), 0, w);
    }
    SignalIsEnough(s, s.pool.CancelTasks(w));
  }

  lemma GatherWakes(s: State, tid: nat)
    requires s.pool.Valid() && WakesUp(s) && s.CanGather(tid)
    ensures WakesUp(s.Gather(tid))
  {
    TerminateIsValid(s.pool, tid);
    if !s.pool.IsLocked() {
      PoolStaysUnlocked(s.pool, 0, Entry(0, 0), tid, 0);
    }
    SignalIsEnough(s, s.pool.TerminateTask(tid));
  }

  /** No step loses a wake-up. */
  lemma StepWakes(s: State, step: Step)
    requires s.pool.Valid() && WakesUp(s) && Can(s, step)
    ensures WakesUp(Do(s, step))
  {
    match step
    case CallStep(w) => CallWakes(s, w);
    case CancelQueuedStep(w) => CancelQueuedWakes(s, w);
    case GatherStep(tid) => GatherWakes(s, tid);
    case _ =>
  }

  lemma {:induction false} RunWakes(run: seq<State>, steps: seq<Step>, k: nat)
    requires Run(run, steps) && Inv(run[0]) && Ends(run[0]) && WakesUp(run[0]) && k < |run|
    ensures WakesUp(run[k])
  {
    if k > 0 {
      RunWakes(run, steps, k - 1);
      RunKeeps(run, steps, k - 1);
      StepWakes(run[k - 1], steps[k - 1]);
    }
  }

  lemma InitialWakes(s: State)
    requires Initial(s)
    ensures Inv(s) && Ends(s) && WakesUp(s)
  {
    InitialIsPlaced(s);
  }

  /** In every run, a forker still asleep means that every queue is locked; and DequeueTask returns false only on shutdown. */
  lemma NoLostWakeUp(run: seq<State>, steps: seq<Step>, k: nat)
    requires Run(run, steps) && Inv(run[0]) && Ends(run[0]) && WakesUp(run[0]) && k < |run|
    ensures run[k].forker == Asleep(false) ==> run[k].pool.IsLocked() && !run[k].pool.shuttingDown
    ensures run[k].forker == Asleep(true) && !run[k].pool.shuttingDown ==> run[k].WakeUp().forker.Holding?
    ensures run[k].forker == Exited ==> run[k].pool.shuttingDown
    ensures run[k].pool.forkPossible <==> !run[k].pool.IsLocked()
  {
    RunWakes(run, steps, k);
    RunKeeps(run, steps, k);
  }

  /** The wait is not repeated: any wake-up without a signal makes DequeueTask return false and the forker exit. */
  lemma SpuriousWakeUpStopsForker(s: State)
    requires WakesUp(s) && s.forker == Asleep(false)
    ensures s.WakeUp().forker == Exited && !s.WakeUp().pool.shuttingDown
  {
  }

  /** fork_locked says that the forker sleeps, but for one that has exited in a shutdown. */
  ghost predicate LockedIsAsleep(s: State) {
    s.pool.forkLocked ==> s.forker.Asleep? || (s.forker.Exited? && s.pool.shuttingDown)
  }

  lemma StepLockedIsAsleep(s: State, step: Step)
    requires LockedIsAsleep(s) && Can(s, step)
    ensures LockedIsAsleep(Do(s, step))
  {
  }

  /** So in every run a signal is only sent to a forker that sleeps, until a shutdown. */
  lemma {:induction false} SignalsFindSleeper(run: seq<State>, steps: seq<Step>, k: nat)
    requires Run(run, steps) && LockedIsAsleep(run[0]) && k < |run|
    ensures LockedIsAsleep(run[k])
    ensures run[k].pool.Signals() && !run[k].pool.shuttingDown ==> run[k].forker.Asleep?
  {
    if k > 0 {
      SignalsFindSleeper(run, steps, k - 1);
      StepLockedIsAsleep(run[k - 1], steps[k - 1]);
    }
  }
}
