/** Every task waits in, is taken from, and is counted by the queue that its document names. */
module SystemQueues {
  import opened RetryPlan
  import opened WorkflowState
  import opened QueueState
  import opened PoolState
  import opened SystemState
  import opened SystemPlaces
  import opened SystemSafety

  /** The task belongs in this queue. */
  ghost predicate Belongs(cells: map<int, Cell>, k: nat, e: Entry) {
    && e.instance in cells && e.task in cells[e.instance].instance.doc.queueOf
    && cells[e.instance].instance.doc.queueOf[e.task] == k
  }

  ghost predicate WaitAtHome(cells: map<int, Cell>, queues: seq<Queue>) {
    forall k, e :: 0 <= k < |queues| && e in Waiting(queues[k]) ==> Belongs(cells, k, e)
  }

  /** All ids but the one the forker is about to give back. */
  ghost predicate HeldAtHome(cells: map<int, Cell>, tids: seq<Slot>, f: Forker) {
    forall t :: 0 <= t < |tids| && tids[t].Held? && !(f.Refused? && f.tid == t) ==> Belongs(cells, tids[t].queue, tids[t].entry)
  }

  ghost predicate AtHome(s: State) {
    && WaitAtHome(s.instances, s.pool.queues)
    && HeldAtHome(s.instances, s.pool.tids, s.forker)
    && (s.forker.Holding? ==> Belongs(s.instances, s.forker.queue, s.forker.entry))
  }

  /** The instances keep their documents, or go when nothing is left of them. */
  lemma CellsChange(s: State, cells: map<int, Cell>)
    requires AtHome(s)
    requires forall w :: w in s.instances && w in cells ==> cells[w].instance.doc == s.instances[w].instance.doc
    requires forall w :: w in s.instances && w !in cells ==> forall e: Entry :: e.instance == w ==> !Refers(s, e)
    requires IdsOwned(s) && s.pool.Valid()
    ensures WaitAtHome(cells, s.pool.queues) && HeldAtHome(cells, s.pool.tids, s.forker)
    ensures s.forker.Holding? ==> Belongs(cells, s.forker.queue, s.forker.entry)
  {
    forall k, e | 0 <= k < |s.pool.queues| && e in Waiting(s.pool.queues[k]) ensures Belongs(cells, k, e) {
      assert Belongs(s.instances, k, e) && Refers(s, e);
    }
    forall t | 0 <= t < |s.pool.tids| && s.pool.tids[t].Held? && !(s.forker.Refused? && s.forker.tid == t)
      ensures Belongs(cells, s.pool.tids[t].queue, s.pool.tids[t].entry)
    {
      assert Belongs(s.instances, s.pool.tids[t].queue, s.pool.tids[t].entry);
      HeldRefers(s, t);
    }
    if s.forker.Holding? {
      assert Refers(s, s.forker.entry);
    }
  }

  lemma HeldRefers(s: State, t: nat)
    requires IdsOwned(s) && t < |s.pool.tids| && s.pool.tids[t].Held? && !(s.forker.Refused? && s.forker.tid == t)
    requires s.pool.tids[t].queue < |s.pool.queues|
    ensures Refers(s, s.pool.tids[t].entry)
  {
    assert s.HasEntry(t);
  }

  // The steps that change what is known of instances

  lemma DeleteAtHome(s: State, w: int)
    requires Inv(s) && AtHome(s) && w in s.doomed
    ensures AtHome(s.Delete(w))
  {
    forall e: Entry | e.instance == w ensures !Refers(s, e) {
      if Refers(s, e) {
        NoDanglingReference(s, e);
      }
    }
    CellsChange(s, s.Delete(w).instances);
  }

  lemma StartAtHome(s: State, w: int, doc: Document, attributes: map<int, Attributes>, o: Oracle)
    requires Inv(s) && AtHome(s) && s.CanStart(w, doc)
    ensures AtHome(s.Start(w, doc, attributes, o))
  {
    CellsChange(s, s.Start(w, doc, attributes, o).instances);
  }

  lemma CloseAtHome(s: State, w: int)
    requires Inv(s) && AtHome(s) && s.CanClose(w)
    ensures AtHome(s.Close(w))
  {
    CellsChange(s, s.Close(w).instances);
  }

  lemma CancelAtHome(s: State, w: int)
    requires Inv(s) && AtHome(s) && s.CanCancel(w)
    ensures AtHome(s.Cancel(w))
  {
    CellsChange(s, s.Cancel(w).instances);
  }

  lemma RestartAtHome(s: State, e: Entry)
    requires Inv(s) && AtHome(s) && e in s.inHand && s.Unlocked(e.instance)
    ensures AtHome(s.Restart(e))
  {
    CellsChange(s, s.Restart(e).instances);
  }

  lemma StopAtHome(s: State, retval: int, output: OutputOutcome, o: Oracle)
    requires Inv(s) && AtHome(s) && s.CanStop()
    ensures AtHome(s.StopTask(retval, output, o))
  {
    var e := s.gatherer.entry;
    StoppingIsExecuting(s);
    InHandMeans(s, e, WithTid);
    TaskStopTransfers(s.instances[e.instance].instance, e.task, retval, output, o);
    CellsChange(s, s.StopTask(retval, output, o).instances);
  }

  lemma ExecuteAtHome(s: State, outcome: ForkOutcome)
    requires Inv(s) && AtHome(s) && s.CanExecute()
    ensures AtHome(s.ExecuteTask(outcome))
  {
    CellsChange(s, s.ExecuteTask(outcome).instances);
  }

  // The steps that move tasks

  lemma EnqueuedAtHome(cells: map<int, Cell>, queues: seq<Queue>, k: nat, e: Entry)
    requires WaitAtHome(cells, queues) && k < |queues| && Belongs(cells, k, e)
    ensures WaitAtHome(cells, queues[k := queues[k].Enqueue(e)])
  {
    EnqueueAdds(queues[k], e);
  }

  lemma CallBelongs(s: State, w: int)
    requires Inv(s) && s.CanCall(w) && s.instances[w].Pending()[0].EnqueueCall?
    ensures var c := s.instances[w].Pending()[0]; Belongs(s.MakeCall(w).instances, c.queue, Entry(w, c.task))
  {
    assert CellOk(s.instances[w], |s.pool.queues|);
  }

  lemma CallAtHome(s: State, w: int)
    requires Inv(s) && AtHome(s) && s.CanCall(w)
    ensures AtHome(s.MakeCall(w))
  {
    var c, cells := s.instances[w].Pending()[0], s.MakeCall(w).instances;
    CellsChange(s, cells);
    if c.EnqueueCall? {
      CallBelongs(s, w);
      EnqueuedAtHome(cells, s.pool.queues, c.queue, Entry(w, c.task));
    }
  }

  lemma CancelQueuedAtHome(s: State, w: int)
    requires AtHome(s)
    ensures AtHome(s.CancelQueued(w))
  {
    forall k | 0 <= k < |s.pool.queues| ensures Waiting(s.CancelQueued(w).pool.queues[k]) == Waiting(s.pool.queues[k]) {
      CancelKeeps(s.pool.queues[k], w);
    }
  }

  lemma DequeuedAtHome(cells: map<int, Cell>, queues: seq<Queue>, k: nat)
    requires WaitAtHome(cells, queues) && k < |queues| && !queues[k].IsLocked()
    ensures WaitAtHome(cells, queues[k := queues[k].Dequeue()]) && Belongs(cells, k, queues[k].Head())
  {
    DequeueRemoves(queues[k]);
  }

  lemma ScanAtHome(s: State)
    requires AtHome(s) && !s.forker.Refused?
    ensures AtHome(s.Scan())
  {
    if !s.pool.IsLocked() {
      DequeuedAtHome(s.instances, s.pool.queues, FirstUnlocked(s.pool.queues));
    }
  }

  lemma RegisterAtHome(s: State)
    requires s.pool.Valid() && AtHome(s) && s.CanRegister()
    ensures AtHome(s.RegisterTask())
  {
    ExecuteFindsNearestFree(s.pool, s.forker.queue, s.forker.entry);
  }

  lemma GatherAtHome(s: State, tid: nat)
    requires IdsOwned(s) && AtHome(s) && s.CanGather(tid)
    ensures AtHome(s.Gather(tid))
  {
  }

  lemma ReleaseAtHome(s: State)
    requires AtHome(s) && s.CanRelease()
    ensures AtHome(s.ReleaseTask())
  {
  }

  lemma StepAtHome(s: State, step: Step)
    requires Inv(s) && AtHome(s) && Can(s, step)
    ensures AtHome(Do(s, step))
  {
    match step
    case StartStep(w, doc, attributes, o) => StartAtHome(s, w, doc, attributes, o);
    case CallStep(w) => CallAtHome(s, w);
    case CloseStep(w) => CloseAtHome(s, w);
    case DeleteStep(w) => DeleteAtHome(s, w);
    case CancelStep(w) => CancelAtHome(s, w);
    case CancelQueuedStep(w) => CancelQueuedAtHome(s, w);
    case RestartStep(e) => RestartAtHome(s, e);
    case EnterStep => ScanAtHome(s);
    case WakeStep => ScanAtHome(s);
    case RegisterStep => RegisterAtHome(s);
    case ExecuteStep(outcome) => ExecuteAtHome(s, outcome);
    case ReleaseStep => ReleaseAtHome(s);
    case GatherStep(tid) => GatherAtHome(s, tid);
    case StopStep(retval, output, o) => StopAtHome(s, retval, output, o);
    case _ =>
  }

  lemma StepOfRunAtHome(run: seq<State>, steps: seq<Step>, k: nat)
    requires Run(run, steps) && Inv(run[0]) && Ends(run[0]) && k < |steps| && AtHome(run[k])
    ensures AtHome(run[k + 1])
  {
    RunKeeps(run, steps, k);
    StepAtHome(run[k], steps[k]);
  }

  /** In every run each task waits in its own queue, the forker runs it for that queue, and its id counts for that queue. */
  lemma {:induction false} TasksKeepToTheirQueues(run: seq<State>, steps: seq<Step>, k: nat)
    requires Run(run, steps) && Inv(run[0]) && Ends(run[0]) && AtHome(run[0]) && k < |run|
    ensures AtHome(run[k])
  {
    if k > 0 {
      TasksKeepToTheirQueues(run, steps, k - 1);
      StepOfRunAtHome(run, steps, k - 1);
    }
  }

  lemma InitialIsAtHome(s: State)
    requires Initial(s)
    ensures AtHome(s)
  {
    assert forall k, e: Entry :: 0 <= k < |s.pool.queues| ==> e !in Waiting(s.pool.queues[k]);
  }
}
