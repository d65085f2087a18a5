/** After a cancel: nothing starts, and the instance ends after exactly the callbacks outstanding. */
module SystemCancel {
  import opened RetryPlan
  import opened WorkflowState
  import opened QueueState
  import opened SystemState
  import opened SystemPlaces
  import opened SystemSafety

  /** An instance that has been cancelled, in memory, with nothing more to ask for. */
  ghost predicate Winding(s: State, w: int) {
    w in s.instances && w in s.cancelled && s.instances[w].Pending() == []
  }

  /** Whether a step is a callback of the instance. */
  predicate CallbackOf(s: State, step: Step, w: int) {
    match step
    case RestartStep(e) => e.instance == w
    case ExecuteStep(_) => s.forker.Registered? && s.HasEntry(s.forker.tid) && s.pool.tids[s.forker.tid].entry.instance == w
    case StopStep(_, _, _) => s.gatherer.Stopping? && s.gatherer.entry.instance == w
    case _ => false
  }

  function Left(s: State, w: int): int
    requires w in s.instances
  {
    Outstanding(s.instances[w].instance)
  }

  /** One step of a cancelled instance: a callback leaves one fewer to come, nothing else changes anything, and no task starts. */
  ghost predicate WoundDown(s: State, s': State, step: Step, w: int)
    requires w in s.instances && w in s'.instances
  {
    && Winding(s', w)
    && Left(s', w) == Left(s, w) - (if CallbackOf(s, step, w) then 1 else 0)
    && TasksWith(s'.instances[w].instance.status, Queued) <= TasksWith(s.instances[w].instance.status, Queued)
    && TasksWith(s'.instances[w].instance.status, Executing) <= TasksWith(s.instances[w].instance.status, Executing)
  }

  lemma WindingIs(s: State, w: int)
    requires Inv(s) && Winding(s, w)
    ensures s.instances[w].instance.cancelling && s.instances[w].instance.Consistent()
  {
    assert CellOk(s.instances[w], |s.pool.queues|);
  }

  lemma OwnStopWinds(s: State, retval: int, output: OutputOutcome, o: Oracle, w: int)
    requires Inv(s) && Winding(s, w) && s.CanStop() && s.gatherer.entry.instance == w
    ensures WoundDown(s, s.StopTask(retval, output, o), StopStep(retval, output, o), w)
  {
    var e := s.gatherer.entry;
    StoppingIsExecuting(s);
    InHandMeans(s, e, WithTid);
    WindingIs(s, w);
    CancelledStopWindsDown(s.instances[w].instance, e.task, retval, output, o);
  }

  lemma OtherStopWinds(s: State, retval: int, output: OutputOutcome, o: Oracle, w: int)
    requires Winding(s, w) && s.CanStop() && s.gatherer.entry.instance != w
    ensures WoundDown(s, s.StopTask(retval, output, o), StopStep(retval, output, o), w)
  {
    var e := s.gatherer.entry;
    var (i, calls) := s.instances[e.instance].instance.TaskStop(e.task, retval, output, o);
    OthersUntouched(s, e.instance, i, Some(calls), w);
  }

  lemma StopWinds(s: State, retval: int, output: OutputOutcome, o: Oracle, w: int)
    requires Inv(s) && Winding(s, w) && s.CanStop()
    ensures WoundDown(s, s.StopTask(retval, output, o), StopStep(retval, output, o), w)
  {
    if s.gatherer.entry.instance == w {
      OwnStopWinds(s, retval, output, o, w);
    } else {
      OtherStopWinds(s, retval, output, o, w);
    }
  }

  lemma OthersUntouched(s: State, v: int, i: Instance, section: Option<seq<Call>>, w: int)
    requires v in s.instances && v != w
    ensures w in s.instances ==> s.WithInstance(v, i, section).instances[w] == s.instances[w]
  {
  }

  lemma RestartWinds(s: State, e: Entry, w: int)
    requires Inv(s) && Winding(s, w) && e in s.inHand && s.Unlocked(e.instance)
    ensures WoundDown(s, s.Restart(e), RestartStep(e), w)
  {
    WindingIs(s, w);
    if e.instance == w {
      CancelledRestartWindsDown(s.instances[w].instance, e.task);
    }
  }

  lemma ExecuteWinds(s: State, outcome: ForkOutcome, w: int)
    requires Flagged(s.instances, s.cancelled) && Winding(s, w) && s.CanExecute()
    ensures WoundDown(s, s.ExecuteTask(outcome), ExecuteStep(outcome), w)
  {
    var e := s.pool.tids[s.forker.tid].entry;
    if e.instance == w {
      CancelledExecuteWindsDown(s.instances[w].instance, e.task, outcome);
    }
  }

  lemma StepWinds(s: State, step: Step, w: int)
    requires Inv(s) && Can(s, step) && Winding(s, w) && w in Do(s, step).instances
    ensures WoundDown(s, Do(s, step), step, w)
  {
    match step
    case RestartStep(e) => RestartWinds(s, e, w);
    case ExecuteStep(outcome) => ExecuteWinds(s, outcome, w);
    case StopStep(retval, output, o) => StopWinds(s, retval, output, o, w);
    case StartStep(v, doc, attributes, o) => StartWinds(s, v, doc, attributes, o, w);
    case CallStep(v) => CallWinds(s, v, w);
    case CloseStep(v) => CloseWinds(s, v, w);
    case CancelStep(v) => CancelWinds(s, v, w);
    case _ => NoCallback(s, step, w);
  }

  /** A step that leaves the instance as it is, but perhaps for its ended flag. */
  lemma SameInstance(s: State, s': State, step: Step, w: int)
    requires Winding(s, w) && w in s'.instances && s.cancelled <= s'.cancelled && !CallbackOf(s, step, w)
    requires s'.instances[w].instance.(cancelling := true) == s.instances[w].instance.(cancelling := true)
    requires s'.instances[w].Pending() == []
    ensures WoundDown(s, s', step, w)
  {
  }

  lemma StartWinds(s: State, v: int, doc: Document, attributes: map<int, Attributes>, o: Oracle, w: int)
    requires s.instances.Keys <= s.started && s.CanStart(v, doc) && Winding(s, w)
    ensures WoundDown(s, s.Start(v, doc, attributes, o), StartStep(v, doc, attributes, o), w)
  {
    SameInstance(s, s.Start(v, doc, attributes, o), StartStep(v, doc, attributes, o), w);
  }

  lemma CallWinds(s: State, v: int, w: int)
    requires s.CanCall(v) && Winding(s, w)
    ensures WoundDown(s, s.MakeCall(v), CallStep(v), w)
  {
    SameInstance(s, s.MakeCall(v), CallStep(v), w);
  }

  lemma CloseWinds(s: State, v: int, w: int)
    requires s.CanClose(v) && Winding(s, w)
    ensures WoundDown(s, s.Close(v), CloseStep(v), w)
  {
    SameInstance(s, s.Close(v), CloseStep(v), w);
  }

  lemma CancelWinds(s: State, v: int, w: int)
    requires s.CanCancel(v) && Winding(s, w)
    ensures WoundDown(s, s.Cancel(v), CancelStep(v), w)
  {
    SameInstance(s, s.Cancel(v), CancelStep(v), w);
  }

  /** The steps of the pool's threads between callbacks touch no instance. */
  lemma NoCallback(s: State, step: Step, w: int)
    requires Can(s, step) && Winding(s, w) && w in Do(s, step).instances
    requires !step.RestartStep? && !step.ExecuteStep? && !step.StopStep?
    requires !step.StartStep? && !step.CallStep? && !step.CloseStep? && !step.CancelStep?
    ensures WoundDown(s, Do(s, step), step, w)
  {
    SameInstance(s, Do(s, step), step, w);
  }

  /** The callbacks of an instance among the first k steps of a run. */
  function Callbacks(run: seq<State>, steps: seq<Step>, w: int, k: nat): nat
    requires k <= |steps| < |run|
  {
    if k == 0 then 0 else Callbacks(run, steps, w, k - 1) + if CallbackOf(run[k - 1], steps[k - 1], w) then 1 else 0
  }

  lemma {:induction false} RunWinds(run: seq<State>, steps: seq<Step>, w: int, k: nat)
    requires Run(run, steps) && Inv(run[0]) && Ends(run[0]) && Winding(run[0], w) && k < |run|
    requires forall n :: 0 <= n <= k ==> w in run[n].instances
    ensures Winding(run[k], w) && Left(run[k], w) == Left(run[0], w) - Callbacks(run, steps, w, k)
    ensures TasksWith(run[k].instances[w].instance.status, Executing) <= TasksWith(run[0].instances[w].instance.status, Executing)
  {
    if k > 0 {
      RunWinds(run, steps, w, k - 1);
      StepOfRunWinds(run, steps, w, k - 1);
    }
  }

  lemma StepOfRunWinds(run: seq<State>, steps: seq<Step>, w: int, k: nat)
    requires Run(run, steps) && Inv(run[0]) && Ends(run[0]) && k < |steps|
    requires Winding(run[k], w) && w in run[k + 1].instances
    ensures WoundDown(run[k], run[k + 1], steps[k], w)
  {
    RunKeeps(run, steps, k);
    StepWinds(run[k], steps[k], w);
  }

  /**
   * In every run from a cancelled instance, callbacks made and callbacks to come add up to those
   * outstanding at the cancel, whatever the other threads do; and none of its tasks starts.
   */
  lemma EndsAfterOutstandingCallbacks(run: seq<State>, steps: seq<Step>, w: int, k: nat)
    requires Run(run, steps) && Inv(run[0]) && Ends(run[0]) && Winding(run[0], w) && k < |run|
    requires forall n :: 0 <= n <= k ==> w in run[n].instances
    ensures Left(run[k], w) == Left(run[0], w) - Callbacks(run, steps, w, k)
    ensures TasksWith(run[k].instances[w].instance.status, Executing) <= TasksWith(run[0].instances[w].instance.status, Executing)
    ensures run[k].instances[w].instance.Ended() <==> Callbacks(run, steps, w, k) == Left(run[0], w)
  {
    RunWinds(run, steps, w, k);
    RunKeeps(run, steps, k);
    NoneLeftEnds(run[k], w);
  }

  lemma NoneLeftEnds(s: State, w: int)
    requires Inv(s) && Winding(s, w)
    ensures s.instances[w].instance.Ended() <==> Left(s, w) == 0
  {
    WindingIs(s, w);
    LastCallbackEnds(s.instances[w].instance);
  }
}
