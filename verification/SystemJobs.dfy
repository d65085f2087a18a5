/** Jobs in every run: their subjobs are launched at most once, and only after they have succeeded. */
module SystemJobs {
  import opened RetryPlan
  import opened WorkflowState
  import opened QueueState
  import opened SystemState
  import opened SystemPlaces
  import opened SystemSafety

  function Launched(s: State, w: int): set<int> {
    if w in s.instances then s.instances[w].instance.launched else {}
  }

  /**
   * The step runs the subjobs of a job: Start does it for the root, and TaskStop for the job of
   * the stopped task when, with this result, every task of the job is TERMINATED with 0.
   */
  ghost predicate Launches(s: State, step: Step, w: int, job: int) {
    match step
    case StartStep(v, _, _, _) => v == w && job == 0
    case StopStep(retval, output, _) =>
      && s.gatherer.Stopping? && s.gatherer.entry.instance == w && s.Reachable(s.gatherer.entry)
      && var i := s.instances[w].instance;
         i.doc.jobOf[s.gatherer.entry.task] == job && i.TakeResult(s.gatherer.entry.task, retval, output).0.JobSucceeded(job)
    case _ => false
  }

  lemma StopLaunches(s: State, retval: int, output: OutputOutcome, o: Oracle, w: int)
    requires Inv(s) && s.CanStop()
    ensures Launched(s, w) <= Launched(s.StopTask(retval, output, o), w)
  {
    var e := s.gatherer.entry;
    StoppingIsExecuting(s);
    InHandMeans(s, e, WithTid);
    LaunchedOnceAllSucceeded(s.instances[e.instance].instance, e.task, retval, output, o);
  }

  lemma RestartLaunchesNothing(s: State, e: Entry, w: int)
    requires s.Unlocked(e.instance)
    ensures Launched(s, w) == Launched(s.Restart(e), w)
  {
  }

  lemma ExecuteLaunchesNothing(s: State, outcome: ForkOutcome, w: int)
    requires s.CanExecute()
    ensures Launched(s, w) == Launched(s.ExecuteTask(outcome), w)
  {
  }

  lemma CallLaunchesNothing(s: State, v: int, w: int)
    requires s.CanCall(v)
    ensures Launched(s, w) == Launched(s.MakeCall(v), w)
  {
  }

  lemma CloseLaunchesNothing(s: State, v: int, w: int)
    requires s.CanClose(v)
    ensures Launched(s, w) == Launched(s.Close(v), w)
  {
  }

  lemma CancelLaunchesNothing(s: State, v: int, w: int)
    requires s.CanCancel(v)
    ensures Launched(s, w) == Launched(s.Cancel(v), w)
  {
  }

  lemma StartLaunchesOther(s: State, v: int, doc: Document, attributes: map<int, Attributes>, o: Oracle, w: int)
    requires s.CanStart(v, doc) && v != w
    ensures Launched(s, w) == Launched(s.Start(v, doc, attributes, o), w)
  {
  }

  lemma DeleteLaunchesNothing(s: State, v: int, w: int)
    requires v != w
    ensures Launched(s, w) == Launched(s.Delete(v), w)
  {
  }

  /** The steps between the pool and its threads leave every instance alone. */
  lemma PoolLaunchesNothing(s: State, step: Step, w: int)
    requires Can(s, step) && !step.StartStep? && !step.CallStep? && !step.CloseStep? && !step.DeleteStep? && !step.CancelStep?
    requires !step.RestartStep? && !step.ExecuteStep? && !step.StopStep?
    ensures Do(s, step).instances == s.instances
  {
  }

  lemma OthersLaunchNothing(s: State, step: Step, w: int)
    requires s.instances.Keys <= s.started && Can(s, step) && w in s.instances && w in Do(s, step).instances
    requires !step.StopStep? && !step.RestartStep? && !step.ExecuteStep?
    ensures Launched(s, w) == Launched(Do(s, step), w)
  {
    match step
    case CallStep(v) => CallLaunchesNothing(s, v, w);
    case CloseStep(v) => CloseLaunchesNothing(s, v, w);
    case CancelStep(v) => CancelLaunchesNothing(s, v, w);
    case StartStep(v, doc, attributes, o) => StartLaunchesOther(s, v, doc, attributes, o, w);
    case DeleteStep(v) => DeleteLaunchesNothing(s, v, w);
    case _ => PoolLaunchesNothing(s, step, w);
  }

  lemma StepLaunches(s: State, step: Step, w: int)
    requires Inv(s) && Can(s, step) && w in s.instances && w in Do(s, step).instances
    ensures Launched(s, w) <= Launched(Do(s, step), w)
  {
    match step
    case StopStep(retval, output, o) => StopLaunches(s, retval, output, o, w);
    case RestartStep(e) => RestartLaunchesNothing(s, e, w);
    case ExecuteStep(outcome) => ExecuteLaunchesNothing(s, outcome, w);
    case _ => OthersLaunchNothing(s, step, w);
  }

  lemma StepOfRunLaunches(run: seq<State>, steps: seq<Step>, w: int, k: nat)
    requires Run(run, steps) && Inv(run[0]) && Ends(run[0]) && k < |steps| && w in run[k].instances && w in run[k + 1].instances
    ensures Launched(run[k], w) <= Launched(run[k + 1], w)
  {
    RunKeeps(run, steps, k);
    StepLaunches(run[k], steps[k], w);
  }

  lemma {:induction false} LaunchedStays(run: seq<State>, steps: seq<Step>, w: int, job: int, k: nat, l: nat)
    requires Run(run, steps) && Inv(run[0]) && Ends(run[0]) && k <= l < |run|
    requires forall n :: k <= n <= l ==> w in run[n].instances
    requires job in Launched(run[k], w)
    ensures job in Launched(run[l], w)
    decreases l - k
  {
    if k < l {
      StepOfRunLaunches(run, steps, w, k);
      LaunchedStays(run, steps, w, job, k + 1, l);
    }
  }

  lemma StartLaunchesRoot(s: State, w: int, doc: Document, attributes: map<int, Attributes>, o: Oracle)
    requires s.CanStart(w, doc)
    ensures Launched(s.Start(w, doc, attributes, o), w) == {0}
  {
    var i := NewInstance(doc, attributes, w in s.cancelled);
    assert TasksWith(i.status, Queued) == {} && TasksWith(i.status, Executing) == {};
    LaunchOnlyQueues(i, 0, o);
  }

  /** What TaskStop launches had not been launched before. */
  lemma StopLaunchesNew(s: State, retval: int, output: OutputOutcome, o: Oracle, w: int, job: int)
    requires Inv(s) && s.CanStop() && Launches(s, StopStep(retval, output, o), w, job)
    ensures job !in Launched(s, w) && job in Launched(s.StopTask(retval, output, o), w)
  {
    var e := s.gatherer.entry;
    StoppingIsExecuting(s);
    InHandMeans(s, e, WithTid);
    var i := s.instances[w].instance;
    LaunchedOnceAllSucceeded(i, e.task, retval, output, o);
    var (a, c) := i.TakeResult(e.task, retval, output);
    ResultIsTaken(i, e.task, retval, output);
    ResultCounts(i, a, c, e.task);
    LaunchOnlyQueues(a, job, o);
  }

  /** A launch happens to an instance in memory, of a job not launched before. */
  lemma LaunchIsFirst(s: State, step: Step, w: int, job: int)
    requires Inv(s) && Can(s, step) && Launches(s, step, w, job)
    ensures job !in Launched(s, w) && job in Launched(Do(s, step), w)
    ensures w in Do(s, step).started && (w in s.started ==> w in s.instances)
  {
    match step
    case StartStep(v, doc, attributes, o) => StartLaunchesRoot(s, w, doc, attributes, o);
    case StopStep(retval, output, o) => StopLaunchesNew(s, retval, output, o, w, job);
  }

  /** An instance that is gone stays gone, and its id stays used. */
  lemma StepStarted(s: State, step: Step, w: int)
    requires s.instances.Keys <= s.started && Can(s, step) && w in s.started
    ensures w in Do(s, step).started && (w in Do(s, step).instances ==> w in s.instances)
  {
  }

  lemma {:induction false} GoneStaysGone(run: seq<State>, steps: seq<Step>, w: int, k: nat, l: nat)
    requires Run(run, steps) && Inv(run[0]) && Ends(run[0]) && k <= l < |run| && w in run[k].started
    ensures w in run[l].started && (w in run[l].instances ==> w in run[k].instances)
    decreases l - k
  {
    if k < l {
      RunKeeps(run, steps, k);
      StepStarted(run[k], steps[k], w);
      GoneStaysGone(run, steps, w, k + 1, l);
    }
  }

  /** In every run the subjobs of a job are run at most once: no step launches a job that an earlier one launched. */
  lemma LaunchedAtMostOnce(run: seq<State>, steps: seq<Step>, w: int, job: int, k: nat, l: nat)
    requires Run(run, steps) && Inv(run[0]) && Ends(run[0]) && k < l < |steps|
    requires Launches(run[k], steps[k], w, job)
    ensures !Launches(run[l], steps[l], w, job)
  {
    LaunchAtStep(run, steps, w, job, k);
    GoneStaysGone(run, steps, w, k + 1, l);
    if Launches(run[l], steps[l], w, job) {
      LaunchAtStep(run, steps, w, job, l);
      forall n | k + 1 <= n <= l ensures w in run[n].instances {
        GoneStaysGone(run, steps, w, k + 1, n);
        GoneStaysGone(run, steps, w, n, l);
      }
      LaunchedStays(run, steps, w, job, k + 1, l);
    }
  }

  lemma LaunchAtStep(run: seq<State>, steps: seq<Step>, w: int, job: int, k: nat)
    requires Run(run, steps) && Inv(run[0]) && Ends(run[0]) && k < |steps| && Launches(run[k], steps[k], w, job)
    ensures job !in Launched(run[k], w) && job in Launched(run[k + 1], w)
    ensures w in run[k + 1].started && (w in run[k].started ==> w in run[k].instances)
  {
    RunKeeps(run, steps, k);
    LaunchIsFirst(run[k], steps[k], w, job);
  }

  /** And every launch finds all the tasks of its job TERMINATED with 0. */
  lemma LaunchFindsAllSucceeded(run: seq<State>, steps: seq<Step>, w: int, job: int, t: int, k: nat)
    requires Run(run, steps) && Inv(run[0]) && Ends(run[0]) && k < |steps| && Launches(run[k], steps[k], w, job)
    ensures w in run[k + 1].instances
    ensures var i := run[k + 1].instances[w].instance;
      0 <= job < |i.doc.jobs| && (t in i.doc.jobs[job].tasks ==> StatusIn(i.status, t) == Terminated(0))
  {
    LaunchAtStep(run, steps, w, job, k);
    LaunchedHasSucceeded(run, steps, w, job, t, k + 1);
  }

  /** And a job whose subjobs have been launched has succeeded, and stays so. */
  lemma LaunchedHasSucceeded(run: seq<State>, steps: seq<Step>, w: int, job: int, t: int, k: nat)
    requires Run(run, steps) && Inv(run[0]) && Ends(run[0]) && k < |run| && job in Launched(run[k], w)
    ensures var i := run[k].instances[w].instance;
      0 <= job < |i.doc.jobs| && (t in i.doc.jobs[job].tasks ==> StatusIn(i.status, t) == Terminated(0))
  {
    RunKeeps(run, steps, k);
    LaunchedMeans(run[k], w, job);
  }

  lemma LaunchedMeans(s: State, w: int, job: int)
    requires CellsOk(s) && job in Launched(s, w)
    ensures var i := s.instances[w].instance;
      0 <= job < |i.doc.jobs| && forall t :: t in i.doc.jobs[job].tasks ==> StatusIn(i.status, t) == Terminated(0)
  {
    assert CellOk(s.instances[w], |s.pool.queues|);
    assert s.instances[w].instance.JobSucceeded(job);
  }
}
