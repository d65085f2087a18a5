/** The retries of a failing task in every run of the whole program. */
module SystemRetries {
  import opened RetryPlan
  import opened WorkflowState
  import opened WorkflowLaunch
  import opened WorkflowErrors
  import opened WorkflowRetries
  import opened QueueState
  import opened SystemState
  import opened SystemPlaces
  import opened SystemSafety

  /** What a step is to an instance: one of its sections, or nothing. */
  function SectionOf(s: State, step: Step, w: int): Option<Section> {
    match step
    case CancelStep(v) => if v == w then Some(Cancelling) else None
    case RestartStep(e) => if e.instance == w then Some(Restarting(e.task)) else None
    case ExecuteStep(outcome) =>
      if s.forker.Registered? && s.HasEntry(s.forker.tid) && s.pool.tids[s.forker.tid].entry.instance == w
      then Some(Executed(s.pool.tids[s.forker.tid].entry.task, outcome)) else None
    case StopStep(retval, output, o) =>
      if s.gatherer.Stopping? && s.gatherer.entry.instance == w
      then Some(Section.Stopping(s.gatherer.entry.task, retval, output, o)) else None
    case _ => None
  }

  ghost predicate GoesOn(s: State, step: Step, s': State, w: int)
    requires w in s.instances && w in s'.instances
  {
    Goes(s.instances[w].instance, SectionOf(s, step, w), s'.instances[w].instance)
  }

  lemma RestartGoes(s: State, e: Entry, w: int)
    requires Inv(s) && w in s.instances && e in s.inHand && s.Unlocked(e.instance)
    ensures GoesOn(s, RestartStep(e), s.Restart(e), w)
  {
    assert PlacedAt(s, e);
    InHandMeans(s, e, InRetrier);
  }

  lemma ExecuteGoes(s: State, outcome: ForkOutcome, w: int)
    requires Inv(s) && w in s.instances && s.CanExecute()
    ensures GoesOn(s, ExecuteStep(outcome), s.ExecuteTask(outcome), w)
  {
    RegisteredIsQueued(s);
    InHandMeans(s, s.pool.tids[s.forker.tid].entry, InQueue);
  }

  lemma StopGoes(s: State, retval: int, output: OutputOutcome, o: Oracle, w: int)
    requires Inv(s) && w in s.instances && s.CanStop()
    ensures GoesOn(s, StopStep(retval, output, o), s.StopTask(retval, output, o), w)
  {
    StoppingIsExecuting(s);
    InHandMeans(s, s.gatherer.entry, WithTid);
  }

  lemma CancelGoes(s: State, v: int, w: int)
    requires Inv(s) && w in s.instances && s.CanCancel(v)
    ensures GoesOn(s, CancelStep(v), s.Cancel(v), w)
  {
    assert CellOk(s.instances[w], |s.pool.queues|);
  }

  lemma CallGoes(s: State, v: int, w: int)
    requires w in s.instances && s.CanCall(v)
    ensures GoesOn(s, CallStep(v), s.MakeCall(v), w)
  {
  }

  lemma CloseGoes(s: State, v: int, w: int)
    requires w in s.instances && s.CanClose(v)
    ensures GoesOn(s, CloseStep(v), s.Close(v), w)
  {
  }

  lemma StartGoes(s: State, v: int, doc: Document, attributes: map<int, Attributes>, o: Oracle, w: int)
    requires s.instances.Keys <= s.started && w in s.instances && s.CanStart(v, doc)
    ensures GoesOn(s, StartStep(v, doc, attributes, o), s.Start(v, doc, attributes, o), w)
  {
  }

  lemma OthersGo(s: State, step: Step, w: int)
    requires Can(s, step) && w in s.instances && w in Do(s, step).instances
    requires !step.RestartStep? && !step.ExecuteStep? && !step.StopStep?
    requires !step.StartStep? && !step.CallStep? && !step.CloseStep? && !step.CancelStep?
    ensures GoesOn(s, step, Do(s, step), w)
  {
  }

  /** Every step of every thread is a section of the instance, which its state allows, or does nothing to it. */
  lemma StepIsSection(s: State, step: Step, w: int)
    requires Inv(s) && Can(s, step) && w in s.instances && w in Do(s, step).instances
    ensures GoesOn(s, step, Do(s, step), w)
  {
    match step
    case RestartStep(e) => RestartGoes(s, e, w);
    case ExecuteStep(outcome) => ExecuteGoes(s, outcome, w);
    case StopStep(retval, output, o) => StopGoes(s, retval, output, o, w);
    case CancelStep(v) => CancelGoes(s, v, w);
    case CallStep(v) => CallGoes(s, v, w);
    case CloseStep(v) => CloseGoes(s, v, w);
    case StartStep(v, doc, attributes, o) => StartGoes(s, v, doc, attributes, o, w);
    case _ => OthersGo(s, step, w);
  }

  /** And before its first section it has been started: with its document and attributes, and what Start launches. */
  lemma StartIsLaunch(s: State, w: int, doc: Document, attributes: map<int, Attributes>, o: Oracle)
    requires s.CanStart(w, doc)
    ensures var c := s.Start(w, doc, attributes, o).instances[w];
      Launched(NewInstance(doc, attributes, w in s.cancelled), c.instance, c.Pending(), doc.jobs[0].subjobs, o) && !c.ended
  {
    StartDecides(doc, attributes, w in s.cancelled, o);
  }

  /** The instance is in memory throughout. */
  ghost predicate Lives(run: seq<State>, w: int) {
    forall n :: 0 <= n < |run| ==> w in run[n].instances
  }

  ghost function StatesOf(run: seq<State>, w: int): seq<Instance>
    requires Lives(run, w)
  {
    seq(|run|, n requires 0 <= n < |run| => run[n].instances[w].instance)
  }

  function SectionsOf(run: seq<State>, steps: seq<Step>, w: int): seq<Option<Section>>
    requires |steps| < |run|
  {
    seq(|steps|, n requires 0 <= n < |steps| => SectionOf(run[n], steps[n], w))
  }

  /** A run of the program is, for each instance, a run of its sections. */
  lemma RunIsSections(run: seq<State>, steps: seq<Step>, w: int)
    requires Run(run, steps) && Inv(run[0]) && Ends(run[0]) && Lives(run, w)
    ensures Sections(StatesOf(run, w), SectionsOf(run, steps, w))
  {
    var states, sections := StatesOf(run, w), SectionsOf(run, steps, w);
    assert CellOk(run[0].instances[w], |run[0].pool.queues|);
    forall n | 0 <= n < |sections| ensures Goes(states[n], sections[n], states[n + 1]) {
      StepOfRunIsSection(run, steps, w, n);
    }
  }

  lemma StepOfRunIsSection(run: seq<State>, steps: seq<Step>, w: int, n: nat)
    requires Run(run, steps) && Inv(run[0]) && Ends(run[0]) && n < |steps| && w in run[n].instances && w in run[n + 1].instances
    ensures GoesOn(run[n], steps[n], run[n + 1], w)
  {
    RunKeeps(run, steps, n);
    assert Can(run[n], steps[n]) && run[n + 1] == Do(run[n], steps[n]);
    StepIsSection(run[n], steps[n], w);
  }

  /**
   * In every run of the program, over all interleavings, a task that fails every time under a
   * schedule of positive delays and times is forked exactly once and once more for every retry of
   * every level, before it is finished; and only then it has counted one error.
   */
  lemma FailingTaskIsForked(run: seq<State>, steps: seq<Step>, w: int, t: int, retval: int, levels: seq<Level>)
    requires Run(run, steps) && Inv(run[0]) && Ends(run[0]) && Lives(run, w)
    requires FailsAlways(StatesOf(run, w), SectionsOf(run, steps, w), t, retval)
    requires var i := run[0].instances[w].instance;
      && (StatusIn(i.status, t) == Queued || StatusIn(i.status, t) == Fresh)
      && i.AttributesOf(t).schedule == Some(levels) && i.AttributesOf(t).level == 0 && i.AttributesOf(t).retval == None
    requires forall l :: 0 <= l < |levels| ==> levels[l].delay > 0 && levels[l].times > 0
    ensures Sections(StatesOf(run, w), SectionsOf(run, steps, w))
    ensures var h := HistoryOf(StatesOf(run, w), SectionsOf(run, steps, w), |steps|, t);
      if Finished(run[|steps|].instances[w].instance, t) then h.delays == Plan(levels) && h.forks == 1 + SumOfTimes(levels) && h.errors == 1
      else h.delays <= Plan(levels) && h.forks <= 1 + SumOfTimes(levels) && h.errors == 0
  {
    RunIsSections(run, steps, w);
    FailingTaskFollowsPlan(StatesOf(run, w), SectionsOf(run, steps, w), |steps|, t, retval);
    var a := run[0].instances[w].instance.AttributesOf(t);
    ExecutedOncePlusAllRetries(a, levels, retval);
    ScheduleIsFollowed(a, levels, retval);
  }
}
