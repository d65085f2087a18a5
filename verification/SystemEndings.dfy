/** An instance that has ended is always in exactly one thread's hand, to be deleted. */
module SystemEndings {
  import opened RetryPlan
  import opened WorkflowState
  import opened QueueState
  import opened PoolState
  import opened SystemState
  import opened SystemPlaces
  import opened SystemSafety

  /** The forker has seen the instance end, and has yet to give back the id of the task it was refused. */
  ghost predicate InForkersHand(s: State, w: int) {
    && s.forker.Refused? && s.forker.terminated
    && s.HasEntry(s.forker.tid) && s.pool.tids[s.forker.tid].entry.instance == w
  }

  /** Every instance in memory that has ended is about to be deleted by a thread that has seen it end. */
  ghost predicate Due(s: State) {
    forall w :: w in s.instances && s.instances[w].ended ==> w in s.doomed || InForkersHand(s, w)
  }

  lemma NothingIsDue(s: State)
    requires Initial(s)
    ensures Due(s)
  {
  }

  /** The steps that change neither the forker's hand nor who has ended. */
  lemma StaysDue(s: State, s': State)
    requires Due(s) && s.doomed <= s'.doomed
    requires forall w :: InForkersHand(s, w) ==> InForkersHand(s', w)
    requires forall w :: w in s'.instances && s'.instances[w].ended ==> w in s.instances && s.instances[w].ended
    ensures Due(s')
  {
  }

  /** A child's id is not the one in the forker's hand. */
  lemma GatherDue(s: State, tid: nat)
    requires Inv(s) && Due(s) && s.CanGather(tid)
    ensures Due(s.Gather(tid))
  {
    StaysDue(s, s.Gather(tid));
  }

  lemma ReleaseDue(s: State)
    requires Inv(s) && Due(s) && s.CanRelease()
    ensures Due(s.ReleaseTask())
  {
  }

  lemma ExecuteDue(s: State, outcome: ForkOutcome)
    requires Inv(s) && Due(s) && s.CanExecute()
    ensures Due(s.ExecuteTask(outcome))
  {
    RegisteredIsQueued(s);
    InHandMeans(s, s.pool.tids[s.forker.tid].entry, InQueue);
  }

  lemma StartDue(s: State, w: int, doc: Document, attributes: map<int, Attributes>, o: Oracle)
    requires Inv(s) && Due(s) && s.CanStart(w, doc)
    ensures Due(s.Start(w, doc, attributes, o))
  {
    StaysDue(s, s.Start(w, doc, attributes, o));
  }

  lemma CallDue(s: State, w: int)
    requires Due(s) && s.CanCall(w)
    ensures Due(s.MakeCall(w))
  {
    StaysDue(s, s.MakeCall(w));
  }

  lemma SectionDue(s: State, w: int, i: Instance, section: Option<seq<Call>>)
    requires Due(s) && w in s.instances
    ensures Due(s.WithInstance(w, i, section))
  {
    StaysDue(s, s.WithInstance(w, i, section));
  }

  lemma CloseDue(s: State, w: int)
    requires Due(s) && s.CanClose(w)
    ensures Due(s.Close(w))
  {
  }

  lemma StepDue(s: State, step: Step)
    requires Inv(s) && Due(s) && Can(s, step)
    ensures Due(Do(s, step))
  {
    match step
    case StartStep(w, doc, attributes, o) => StartDue(s, w, doc, attributes, o);
    case CallStep(w) => CallDue(s, w);
    case CloseStep(w) => CloseDue(s, w);
    case ExecuteStep(outcome) => ExecuteDue(s, outcome);
    case ReleaseStep => ReleaseDue(s);
    case GatherStep(tid) => GatherDue(s, tid);
    case CancelStep(w) =>
      if w in s.instances { SectionDue(s, w, s.instances[w].instance.Cancel(), None); }
    case RestartStep(e) =>
      var (i, calls) := s.instances[e.instance].instance.TaskRestart(e.task);
      SectionDue(s, e.instance, i, Some(calls));
    case StopStep(retval, output, o) =>
      var e := s.gatherer.entry;
      var (i, calls) := s.instances[e.instance].instance.TaskStop(e.task, retval, output, o);
      SectionDue(s, e.instance, i, Some(calls));
    case _ =>
  }

  lemma StepOfRunDue(run: seq<State>, steps: seq<Step>, k: nat)
    requires Run(run, steps) && Inv(run[0]) && Ends(run[0]) && k < |steps| && Due(run[k])
    ensures Due(run[k + 1])
  {
    RunKeeps(run, steps, k);
    StepDue(run[k], steps[k]);
  }

  lemma {:induction false} RunDue(run: seq<State>, steps: seq<Step>, k: nat)
    requires Run(run, steps) && Inv(run[0]) && Ends(run[0]) && Due(run[0]) && k < |run|
    ensures Due(run[k])
  {
    if k > 0 {
      RunDue(run, steps, k - 1);
      StepOfRunDue(run, steps, k - 1);
    }
  }

  /**
   * In every run an instance in memory has ended if and only if a thread is to delete it: it can be
   * deleted at once, or when the forker has given back the id it holds; never both.
   */
  lemma EndedIffToBeDeleted(run: seq<State>, steps: seq<Step>, w: int, k: nat)
    requires Run(run, steps) && Inv(run[0]) && Ends(run[0]) && Due(run[0]) && k < |run| && w in run[k].instances
    ensures var s := run[k];
      && (s.instances[w].ended <==> Can(s, DeleteStep(w)) || InForkersHand(s, w))
      && !(Can(s, DeleteStep(w)) && InForkersHand(s, w))
      && (InForkersHand(s, w) ==> Can(s, ReleaseStep) && Can(Do(s, ReleaseStep), DeleteStep(w)))
  {
    RunDue(run, steps, k);
    RunKeeps(run, steps, k);
  }

  /** And deleting it takes it out of memory and out of every hand. */
  lemma DeletedIsGone(s: State, w: int)
    requires Inv(s) && Can(s, DeleteStep(w))
    ensures var s' := Do(s, DeleteStep(w));
      w !in s'.instances && !Can(s', DeleteStep(w)) && !InForkersHand(s', w) && forall e: Entry :: e.instance == w ==> !Refers(s', e)
  {
    DeleteKeeps(s, w);
    var s' := s.Delete(w);
    forall e: Entry | e.instance == w ensures !Refers(s', e) {
      if Refers(s', e) {
        NoDanglingReference(s', e);
      }
    }
  }
}
