/** Errors of a workflow instance: no aborted task goes uncounted. */
module WorkflowErrors {
  import opened WorkflowState

  function AbortedTasks(i: Instance): int {
    |TasksWith(i.status, Aborted)|
  }

  /** Every task newly aborted is one more error, if not the only kind. */
  predicate CountsAborts(i: Instance, j: Instance) {
    j.errors - AbortedTasks(j) >= i.errors - AbortedTasks(i) && j.errors >= i.errors
  }

  /** A task gets a new status: its abort is counted. */
  lemma OneStatus(i: Instance, j: Instance, t: int)
    requires forall u :: u != t ==> StatusIn(j.status, u) == StatusIn(i.status, u)
    requires j.errors >= i.errors + if StatusIn(j.status, t) == Aborted && StatusIn(i.status, t) != Aborted then 1 else 0
    ensures CountsAborts(i, j)
  {
    SetsAfter(i.status, j.status, t, Aborted);
  }

  lemma EnqueueCounts(i: Instance, t: int)
    ensures CountsAborts(i, i.EnqueueTask(t).0)
  {
    OneStatus(i, i.EnqueueTask(t).0, t);
  }

  lemma {:induction false} RunCounts(i: Instance, tasks: seq<int>, o: Oracle)
    ensures CountsAborts(i, i.RunTasks(tasks, o).0)
    decreases |tasks|
  {
    if tasks != [] {
      if StatusIn(i.status, tasks[0]).Terminated? {
        RunCounts(i, tasks[1..], o);
      } else if tasks[0] !in o.badInputs {
        EnqueueCounts(i, tasks[0]);
        RunCounts(i.EnqueueTask(tasks[0]).0, tasks[1..], o);
      }
    }
  }

  lemma {:induction false} SubjobsCount(i: Instance, subjobs: seq<int>, o: Oracle)
    ensures CountsAborts(i, i.RunSubjobs(subjobs, o).0)
    decreases |subjobs|
  {
    if subjobs != [] {
      var k := subjobs[0];
      if k in o.conditionErrors {
      } else if k in o.conditionsFalse {
        SubjobsCount(i, subjobs[1..], o);
      } else {
        var tasks := if 0 <= k < |i.doc.jobs| then i.doc.jobs[k].tasks else [];
        RunCounts(i, tasks, o);
        var (j, calls, ok) := i.RunTasks(tasks, o);
        SubjobsCount(j, subjobs[1..], o);
      }
    }
  }

  lemma ExecuteCountsAborts(i: Instance, t: int, outcome: ForkOutcome)
    ensures CountsAborts(i, i.TaskExecute(t, outcome))
  {
    OneStatus(i, i.TaskExecute(t, outcome), t);
  }

  lemma RestartCountsAborts(i: Instance, t: int)
    ensures CountsAborts(i, i.TaskRestart(t).0)
  {
    EnqueueCounts(i, t);
  }

  lemma ResultCountsAborts(i: Instance, t: int, retval: int, output: OutputOutcome)
    ensures CountsAborts(i, i.TakeResult(t, retval, output).0)
  {
    var (j, calls) := i.TakeResult(t, retval, output);
    ResultIsTaken(i, t, retval, output);
    OneStatus(i, j, t);
  }

  lemma StopCounts(i: Instance, t: int, retval: int, output: OutputOutcome, o: Oracle)
    requires i.doc.Valid() && t in i.doc.jobOf
    ensures CountsAborts(i, i.TaskStop(t, retval, output, o).0)
  {
    var (j, calls) := i.TakeResult(t, retval, output);
    var job := i.doc.jobOf[t];
    ResultCountsAborts(i, t, retval, output);
    ResultIsTaken(i, t, retval, output);
    SubjobsCount(j.(launched := j.launched + {job}), j.doc.jobs[job].subjobs, o);
  }

  /** A section an instance can go through. */
  datatype Section =
    | Starting(o: Oracle)
    | Cancelling
    | Restarting(t: int)
    | Executed(t: int, outcome: ForkOutcome)
    | Stopping(t: int, retval: int, output: OutputOutcome, o: Oracle)

  function Through(i: Instance, s: Section): Instance
    requires i.doc.Valid() && (s.Stopping? ==> s.t in i.doc.jobOf)
  {
    match s
    case Starting(o) => i.Start(o).0
    case Cancelling => i.Cancel()
    case Restarting(t) => i.TaskRestart(t).0
    case Executed(t, outcome) => i.TaskExecute(t, outcome)
    case Stopping(t, retval, output, o) => i.TaskStop(t, retval, output, o).0
  }

  /** Whatever sections an instance goes through, it ends with at least as many errors as aborted tasks. */
  lemma {:induction false} AbortsAreErrors(states: seq<Instance>, sections: seq<Section>, k: nat)
    requires |states| == |sections| + 1 && k < |states|
    requires states[0].errors == 0 && TasksWith(states[0].status, Aborted) == {}
    requires forall n :: 0 <= n < |sections| ==>
      && states[n].doc.Valid() && (sections[n].Stopping? ==> sections[n].t in states[n].doc.jobOf)
      && states[n + 1] == Through(states[n], sections[n])
    ensures AbortedTasks(states[k]) <= states[k].errors
  {
    if k > 0 {
      AbortsAreErrors(states, sections, k - 1);
      SectionCounts(states[k - 1], sections[k - 1]);
    }
  }

  lemma SectionCounts(i: Instance, s: Section)
    requires i.doc.Valid() && (s.Stopping? ==> s.t in i.doc.jobOf)
    ensures CountsAborts(i, Through(i, s))
  {
    match s
    case Starting(o) => SubjobsCount(i.(launched := i.launched + {0}), i.doc.jobs[0].subjobs, o);
    case Cancelling =>
    case Restarting(t) => RestartCountsAborts(i, t);
    case Executed(t, outcome) => ExecuteCountsAborts(i, t, outcome);
    case Stopping(t, retval, output, o) => StopCounts(i, t, retval, output, o);
  }
}
