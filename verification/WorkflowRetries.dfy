/** A task that fails every time, followed through all the sections of its instance, whatever else happens in between. */
module WorkflowRetries {
  import opened RetryPlan
  import opened WorkflowState
  import opened WorkflowLaunch
  import opened WorkflowErrors

  /** The section can begin: its task is where a callback finds it. */
  ghost predicate Ready(i: Instance, s: Section) {
    && i.doc.Valid()
    && match s
       case Starting(_) => false
       case Cancelling => true
       case Restarting(t) => t in i.waiting
       case Executed(t, _) => StatusIn(i.status, t) == Queued
       case Stopping(t, _, _, _) => StatusIn(i.status, t) == Executing && t in i.doc.jobOf
  }

  function CallsOf(i: Instance, s: Section): seq<Call>
    requires i.doc.Valid() && (s.Stopping? ==> s.t in i.doc.jobOf)
  {
    match s
    case Starting(o) => i.Start(o).1
    case Restarting(t) => i.TaskRestart(t).1
    case Stopping(t, retval, output, o) => i.TaskStop(t, retval, output, o).1
    case _ => []
  }

  /** One section of the instance, or none. */
  ghost predicate Goes(i: Instance, s: Option<Section>, j: Instance) {
    match s
    case None => j == i
    case Some(section) => Ready(i, section) && j == Through(i, section)
  }

  /** The sections of a started instance, one after the other. */
  ghost predicate Sections(states: seq<Instance>, sections: seq<Option<Section>>) {
    && |states| == |sections| + 1 && states[0].Consistent()
    && forall n {:trigger sections[n]} :: 0 <= n < |sections| ==> Goes(states[n], sections[n], states[n + 1])
  }

  /** In this section nothing else happens to the task than that it is forked, or fails. */
  predicate Failing(s: Section, t: int, retval: int) {
    && s != Cancelling
    && (s.Executed? && s.t == t ==> s.outcome.Forked?)
    && (s.Stopping? && s.t == t ==> s.retval == retval)
  }

  /** The task fails with this value whenever it is executed, and the instance is not cancelled. */
  ghost predicate FailsAlways(states: seq<Instance>, sections: seq<Option<Section>>, t: int, retval: int) {
    && retval != 0 && |states| > 0 && t in states[0].doc.queueOf && !states[0].cancelling
    && forall n :: 0 <= n < |sections| && sections[n].Some? ==> Failing(sections[n].value, t, retval)
  }

  /** The delays for which a task is handed to the retrier. */
  function DelaysOf(calls: seq<Call>, t: int): seq<int> {
    if calls == [] then []
    else (if calls[0].RetryCall? && calls[0].task == t then [calls[0].after] else []) + DelaysOf(calls[1..], t)
  }

  predicate About(s: Section, t: int) {
    match s
    case Restarting(u) => u == t
    case Executed(u, _) => u == t
    case Stopping(u, _, _, _) => u == t
    case _ => false
  }

  /** What has happened to a task: the delays it has waited, how often it has been forked, and the errors its own sections have counted. */
  datatype History = History(delays: seq<int>, forks: nat, errors: int)

  function AddSection(h: History, i: Instance, s: Section, t: int): History
    requires i.doc.Valid() && (s.Stopping? ==> s.t in i.doc.jobOf)
  {
    History(
      h.delays + DelaysOf(CallsOf(i, s), t),
      h.forks + (if s.Executed? && s.t == t && StatusIn(Through(i, s).status, t) == Executing then 1 else 0),
      h.errors + (if About(s, t) then Through(i, s).errors - i.errors else 0))
  }

  ghost function HistoryOf(states: seq<Instance>, sections: seq<Option<Section>>, k: nat, t: int): History
    requires Sections(states, sections) && k <= |sections|
  {
    if k == 0 then History([], 0, 0)
    else
      assert Goes(states[k - 1], sections[k - 1], states[k - 1 + 1]);
      Gone(HistoryOf(states, sections, k - 1, t), states[k - 1], sections[k - 1], t)
  }

  function Gone(h: History, i: Instance, s: Option<Section>, t: int): History
    requires s.Some? ==> i.doc.Valid() && (s.value.Stopping? ==> s.value.t in i.doc.jobOf)
  {
    match s
    case None => h
    case Some(section) => AddSection(h, i, section, t)
  }

  /** The task has run and nothing more will happen to it. */
  predicate Finished(i: Instance, t: int) {
    StatusIn(i.status, t).Terminated? && t !in i.waiting
  }

  predicate IsOut(i: Instance, t: int) {
    StatusIn(i.status, t) == Executing || Finished(i, t)
  }

  /** Where a failing task can be, and what must have happened to it if it had these attributes at first. */
  ghost predicate Follows(i: Instance, h: History, t: int, retval: int, a: Attributes) {
    && i.Consistent() && !i.cancelling && t in i.doc.queueOf && StatusIn(i.status, t) != Aborted
    && h.forks == |h.delays| + (if IsOut(i, t) then 1 else 0)
    && (!Finished(i, t) ==> h.errors == 0 && (RetriedForEver(i.AttributesOf(t), retval) <==> RetriedForEver(a, retval)))
    && (!Finished(i, t) && !RetriedForEver(a, retval) ==>
      var (delays, end) := FailingRun(i.AttributesOf(t), retval);
      FailingRun(a, retval) == (h.delays + delays, end))
    && (Finished(i, t) ==>
      && !RetriedForEver(a, retval) && FailingRun(a, retval).0 == h.delays
      && h.errors == if FailingRun(a, retval).1 == Error then 1 else 0)
  }

  lemma {:induction false} NoDelays(calls: seq<Call>, t: int)
    requires forall c :: c in calls ==> !(c.RetryCall? && c.task == t)
    ensures DelaysOf(calls, t) == []
  {
    if calls != [] {
      NoDelays(calls[1..], t);
    }
  }

  lemma {:induction false} OneDelay(calls: seq<Call>, t: int, after: int)
    requires Once(calls) && RetryCall(t, after) in calls
    ensures DelaysOf(calls, t) == [after]
  {
    if calls[0] == RetryCall(t, after) {
      forall c | c in calls[1..] ensures c.task != t {
        var k :| 0 <= k < |calls[1..]| && calls[1..][k] == c;
        assert calls[k + 1] == c;
      }
      NoDelays(calls[1..], t);
    } else {
      OneDelay(calls[1..], t, after);
      assert calls[0].task != t by {
        var k :| 0 <= k < |calls| && calls[k] == RetryCall(t, after);
      }
    }
  }

  lemma StillFollows(i: Instance, j: Instance, h: History, t: int, retval: int, a: Attributes)
    requires Follows(i, h, t, retval, a) && j.Consistent() && !j.cancelling && j.doc == i.doc
    requires j.AttributesOf(t) == i.AttributesOf(t) && (t in j.waiting <==> t in i.waiting)
    requires StatusIn(j.status, t) == StatusIn(i.status, t) || (StatusIn(i.status, t) == Fresh && StatusIn(j.status, t) == Queued)
    ensures Follows(j, h, t, retval, a)
  {
  }

  /** What a section about another task leaves as it was. */
  ghost predicate LeavesAlone(i: Instance, j: Instance, calls: seq<Call>, t: int) {
    && j.Consistent() && j.cancelling == i.cancelling && j.doc == i.doc
    && j.AttributesOf(t) == i.AttributesOf(t) && (t in j.waiting <==> t in i.waiting)
    && (StatusIn(j.status, t) == StatusIn(i.status, t) || (StatusIn(i.status, t) == Fresh && StatusIn(j.status, t) == AfterEnqueue(i, t)))
    && DelaysOf(calls, t) == []
  }

  lemma OtherRestart(i: Instance, u: int, t: int)
    requires i.Consistent() && u in i.waiting && u != t
    ensures LeavesAlone(i, i.TaskRestart(u).0, i.TaskRestart(u).1, t)
  {
    TaskRestartTransfers(i, u);
    RestartDecides(i, u);
    NoDelays(i.TaskRestart(u).1, t);
  }

  lemma OtherExecute(i: Instance, u: int, outcome: ForkOutcome, t: int)
    requires i.Consistent() && StatusIn(i.status, u) == Queued && u != t
    ensures LeavesAlone(i, i.TaskExecute(u, outcome), [], t)
  {
    TaskExecuteTransfers(i, u, outcome);
    ExecuteDecides(i, u, outcome);
  }

  lemma OtherStop(i: Instance, u: int, r: int, output: OutputOutcome, o: Oracle, t: int)
    requires i.Consistent() && StatusIn(i.status, u) == Executing && u != t
    ensures u in i.doc.jobOf && LeavesAlone(i, i.TaskStop(u, r, output, o).0, i.TaskStop(u, r, output, o).1, t)
  {
    TaskStopTransfers(i, u, r, output, o);
    StopDecides(i, u, r, output, o);
    NoDelays(i.TaskStop(u, r, output, o).1, t);
  }

  /** Sections about other tasks. */
  lemma OthersFollow(i: Instance, s: Section, h: History, t: int, retval: int, a: Attributes)
    requires Follows(i, h, t, retval, a) && Ready(i, s) && Failing(s, t, retval) && !About(s, t)
    ensures AddSection(h, i, s, t) == h && Follows(Through(i, s), h, t, retval, a)
  {
    match s {
      case Restarting(u) => OtherRestart(i, u, t);
      case Executed(u, outcome) => OtherExecute(i, u, outcome, t);
      case Stopping(u, r, output, o) => OtherStop(i, u, r, output, o, t);
    }
    assert h.delays + [] == h.delays;
    StillFollows(i, Through(i, s), h, t, retval, a);
  }

  lemma OwnRestart(i: Instance, h: History, t: int, retval: int, a: Attributes)
    requires Follows(i, h, t, retval, a) && t in i.waiting
    ensures AddSection(h, i, Restarting(t), t) == h && Follows(i.TaskRestart(t).0, h, t, retval, a)
  {
    TaskRestartTransfers(i, t);
    RestartDecides(i, t);
    NoDelays(i.TaskRestart(t).1, t);
    assert h.delays + [] == h.delays;
    assert i.TaskRestart(t).0.AttributesOf(t) == i.AttributesOf(t);
  }

  lemma OwnExecute(i: Instance, h: History, t: int, retval: int, a: Attributes)
    requires Follows(i, h, t, retval, a) && StatusIn(i.status, t) == Queued
    ensures AddSection(h, i, Executed(t, Forked), t) == h.(forks := h.forks + 1)
    ensures Follows(i.TaskExecute(t, Forked), h.(forks := h.forks + 1), t, retval, a)
  {
    TaskExecuteTransfers(i, t, Forked);
    ExecuteDecides(i, t, Forked);
    assert h.delays + [] == h.delays;
    assert t !in i.waiting;
    assert i.TaskExecute(t, Forked).AttributesOf(t) == i.AttributesOf(t);
  }

  /** TaskStop of the failing task: it waits for the next of its delays, or it has finished. */
  lemma OwnStop(i: Instance, h: History, t: int, retval: int, output: OutputOutcome, o: Oracle, a: Attributes)
    requires Follows(i, h, t, retval, a) && StatusIn(i.status, t) == Executing && retval != 0
    ensures t in i.doc.jobOf
    ensures Follows(i.TaskStop(t, retval, output, o).0, AddSection(h, i, Stopping(t, retval, output, o), t), t, retval, a)
  {
    var (j, calls) := i.TaskStop(t, retval, output, o);
    TaskStopTransfers(i, t, retval, output, o);
    StopDecides(i, t, retval, output, o);
    StopErrors(i, t, retval, output, o);
    var b := i.AttributesOf(t);
    if TriesAgain(i, t, retval) {
      var after := RetryTask(b, retval).1.after;
      assert RetryCall(t, after) in calls;
      OneDelay(calls, t, after);
      Retried(i, j, h, t, retval, after, a);
    } else {
      NoDelays(calls, t);
      assert h.delays + [] == h.delays;
      GivenUp(i, j, h, t, retval, a);
    }
  }

  /** A failure counts an error only if the task is given up. */
  lemma StopErrors(i: Instance, t: int, retval: int, output: OutputOutcome, o: Oracle)
    requires i.Consistent() && StatusIn(i.status, t) == Executing && retval != 0
    ensures t in i.doc.jobOf
    ensures i.TaskStop(t, retval, output, o).0.errors == i.errors + if GivesUp(i, t, retval) then 1 else 0
  {
    StopDecides(i, t, retval, output, o);
    var j := i.TaskStop(t, retval, output, o).0;
    SetsAfter(i.status, j.status, t, Aborted);
  }

  lemma Retried(i: Instance, j: Instance, h: History, t: int, retval: int, after: int, a: Attributes)
    requires Follows(i, h, t, retval, a) && StatusIn(i.status, t) == Executing
    requires RetryTask(i.AttributesOf(t), retval).1 == Retry(after) && j.AttributesOf(t) == RetryTask(i.AttributesOf(t), retval).0
    requires j.Consistent() && !j.cancelling && j.doc == i.doc && t in j.waiting && StatusIn(j.status, t) == Terminated(retval)
    ensures Follows(j, h.(delays := h.delays + [after]), t, retval, a)
  {
    var b := i.AttributesOf(t);
    RetryStays(b, retval);
    if !RetriedForEver(a, retval) {
      var (delays, end) := FailingRun(j.AttributesOf(t), retval);
      assert FailingRun(b, retval) == ([after] + delays, end);
      assert h.delays + ([after] + delays) == h.delays + [after] + delays;
    }
  }

  lemma GivenUp(i: Instance, j: Instance, h: History, t: int, retval: int, a: Attributes)
    requires Follows(i, h, t, retval, a) && StatusIn(i.status, t) == Executing && !RetryTask(i.AttributesOf(t), retval).1.Retry?
    requires j.Consistent() && !j.cancelling && j.doc == i.doc && t !in j.waiting && StatusIn(j.status, t) == Terminated(retval)
    ensures Follows(j, h.(errors := if RetryTask(i.AttributesOf(t), retval).1 == Error then 1 else 0), t, retval, a)
  {
    var b := i.AttributesOf(t);
    if RetriedForEver(b, retval) {
      ForEverIsRetried(b, retval);
    } else {
      assert FailingRun(b, retval) == ([], RetryTask(b, retval).1);
      assert h.delays + [] == h.delays;
    }
  }

  lemma SectionFollows(i: Instance, s: Section, h: History, t: int, retval: int, a: Attributes)
    requires Follows(i, h, t, retval, a) && Ready(i, s) && Failing(s, t, retval) && retval != 0
    ensures Follows(Through(i, s), AddSection(h, i, s, t), t, retval, a)
  {
    if !About(s, t) {
      OthersFollow(i, s, h, t, retval, a);
    } else {
      match s
      case Restarting(_) => OwnRestart(i, h, t, retval, a);
      case Executed(_, _) => OwnExecute(i, h, t, retval, a);
      case Stopping(_, _, output, o) => OwnStop(i, h, t, retval, output, o, a);
    }
  }

  lemma BeginFollows(i: Instance, t: int, retval: int)
    requires i.Consistent() && !i.cancelling && t in i.doc.queueOf
    requires StatusIn(i.status, t) == Queued || StatusIn(i.status, t) == Fresh
    ensures Follows(i, History([], 0, 0), t, retval, i.AttributesOf(t))
  {
    var a := i.AttributesOf(t);
    assert !RetriedForEver(a, retval) ==> [] + FailingRun(a, retval).0 == FailingRun(a, retval).0;
  }

  lemma GoneFollows(i: Instance, s: Option<Section>, j: Instance, h: History, t: int, retval: int, a: Attributes)
    requires Follows(i, h, t, retval, a) && Goes(i, s, j) && (s.Some? ==> Failing(s.value, t, retval)) && retval != 0
    ensures Follows(j, Gone(h, i, s, t), t, retval, a)
  {
    if s.Some? {
      SectionFollows(i, s.value, h, t, retval, a);
    }
  }

  lemma HistoryGoesOn(states: seq<Instance>, sections: seq<Option<Section>>, k: nat, t: int)
    requires Sections(states, sections) && 0 < k <= |sections|
    ensures Goes(states[k - 1], sections[k - 1], states[k])
    ensures HistoryOf(states, sections, k, t) == Gone(HistoryOf(states, sections, k - 1, t), states[k - 1], sections[k - 1], t)
  {
    assert Goes(states[k - 1], sections[k - 1], states[k - 1 + 1]);
  }

  /** The task has followed its plan for k sections. */
  ghost predicate FollowsUntil(states: seq<Instance>, sections: seq<Option<Section>>, k: nat, t: int, retval: int)
    requires Sections(states, sections) && k <= |sections|
  {
    Follows(states[k], HistoryOf(states, sections, k, t), t, retval, states[0].AttributesOf(t))
  }

  lemma SectionOfRunFollows(states: seq<Instance>, sections: seq<Option<Section>>, k: nat, t: int, retval: int)
    requires Sections(states, sections) && FailsAlways(states, sections, t, retval) && k < |sections|
    requires FollowsUntil(states, sections, k, t, retval)
    ensures FollowsUntil(states, sections, k + 1, t, retval)
  {
    HistoryGoesOn(states, sections, k + 1, t);
    GoneFollows(states[k], sections[k], states[k + 1], HistoryOf(states, sections, k, t), t, retval, states[0].AttributesOf(t));
  }

  lemma {:induction false} RunFollows(states: seq<Instance>, sections: seq<Option<Section>>, k: nat, t: int, retval: int)
    requires Sections(states, sections) && FailsAlways(states, sections, t, retval) && k <= |sections|
    requires StatusIn(states[0].status, t) == Queued || StatusIn(states[0].status, t) == Fresh
    ensures FollowsUntil(states, sections, k, t, retval)
  {
    if k == 0 {
      BeginFollows(states[0], t, retval);
    } else {
      RunFollows(states, sections, k - 1, t, retval);
      SectionOfRunFollows(states, sections, k - 1, t, retval);
    }
  }

  /**
   * A task that fails every time waits the delays of its plan in order, and finishes only after all
   * of them; it has then been forked once more than it has waited, and it counts one error exactly
   * if its plan ends in one. A task retried for ever never finishes.
   */
  lemma FailingTaskFollowsPlan(states: seq<Instance>, sections: seq<Option<Section>>, k: nat, t: int, retval: int)
    requires Sections(states, sections) && FailsAlways(states, sections, t, retval) && k <= |sections|
    requires StatusIn(states[0].status, t) == Queued || StatusIn(states[0].status, t) == Fresh
    ensures var a, h := states[0].AttributesOf(t), HistoryOf(states, sections, k, t);
      if Finished(states[k], t) then
        && !RetriedForEver(a, retval)
        && h == History(FailingRun(a, retval).0, Executions(a, retval), if FailingRun(a, retval).1 == Error then 1 else 0)
      else
        h.errors == 0 && (!RetriedForEver(a, retval) ==> h.delays <= FailingRun(a, retval).0 && h.forks <= Executions(a, retval))
  {
    RunFollows(states, sections, k, t, retval);
  }
}
