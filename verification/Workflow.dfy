/**
 * A workflow instance as the program keeps it. Every method that holds the lock is proved to do
 * what its section does to the value in WorkflowState, and to make the same calls in the same order.
 */
module Workflows {
  import opened RetryPlan
  import opened WorkflowState
  import ResumeState

  class WorkflowInstance {
    const doc: Document
    var status: map<int, Status>
    var attributes: map<int, Attributes>
    var runningTasks: int
    var retryingTasks: int
    var errorTasks: int
    var isCancelling: bool
    ghost var waiting: set<int>
    ghost var launched: set<int>

    ghost function State(): Instance
      reads this
    {
      Instance(doc, status, attributes, waiting, launched, runningTasks, retryingTasks, errorTasks, isCancelling)
    }

    constructor (doc: Document, attributes: map<int, Attributes>)
      ensures State() == NewInstance(doc, attributes, false)
    {
      this.doc := doc;
      this.status := map[];
      this.attributes := attributes;
      this.runningTasks := 0;
      this.retryingTasks := 0;
      this.errorTasks := 0;
      this.isCancelling := false;
      this.waiting := {};
      this.launched := {};
    }

    /** enqueue_task: the status is set before the pool is asked, and corrected if the queue is unknown. */
    method EnqueueTask(t: int) returns (calls: seq<Call>)
      modifies this
      ensures (State(), calls) == old(State()).EnqueueTask(t)
    {
      calls := [];
      if isCancelling {
        status := status[t := Aborted];
        errorTasks := errorTasks + 1;
        return;
      }
      status := status[t := Queued];
      if t !in doc.queueOf {
        status := status[t := Aborted];
        errorTasks := errorTasks + 1;
        assert status == old(status)[t := Aborted];
        return;
      }
      calls := [EnqueueCall(t, doc.queueOf[t])];
      runningTasks := runningTasks + 1;
    }

    /** run: false when it throws. */
    method Run(tasks: seq<int>, o: Oracle) returns (calls: seq<Call>, ok: bool)
      modifies this
      ensures (State(), calls, ok) == old(State()).RunTasks(tasks, o)
    {
      calls, ok := [], true;
      var index := 0;
      ghost var whole := State().RunTasks(tasks, o);
      assert tasks[0..] == tasks && [] + whole.1 == whole.1;
      while index < |tasks|
        invariant 0 <= index <= |tasks|
        invariant var (i, more, ends) := State().RunTasks(tasks[index..], o);
          old(State()).RunTasks(tasks, o) == (i, calls + more, ends)
      {
        var t := tasks[index];
        assert tasks[index..][0] == t && tasks[index..][1..] == tasks[index + 1..];
        if !StatusIn(status, t).Terminated? {
          if t in o.badInputs {
            assert calls + [] == calls;
            ok := false;
            return;
          }
          ghost var before, sofar := State(), calls;
          var more := EnqueueTask(t);
          calls := calls + more;
          ghost var rest := State().RunTasks(tasks[index + 1..], o);
          assert before.RunTasks(tasks[index..], o) == (rest.0, more + rest.1, rest.2);
          assert sofar + (more + rest.1) == calls + rest.1;
        }
        index := index + 1;
      }
      assert tasks[index..] == [] && calls + [] == calls;
    }

    /** run_subjobs: an exception ends it with one more error, and is not seen further out. */
    method RunSubjobs(subjobs: seq<int>, o: Oracle) returns (calls: seq<Call>)
      modifies this
      ensures (State(), calls) == old(State()).RunSubjobs(subjobs, o)
    {
      calls := [];
      var index := 0;
      ghost var whole := State().RunSubjobs(subjobs, o);
      assert subjobs[0..] == subjobs && [] + whole.1 == whole.1;
      while index < |subjobs|
        invariant 0 <= index <= |subjobs|
        invariant var (i, more) := State().RunSubjobs(subjobs[index..], o);
          old(State()).RunSubjobs(subjobs, o) == (i, calls + more)
      {
        var k := subjobs[index];
        assert subjobs[index..][0] == k && subjobs[index..][1..] == subjobs[index + 1..];
        index := index + 1;
        if k in o.conditionErrors {
          assert calls + [] == calls;
          errorTasks := errorTasks + 1;
          return;
        } else if k !in o.conditionsFalse {
          ghost var before, sofar := State(), calls;
          var tasks := if 0 <= k < |doc.jobs| then doc.jobs[k].tasks else [];
          var more, ok := Run(tasks, o);
          calls := calls + more;
          if !ok {
            errorTasks := errorTasks + 1;
            return;
          }
          ghost var rest := State().RunSubjobs(subjobs[index..], o);
          assert before.RunSubjobs(subjobs[index - 1..], o) == (rest.0, more + rest.1);
          assert sofar + (more + rest.1) == calls + rest.1;
        }
      }
      assert subjobs[index..] == [] && calls + [] == calls;
    }

    method Launch(job: int, o: Oracle) returns (calls: seq<Call>)
      requires 0 <= job < |doc.jobs|
      modifies this
      ensures (State(), calls) == old(State()).Launch(job, o)
    {
      launched := launched + {job};
      calls := RunSubjobs(doc.jobs[job].subjobs, o);
    }

    /** workflow_ended. */
    predicate WorkflowEnded()
      reads `runningTasks, `retryingTasks
    {
      runningTasks == 0 && retryingTasks == 0
    }

    method Start(o: Oracle) returns (calls: seq<Call>, workflowTerminated: bool)
      requires |doc.jobs| > 0
      modifies this
      ensures (State(), calls) == old(State()).Start(o) && workflowTerminated == State().Ended()
    {
      calls := Launch(0, o);
      workflowTerminated := WorkflowEnded();
    }

    /** Resume, over the document's tasks; the executing ones are handed back to the pool, which may refuse them. */
    method Resume(tasks: seq<int>) returns (calls: seq<Call>, handed: seq<int>, workflowTerminated: bool)
      modifies this
      ensures (State(), calls) == ResumeState.Resume(old(State()), tasks) && workflowTerminated == State().Ended()
      ensures forall t :: t in handed <==> t in tasks && StatusIn(old(status), t) == Executing
    {
      calls, handed := [], [];
      ghost var whole := ResumeState.Resume(State(), tasks);
      assert tasks[0..] == tasks && [] + whole.1 == whole.1;
      for index := 0 to |tasks|
        invariant var (i, more) := ResumeState.Resume(State(), tasks[index..]); whole == (i, calls + more)
        invariant forall t :: StatusIn(status, t) == Executing <==> StatusIn(old(status), t) == Executing
        invariant forall t :: t in handed <==> t in tasks[..index] && StatusIn(old(status), t) == Executing
      {
        var t := tasks[index];
        assert tasks[index..][0] == t && tasks[index..][1..] == tasks[index + 1..];
        assert tasks[..index + 1] == tasks[..index] + [t];
        ghost var sofar := calls;
        var more := ResumeOne(t);
        calls := calls + more;
        if StatusIn(status, t).Executing? {
          handed := handed + [t];
        }
        ghost var rest := ResumeState.Resume(State(), tasks[index + 1..]);
        assert sofar + (more + rest.1) == calls + rest.1;
      }
      assert tasks[|tasks|..] == [] && tasks[..|tasks|] == tasks && calls + [] == calls;
      workflowTerminated := WorkflowEnded();
    }

    method ResumeOne(t: int) returns (calls: seq<Call>)
      modifies this
      ensures (State(), calls) == ResumeState.ResumeTask(old(State()), t)
      ensures forall u :: StatusIn(status, u) == Executing <==> StatusIn(old(status), u) == Executing
    {
      calls := [];
      match StatusIn(status, t)
      case Queued =>
        calls := EnqueueTask(t);
      case Executing =>
        runningTasks := runningTasks + 1;
      case Terminated(retval) =>
        if retval != 0 {
          calls := RetryTask(t, retval);
        }
      case _ =>
    }

    method Cancel()
      modifies `isCancelling
      ensures State() == old(State()).Cancel()
    {
      isCancelling := true;
    }

    method TaskRestart(t: int) returns (calls: seq<Call>, workflowTerminated: bool)
      modifies this
      ensures (State(), calls) == old(State()).TaskRestart(t) && workflowTerminated == State().Ended()
    {
      calls := EnqueueTask(t);
      retryingTasks := retryingTasks - 1;
      waiting := waiting - {t};
      workflowTerminated := WorkflowEnded();
    }

    /** schedule_update; the schedule is known. */
    method ScheduleUpdate(t: int, a: Attributes) returns (retryDelay: int, retryTimes: int)
      requires a.schedule.Some? && t in attributes && attributes[t] == a
      modifies `attributes
      ensures var (b, delay, times) := UpdateLevel(a);
        attributes == old(attributes)[t := b] && retryDelay == delay && retryTimes == times
    {
      var levels := a.schedule.value;
      var current := a.level + 1;
      attributes := attributes[t := a.(level := current)];
      if current > |levels| {
        return 0, 0;
      }
      var level := levels[current - 1];
      attributes := attributes[t := a.(level := current, delay := Some(level.delay), times := Some(level.times))];
      return level.delay, level.times;
    }

    /** retry_task. */
    method RetryTask(t: int, retval: int) returns (calls: seq<Call>)
      modifies this
      ensures (State(), calls) == old(State()).Retry(t, retval)
    {
      calls := [];
      var a := if t in attributes then attributes[t] else Attributes(None, 0, None, None, None);
      attributes := attributes[t := a];
      var retryDelay, retryTimes := 0, 0;
      if a.schedule.Some? && a.level == 0 {
        retryDelay, retryTimes := ScheduleUpdate(t, a);
      } else {
        if a.delay.None? || a.times.None? {
          errorTasks := errorTasks + 1;
          return;
        }
        retryDelay, retryTimes := a.delay.value, a.times.value;
      }
      if a.schedule.Some? && retryTimes == 0 {
        retryDelay, retryTimes := ScheduleUpdate(t, attributes[t]);
      }
      assert attributes == old(attributes)[t := attributes[t]];
      if retryDelay == 0 || retryTimes == 0 {
        errorTasks := errorTasks + 1;
        return;
      }
      if a.retval.Some? && a.retval.value != retval {
        return;
      }
      attributes := attributes[t := attributes[t].(times := Some(retryTimes - 1))];
      assert attributes == old(attributes)[t := attributes[t]];
      calls := [RetryCall(t, retryDelay)];
      retryingTasks := retryingTasks + 1;
      waiting := waiting + {t};
    }

    /** The two counts of TaskStop agree exactly when the whole job has succeeded. */
    method AllSucceeded(job: int) returns (all: bool)
      requires 0 <= job < |doc.jobs|
      ensures all <==> State().JobSucceeded(job)
    {
      var tasks := doc.jobs[job].tasks;
      var tasksCount, tasksSuccessful := 0, 0;
      while tasksCount < |tasks|
        invariant 0 <= tasksSuccessful <= tasksCount <= |tasks|
        invariant tasksSuccessful == tasksCount <==> forall k :: 0 <= k < tasksCount ==> StatusIn(status, tasks[k]) == Terminated(0)
      {
        if StatusIn(status, tasks[tasksCount]) == Terminated(0) {
          tasksSuccessful := tasksSuccessful + 1;
        }
        tasksCount := tasksCount + 1;
      }
      all := tasksCount == tasksSuccessful;
      if !all {
        assert exists k :: 0 <= k < |tasks| && StatusIn(status, tasks[k]) != Terminated(0);
      }
    }

    /** The first half of TaskStop. */
    method TakeResult(t: int, retval: int, output: OutputOutcome) returns (calls: seq<Call>)
      modifies this
      ensures (State(), calls) == old(State()).TakeResult(t, retval, output)
    {
      calls := [];
      status := status[t := Terminated(retval)];
      if retval == 0 {
        if !output.OutputTaken? {
          status := status[t := Aborted];
          errorTasks := errorTasks + 1;
          assert status == old(status)[t := Aborted];
        }
      } else if !isCancelling {
        calls := RetryTask(t, retval);
      }
    }

    method TaskStop(t: int, retval: int, output: OutputOutcome, o: Oracle) returns (calls: seq<Call>, workflowTerminated: bool)
      requires doc.Valid() && t in doc.jobOf
      modifies this
      ensures (State(), calls) == old(State()).TaskStop(t, retval, output, o) && workflowTerminated == State().Ended()
    {
      calls := TakeResult(t, retval, output);
      var more := CloseTask(doc.jobOf[t], o);
      calls := calls + more;
      workflowTerminated := WorkflowEnded();
    }

    /** The second half of TaskStop. */
    method CloseTask(job: int, o: Oracle) returns (calls: seq<Call>)
      requires 0 <= job < |doc.jobs|
      modifies this
      ensures (State(), calls) == old(State()).CloseTask(job, o)
    {
      calls := [];
      var all := AllSucceeded(job);
      if all {
        calls := Launch(job, o);
      }
      runningTasks := runningTasks - 1;
    }

    /** TaskExecute: whether the task was forked. */
    method TaskExecute(t: int, outcome: ForkOutcome) returns (forked: bool, workflowTerminated: bool)
      modifies this
      ensures State() == old(State()).TaskExecute(t, outcome) && forked == old(State()).IsForked(outcome)
      ensures workflowTerminated == State().Ended()
    {
      forked := false;
      if isCancelling || outcome.UnknownTask? {
        status := status[t := Aborted];
        errorTasks := errorTasks + 1;
        runningTasks := runningTasks - 1;
        workflowTerminated := WorkflowEnded();
        return;
      }
      if outcome.Forked? {
        status := status[t := Executing];
        forked := true;
      } else {
        status := status[t := Aborted];
        errorTasks := errorTasks + 1;
        runningTasks := runningTasks - 1;
      }
      workflowTerminated := WorkflowEnded();
    }
  }
}
