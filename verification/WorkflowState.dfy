/**
 * A workflow instance as a value: the statuses of its tasks, its counters, and what each locked
 * section does to them. A section also asks the queue pool and the retrier for work; those
 * requests are its calls, in order.
 */
module WorkflowState {
  import opened RetryPlan

  /** A job: its tasks, and the subjobs that follow when they have all succeeded. */
  datatype Job = Job(tasks: seq<int>, subjobs: seq<int>)

  /**
   * The tree of jobs, with loops already expanded. Job 0 is the workflow element itself, which has
   * no tasks of its own. A task whose queue name is unknown has no entry in queueOf.
   */
  datatype Document = Document(jobs: seq<Job>, parent: seq<int>, jobOf: map<int, int>, queueOf: map<int, int>) {

    ghost predicate Valid() {
      && |jobs| > 0 && |parent| == |jobs| && jobs[0].tasks == []
      && (forall j, k {:trigger k in jobs[j].subjobs} :: 0 <= j < |jobs| && k in jobs[j].subjobs ==> j < k < |jobs| && parent[k] == j)
      && (forall j, t :: 0 <= j < |jobs| && t in jobs[j].tasks ==> t in jobOf && jobOf[t] == j)
      && (forall j :: 0 <= j < |jobs| ==> Unique(jobs[j].subjobs) && Unique(jobs[j].tasks))
      && (forall t :: t in jobOf ==> 0 < jobOf[t] < |jobs| && t in jobs[jobOf[t]].tasks)
    }
  }

  ghost predicate Unique(s: seq<int>) {
    forall a, b :: 0 <= a < b < |s| ==> s[a] != s[b]
  }

  datatype Status = Fresh | Queued | Executing | Terminated(retval: int) | Aborted

  function StatusIn(status: map<int, Status>, t: int): Status {
    if t in status then status[t] else Fresh
  }

  /** The tasks with a status other than Fresh. */
  function TasksWith(status: map<int, Status>, s: Status): set<int> {
    set t | t in status && status[t] == s
  }

  datatype Call = EnqueueCall(task: int, queue: int) | RetryCall(task: int, after: int)

  /** How evaluating the document comes out: tasks with bad input values, jobs with bad or false conditions. */
  datatype Oracle = Oracle(badInputs: set<int>, conditionErrors: set<int>, conditionsFalse: set<int>)

  /** What happens when a task is forked, and when its output is taken. */
  datatype ForkOutcome = UnknownTask | ForkFailed | Forked

  datatype OutputOutcome = OutputTaken | TaskVanished | InvalidXml

  /**
   * `waiting` holds the tasks with a retry event, `launched` the jobs whose subjobs have been
   * started; the program has neither set, but its events and its control flow determine them.
   */
  datatype Instance = Instance(
    doc: Document,
    status: map<int, Status>,
    attributes: map<int, Attributes>,
    waiting: set<int>,
    launched: set<int>,
    running: int,
    retrying: int,
    errors: int,
    cancelling: bool)
  {
    function AttributesOf(t: int): Attributes {
      if t in attributes then attributes[t] else Attributes(None, 0, None, None, None)
    }

    /** workflow_ended. */
    predicate Ended() {
      running == 0 && retrying == 0
    }

    /** enqueue_task. */
    function EnqueueTask(t: int): (Instance, seq<Call>) {
      if cancelling || t !in doc.queueOf then (this.(status := status[t := Aborted], errors := errors + 1), [])
      else (this.(status := status[t := Queued], running := running + 1), [EnqueueCall(t, doc.queueOf[t])])
    }

    /** run, from some task of a job on; false when an input value cannot be computed. */
    function RunTasks(tasks: seq<int>, o: Oracle): (Instance, seq<Call>, bool)
      decreases |tasks|
    {
      if tasks == [] then (this, [], true)
      else if StatusIn(status, tasks[0]).Terminated? then RunTasks(tasks[1..], o)
      else if tasks[0] in o.badInputs then (this, [], false)
      else
        var (i, calls) := EnqueueTask(tasks[0]);
        var (j, more, ok) := i.RunTasks(tasks[1..], o);
        (j, calls + more, ok)
    }

    /** run_subjobs, from some subjob on; an exception stops it and counts one error. */
    function RunSubjobs(subjobs: seq<int>, o: Oracle): (Instance, seq<Call>)
      decreases |subjobs|
    {
      if subjobs == [] then (this, [])
      else
        var k := subjobs[0];
        if k in o.conditionErrors then (this.(errors := errors + 1), [])
        else if k in o.conditionsFalse then RunSubjobs(subjobs[1..], o)
        else
          var (i, calls, ok) := RunTasks(if 0 <= k < |doc.jobs| then doc.jobs[k].tasks else [], o);
          if !ok then (i.(errors := i.errors + 1), calls)
          else
            var (j, more) := i.RunSubjobs(subjobs[1..], o);
            (j, calls + more)
    }

    function Launch(job: int, o: Oracle): (Instance, seq<Call>)
      requires 0 <= job < |doc.jobs|
    {
      this.(launched := launched + {job}).RunSubjobs(doc.jobs[job].subjobs, o)
    }

    /** Start. */
    function Start(o: Oracle): (Instance, seq<Call>)
      requires |doc.jobs| > 0
    {
      Launch(0, o)
    }

    /** Cancel. */
    function Cancel(): Instance {
      this.(cancelling := true)
    }

    /** TaskRestart. */
    function TaskRestart(t: int): (Instance, seq<Call>) {
      var (i, calls) := EnqueueTask(t);
      (i.(waiting := i.waiting - {t}, retrying := i.retrying - 1), calls)
    }

    predicate IsForked(outcome: ForkOutcome) {
      !cancelling && outcome.Forked?
    }

    /** TaskExecute: a task is forked, or aborted at once. */
    function TaskExecute(t: int, outcome: ForkOutcome): Instance {
      if IsForked(outcome) then this.(status := status[t := Executing])
      else this.(status := status[t := Aborted], errors := errors + 1, running := running - 1)
    }

    /** retry_task. */
    function Retry(t: int, retval: int): (Instance, seq<Call>) {
      var (a, outcome) := RetryTask(AttributesOf(t), retval);
      var i := this.(attributes := attributes[t := a]);
      match outcome
      case Retry(after) => (i.(waiting := waiting + {t}, retrying := retrying + 1), [RetryCall(t, after)])
      case Error => (i.(errors := errors + 1), [])
      case Silent => (i, [])
    }

    /** The first half of TaskStop: the status, and the retry of a failed task. */
    function TakeResult(t: int, retval: int, output: OutputOutcome): (Instance, seq<Call>) {
      var i := this.(status := status[t := Terminated(retval)]);
      if retval == 0 then
        if output.OutputTaken? then (i, [])
        else (i.(status := status[t := Aborted], errors := errors + 1), [])
      else if cancelling then (i, [])
      else i.Retry(t, retval)
    }

    /** Every task of a job has terminated with return value 0. */
    predicate JobSucceeded(job: int)
      requires 0 <= job < |doc.jobs|
    {
      forall t :: t in doc.jobs[job].tasks ==> StatusIn(status, t) == Terminated(0)
    }

    /** TaskStop. */
    function TaskStop(t: int, retval: int, output: OutputOutcome, o: Oracle): (Instance, seq<Call>)
      requires doc.Valid() && t in doc.jobOf
    {
      var (i, calls) := TakeResult(t, retval, output);
      var (j, more) := i.CloseTask(doc.jobOf[t], o);
      (j, calls + more)
    }

    /** The second half of TaskStop: the subjobs of a job all of whose tasks have succeeded. */
    function CloseTask(job: int, o: Oracle): (Instance, seq<Call>)
      requires 0 <= job < |doc.jobs|
    {
      var (j, more) := if JobSucceeded(job) then Launch(job, o) else (this, []);
      (j.(running := j.running - 1), more)
    }

    /** The counters count, and jobs run one after the other. */
    ghost predicate Consistent() {
      Counted() && Gated()
    }

    ghost predicate Counted() {
      && running == |TasksWith(status, Queued)| + |TasksWith(status, Executing)| && retrying == |waiting|
      && (forall t :: t in waiting ==> StatusIn(status, t).Terminated? && StatusIn(status, t).retval != 0)
    }

    /**
     * Only tasks whose parent job has been launched have a status, and a job has been launched
     * only if all its tasks have succeeded.
     */
    ghost predicate Gated() {
      && doc.Valid()
      && (forall t :: StatusIn(status, t) != Fresh ==> t in doc.jobOf && doc.parent[doc.jobOf[t]] in launched)
      && (forall j :: j in launched ==> 0 <= j < |doc.jobs| && JobSucceeded(j))
    }
  }

  /** Some call is about the task. */
  predicate Asks(calls: seq<Call>, t: int) {
    exists k :: 0 <= k < |calls| && calls[k].task == t
  }

  lemma AsksBoth(a: seq<Call>, b: seq<Call>, t: int)
    ensures Asks(a + b, t) <==> Asks(a, t) || Asks(b, t)
  {
    if Asks(a, t) {
      var k :| 0 <= k < |a| && a[k].task == t;
      assert (a + b)[k].task == t;
    }
    if Asks(b, t) {
      var k :| 0 <= k < |b| && b[k].task == t;
      assert (a + b)[|a| + k].task == t;
    }
  }

  /** No task is asked for twice. */
  ghost predicate Once(calls: seq<Call>) {
    forall a, b :: 0 <= a < b < |calls| ==> calls[a].task != calls[b].task
  }

  /** Where a task is to be found outside the instance. */
  datatype Place = Nowhere | InQueue | WithTid | InRetrier

  /** Where each task must be while a section still has these calls to make. */
  function PlaceOf(i: Instance, pending: seq<Call>, t: int): Place {
    if Asks(pending, t) then Nowhere
    else if StatusIn(i.status, t) == Queued then InQueue
    else if StatusIn(i.status, t) == Executing then WithTid
    else if t in i.waiting then InRetrier
    else Nowhere
  }

  /** Every call is for something the instance already counts. */
  ghost predicate Justified(i: Instance, calls: seq<Call>) {
    && Once(calls)
    && forall k :: 0 <= k < |calls| ==>
      match calls[k]
      case EnqueueCall(t, queue) => StatusIn(i.status, t) == Queued && t in i.doc.queueOf && i.doc.queueOf[t] == queue
      case RetryCall(t, after) => t in i.waiting
  }

  /** A section about task t: every other task stays where it was, apart from the calls to come. */
  ghost predicate Transfers(i: Instance, j: Instance, calls: seq<Call>, t: int) {
    && j.doc == i.doc && Justified(j, calls)
    && forall u :: u != t ==> PlaceOf(j, calls, u) == PlaceOf(i, [], u)
  }

  /** Making the first call puts its task where it belongs, and moves nothing else. */
  lemma CallPlaces(i: Instance, calls: seq<Call>, t: int)
    requires calls != [] && Justified(i, calls) && i.Counted()
    ensures Justified(i, calls[1..]) && PlaceOf(i, calls, calls[0].task) == Nowhere
    ensures PlaceOf(i, calls[1..], t) ==
      if t != calls[0].task then PlaceOf(i, calls, t) else if calls[0].EnqueueCall? then InQueue else InRetrier
  {
    AsksBoth([calls[0]], calls[1..], t);
    assert [calls[0]] + calls[1..] == calls;
    assert [calls[0]][0] == calls[0];
    assert calls[0].task == t ==> Asks([calls[0]], t);
    assert !Asks(calls[1..], calls[0].task);
  }

  /** The call queues a task that had no part in anything. */
  ghost predicate QueuesFresh(i: Instance, c: Call) {
    && c.EnqueueCall? && StatusIn(i.status, c.task) == Fresh
    && c.task in i.doc.queueOf && i.doc.queueOf[c.task] == c.queue
  }

  /** What launching may do to a task. */
  ghost predicate QueuedOrAborted(before: Status, after: Status, asked: bool) {
    && (after == before || (before == Fresh && (after == Queued || after == Aborted)))
    && (asked <==> before == Fresh && after == Queued)
  }

  /** What launching may do: queue fresh tasks, abort fresh tasks, and nothing else. */
  ghost predicate OnlyQueues(i: Instance, j: Instance, calls: seq<Call>) {
    && j.doc == i.doc && j.cancelling == i.cancelling && j.attributes == i.attributes
    && j.waiting == i.waiting && j.retrying == i.retrying && j.launched == i.launched
    && TasksWith(j.status, Executing) == TasksWith(i.status, Executing)
    && j.running - |TasksWith(j.status, Queued)| == i.running - |TasksWith(i.status, Queued)|
    && (forall t :: QueuedOrAborted(StatusIn(i.status, t), StatusIn(j.status, t), Asks(calls, t)))
    && Once(calls) && (forall k :: 0 <= k < |calls| ==> QueuesFresh(i, calls[k]))
    && (i.cancelling ==> calls == [])
  }

  lemma OnlyQueuesNothing(i: Instance)
    ensures OnlyQueues(i, i, []) && OnlyQueues(i, i.(errors := i.errors + 1), [])
  {
  }

  lemma OnlyQueuesTwice(i: Instance, j: Instance, k: Instance, c1: seq<Call>, c2: seq<Call>)
    requires OnlyQueues(i, j, c1) && OnlyQueues(j, k, c2)
    ensures OnlyQueues(i, k, c1 + c2)
  {
    forall t ensures QueuedOrAborted(StatusIn(i.status, t), StatusIn(k.status, t), Asks(c1 + c2, t)) {
      AsksBoth(c1, c2, t);
      assert QueuedOrAborted(StatusIn(i.status, t), StatusIn(j.status, t), Asks(c1, t));
      assert QueuedOrAborted(StatusIn(j.status, t), StatusIn(k.status, t), Asks(c2, t));
    }
    forall a | 0 <= a < |c1| ensures StatusIn(j.status, c1[a].task) == Queued {
      assert Asks(c1, c1[a].task);
      assert QueuedOrAborted(StatusIn(i.status, c1[a].task), StatusIn(j.status, c1[a].task), Asks(c1, c1[a].task));
    }
    forall b | 0 <= b < |c2| ensures QueuesFresh(i, c2[b]) {
      assert QueuesFresh(j, c2[b]);
      assert QueuedOrAborted(StatusIn(i.status, c2[b].task), StatusIn(j.status, c2[b].task), Asks(c1, c2[b].task));
    }
  }

  /** The set of tasks with some status when one status changes. */
  lemma SetsAfter(before: map<int, Status>, after: map<int, Status>, t: int, s: Status)
    requires forall u :: u != t ==> StatusIn(after, u) == StatusIn(before, u)
    requires s != Fresh
    ensures TasksWith(after, s) == if StatusIn(after, t) == s then TasksWith(before, s) + {t} else TasksWith(before, s) - {t}
    ensures t in TasksWith(before, s) <==> StatusIn(before, t) == s
  {
    if StatusIn(after, t) == s {
      assert TasksWith(after, s) == TasksWith(before, s) + {t} by {
        forall u ensures u in TasksWith(after, s) <==> u in TasksWith(before, s) + {t} {
          assert u != t ==> StatusIn(after, u) == StatusIn(before, u);
        }
      }
    } else {
      assert TasksWith(after, s) == TasksWith(before, s) - {t} by {
        forall u ensures u in TasksWith(after, s) <==> u in TasksWith(before, s) - {t} {
          assert u != t ==> StatusIn(after, u) == StatusIn(before, u);
        }
      }
    }
  }

  lemma EnqueueFresh(i: Instance, t: int)
    requires StatusIn(i.status, t) == Fresh
    ensures OnlyQueues(i, i.EnqueueTask(t).0, i.EnqueueTask(t).1)
    ensures forall u :: u != t ==> StatusIn(i.EnqueueTask(t).0.status, u) == StatusIn(i.status, u)
  {
    var (j, calls) := i.EnqueueTask(t);
    SetsAfter(i.status, j.status, t, Queued);
    SetsAfter(i.status, j.status, t, Executing);
    if calls != [] {
      assert calls[0].task == t;
    }
  }

  lemma {:induction false} RunOnlyQueues(i: Instance, tasks: seq<int>, o: Oracle)
    requires Unique(tasks) && forall t :: t in tasks ==> StatusIn(i.status, t) == Fresh
    ensures OnlyQueues(i, i.RunTasks(tasks, o).0, i.RunTasks(tasks, o).1)
    ensures forall u :: u !in tasks ==> StatusIn(i.RunTasks(tasks, o).0.status, u) == StatusIn(i.status, u)
    decreases |tasks|
  {
    if tasks == [] || tasks[0] in o.badInputs {
      OnlyQueuesNothing(i);
    } else {
      EnqueueFresh(i, tasks[0]);
      var (j, calls) := i.EnqueueTask(tasks[0]);
      assert forall t :: t in tasks[1..] ==> t in tasks && t != tasks[0];
      RunOnlyQueues(j, tasks[1..], o);
      OnlyQueuesTwice(i, j, j.RunTasks(tasks[1..], o).0, calls, j.RunTasks(tasks[1..], o).1);
    }
  }

  /** What run_subjobs may start: jobs none of whose tasks has a status yet. */
  ghost predicate Startable(i: Instance, subjobs: seq<int>)
    requires i.doc.Valid()
  {
    && Unique(subjobs) && (forall k :: k in subjobs ==> 0 < k < |i.doc.jobs|)
    && forall t :: t in i.doc.jobOf && i.doc.jobOf[t] in subjobs ==> StatusIn(i.status, t) == Fresh
  }

  lemma {:induction false} SubjobsOnlyQueue(i: Instance, subjobs: seq<int>, o: Oracle)
    requires i.doc.Valid() && Startable(i, subjobs)
    ensures var (j, calls) := i.RunSubjobs(subjobs, o);
      && OnlyQueues(i, j, calls)
      && forall t :: StatusIn(j.status, t) != StatusIn(i.status, t) ==> t in i.doc.jobOf && i.doc.jobOf[t] in subjobs
    decreases |subjobs|
  {
    OnlyQueuesNothing(i);
    if subjobs != [] {
      var k, rest := subjobs[0], subjobs[1..];
      assert forall l :: l in rest ==> l in subjobs && l != k;
      if k in o.conditionErrors {
      } else if k in o.conditionsFalse {
        SubjobsOnlyQueue(i, rest, o);
      } else {
        assert k in subjobs;
        var tasks := i.doc.jobs[k].tasks;
        RunOnlyQueues(i, tasks, o);
        var (j, calls, ok) := i.RunTasks(tasks, o);
        if ok {
          SubjobsOnlyQueue(j, rest, o);
          OnlyQueuesTwice(i, j, j.RunSubjobs(rest, o).0, calls, j.RunSubjobs(rest, o).1);
        } else {
          OnlyQueuesNothing(j);
          OnlyQueuesTwice(i, j, j.(errors := j.errors + 1), calls, []);
          assert calls + [] == calls;
        }
      }
    }
  }

  lemma SubjobsFollow(doc: Document, job: int, k: int)
    requires doc.Valid() && 0 <= job < |doc.jobs| && k in doc.jobs[job].subjobs
    ensures job < k < |doc.jobs| && doc.parent[k] == job
  {
  }

  /** Launching a job's subjobs for the first time, once its tasks have all succeeded. */
  lemma LaunchOnlyQueues(i: Instance, job: int, o: Oracle)
    requires i.Gated() && 0 <= job < |i.doc.jobs| && job !in i.launched && i.JobSucceeded(job)
    ensures OnlyQueues(i.(launched := i.launched + {job}), i.Launch(job, o).0, i.Launch(job, o).1)
    ensures i.Launch(job, o).0.Gated()
  {
    var started := i.(launched := i.launched + {job});
    var subjobs := i.doc.jobs[job].subjobs;
    forall k | k in subjobs ensures 0 < k < |i.doc.jobs| && i.doc.parent[k] == job {
      SubjobsFollow(i.doc, job, k);
    }
    forall t | t in i.doc.jobOf && i.doc.jobOf[t] in subjobs ensures StatusIn(i.status, t) == Fresh {
      assert i.doc.parent[i.doc.jobOf[t]] == job;
    }
    SubjobsOnlyQueue(started, subjobs, o);
    var j := i.Launch(job, o).0;
    forall t ensures QueuedOrAborted(StatusIn(i.status, t), StatusIn(j.status, t), Asks(i.Launch(job, o).1, t)) {}
    forall k | k in j.launched ensures 0 <= k < |j.doc.jobs| && j.JobSucceeded(k) {
      assert i.JobSucceeded(k);
    }
    forall t | StatusIn(j.status, t) != Fresh ensures t in j.doc.jobOf && j.doc.parent[j.doc.jobOf[t]] in j.launched {
      if StatusIn(i.status, t) == Fresh {
        assert i.doc.jobOf[t] in subjobs;
      }
    }
  }

  lemma OnlyQueuesTransfers(i: Instance, j: Instance, calls: seq<Call>, t: int)
    requires OnlyQueues(i, j, calls)
    requires forall u :: u in i.waiting ==> StatusIn(i.status, u) != Fresh
    ensures Transfers(i, j, calls, t) && PlaceOf(j, calls, t) == PlaceOf(i, [], t)
  {
    forall u ensures PlaceOf(j, calls, u) == PlaceOf(i, [], u) {
      assert QueuedOrAborted(StatusIn(i.status, u), StatusIn(j.status, u), Asks(calls, u));
    }
    forall k | 0 <= k < |calls| ensures StatusIn(j.status, calls[k].task) == Queued {
      assert Asks(calls, calls[k].task) && QueuesFresh(i, calls[k]);
      assert QueuedOrAborted(StatusIn(i.status, calls[k].task), StatusIn(j.status, calls[k].task), Asks(calls, calls[k].task));
    }
  }

  /** A workflow instance about to start. It can be cancelled even before. */
  function NewInstance(doc: Document, attributes: map<int, Attributes>, cancelling: bool): Instance {
    Instance(doc, map[], attributes, {}, {}, 0, 0, 0, cancelling)
  }

  /** After Start every task is nowhere, but for the calls to come. */
  lemma StartTransfers(doc: Document, attributes: map<int, Attributes>, cancelling: bool, o: Oracle)
    requires doc.Valid()
    ensures var i := NewInstance(doc, attributes, cancelling);
      && i.Start(o).0.Consistent() && Justified(i.Start(o).0, i.Start(o).1)
      && forall t :: PlaceOf(i.Start(o).0, i.Start(o).1, t) == Nowhere
  {
    var i := NewInstance(doc, attributes, cancelling);
    assert TasksWith(i.status, Queued) == {} && TasksWith(i.status, Executing) == {};
    LaunchOnlyQueues(i, 0, o);
    forall t ensures PlaceOf(i.Start(o).0, i.Start(o).1, t) == Nowhere && Justified(i.Start(o).0, i.Start(o).1) {
      OnlyQueuesTransfers(i.(launched := {0}), i.Start(o).0, i.Start(o).1, t);
    }
  }

  lemma CancelTransfers(i: Instance, t: int)
    requires i.Consistent()
    ensures i.Cancel().Consistent() && Transfers(i, i.Cancel(), [], t) && PlaceOf(i.Cancel(), [], t) == PlaceOf(i, [], t)
  {
  }

  /** Changing the status of a task that has not succeeded launches nothing. */
  lemma StillGated(i: Instance, j: Instance, t: int)
    requires i.Gated() && j.doc == i.doc && j.launched == i.launched
    requires StatusIn(i.status, t) != Fresh && StatusIn(i.status, t) != Terminated(0)
    requires forall u :: u != t ==> StatusIn(j.status, u) == StatusIn(i.status, u)
    ensures j.Gated() && t in i.doc.jobOf && i.doc.jobOf[t] !in i.launched
  {
    forall k | k in j.launched ensures j.JobSucceeded(k) {
      assert i.JobSucceeded(k);
    }
  }

  /** TaskExecute moves a queued task on, or ends it. */
  lemma TaskExecuteTransfers(i: Instance, t: int, outcome: ForkOutcome)
    requires i.Consistent() && StatusIn(i.status, t) == Queued
    ensures i.TaskExecute(t, outcome).Consistent() && Transfers(i, i.TaskExecute(t, outcome), [], t)
    ensures PlaceOf(i.TaskExecute(t, outcome), [], t) == if i.IsForked(outcome) then WithTid else Nowhere
  {
    StillGated(i, i.TaskExecute(t, outcome), t);
    ExecuteCounts(i, t, outcome);
    ExecutePlaces(i, t, outcome);
  }

  lemma ExecuteCounts(i: Instance, t: int, outcome: ForkOutcome)
    requires i.Counted() && StatusIn(i.status, t) == Queued
    ensures i.TaskExecute(t, outcome).Counted()
  {
    var j := i.TaskExecute(t, outcome);
    SetsAfter(i.status, j.status, t, Queued);
    SetsAfter(i.status, j.status, t, Executing);
  }

  lemma ExecutePlaces(i: Instance, t: int, outcome: ForkOutcome)
    requires i.Counted() && StatusIn(i.status, t) == Queued
    ensures Transfers(i, i.TaskExecute(t, outcome), [], t)
    ensures PlaceOf(i.TaskExecute(t, outcome), [], t) == if i.IsForked(outcome) then WithTid else Nowhere
  {
  }

  /** A section that ends the task's claim and leaves the instance consistent. */
  ghost predicate Settles(i: Instance, j: Instance, calls: seq<Call>, t: int) {
    j.Consistent() && Transfers(i, j, calls, t) && PlaceOf(j, calls, t) == Nowhere
  }

  /** TaskRestart moves a task from the retrier back to its queue, or ends it. */
  lemma TaskRestartTransfers(i: Instance, t: int)
    requires i.Consistent() && t in i.waiting
    ensures Settles(i, i.TaskRestart(t).0, i.TaskRestart(t).1, t)
  {
    var (j, calls) := i.TaskRestart(t);
    StillGated(i, j, t);
    RestartCounts(i, t);
    RestartPlaces(i, j, calls, t);
  }

  lemma RestartCounts(i: Instance, t: int)
    requires i.Counted() && t in i.waiting
    ensures i.TaskRestart(t).0.Counted()
  {
    var j := i.TaskRestart(t).0;
    SetsAfter(i.status, j.status, t, Queued);
    SetsAfter(i.status, j.status, t, Executing);
  }

  lemma RestartPlaces(i: Instance, j: Instance, calls: seq<Call>, t: int)
    requires (j, calls) == i.TaskRestart(t)
    ensures Transfers(i, j, calls, t) && PlaceOf(j, calls, t) == Nowhere
  {
    if calls != [] {
      assert calls[0].task == t && Asks(calls, t);
    }
  }

  /** What taking the result of a task does, before its job is looked at. */
  ghost predicate ResultTaken(i: Instance, j: Instance, calls: seq<Call>, t: int) {
    && j.doc == i.doc && j.launched == i.launched && j.cancelling == i.cancelling && j.running == i.running
    && (calls == [] || (|calls| == 1 && calls[0].RetryCall? && calls[0].task == t))
    && j.waiting == i.waiting + (if calls == [] then {} else {t}) && j.retrying == i.retrying + |calls|
    && (forall u :: u != t ==> StatusIn(j.status, u) == StatusIn(i.status, u))
    && (StatusIn(j.status, t) == Aborted || StatusIn(j.status, t).Terminated?)
    && (calls != [] ==> StatusIn(j.status, t).Terminated? && StatusIn(j.status, t).retval != 0)
  }

  lemma ResultIsTaken(i: Instance, t: int, retval: int, output: OutputOutcome)
    ensures ResultTaken(i, i.TakeResult(t, retval, output).0, i.TakeResult(t, retval, output).1, t)
  {
  }

  lemma ResultCounts(i: Instance, j: Instance, calls: seq<Call>, t: int)
    requires i.Consistent() && StatusIn(i.status, t) == Executing && ResultTaken(i, j, calls, t)
    ensures j.(running := j.running - 1).Consistent() && j.Gated()
    ensures t in i.doc.jobOf && i.doc.jobOf[t] !in i.launched
  {
    SetsAfter(i.status, j.status, t, Queued);
    SetsAfter(i.status, j.status, t, Executing);
    StillGated(i, j, t);
    StillGated(i, j.(running := j.running - 1), t);
  }

  lemma ResultSettles(i: Instance, j: Instance, calls: seq<Call>, t: int)
    requires i.Counted() && StatusIn(i.status, t) == Executing && ResultTaken(i, j, calls, t)
    requires j.(running := j.running - 1).Consistent()
    ensures Settles(i, j.(running := j.running - 1), calls, t)
  {
    if calls != [] {
      assert Asks(calls, t);
    }
  }

  /** TaskStop: the task's claim ends, and what is launched or retried takes its place. */
  lemma TaskStopTransfers(i: Instance, t: int, retval: int, output: OutputOutcome, o: Oracle)
    requires i.Consistent() && StatusIn(i.status, t) == Executing
    ensures t in i.doc.jobOf
    ensures Settles(i, i.TaskStop(t, retval, output, o).0, i.TaskStop(t, retval, output, o).1, t)
  {
    var (a, c) := i.TakeResult(t, retval, output);
    ResultIsTaken(i, t, retval, output);
    ResultCounts(i, a, c, t);
    ResultSettles(i, a, c, t);
    CloseSettles(i, a, c, i.doc.jobOf[t], t, o);
  }

  lemma CloseSettles(i: Instance, a: Instance, c: seq<Call>, job: int, t: int, o: Oracle)
    requires Settles(i, a.(running := a.running - 1), c, t)
    requires a.Gated() && 0 <= job < |a.doc.jobs| && job !in a.launched
    requires a.JobSucceeded(job) ==> c == []
    ensures Settles(i, a.CloseTask(job, o).0, c + a.CloseTask(job, o).1, t)
  {
    if a.JobSucceeded(job) {
      LaunchAfter(i, a, job, t, o);
      NoCallsFirst(c, a.CloseTask(job, o).1);
    } else {
      NoCallsAfter(a, job, c, o);
    }
  }

  lemma NoCallsFirst(c: seq<Call>, more: seq<Call>)
    requires c == []
    ensures c + more == more
  {
  }

  lemma NoCallsAfter(a: Instance, job: int, c: seq<Call>, o: Oracle)
    requires 0 <= job < |a.doc.jobs| && !a.JobSucceeded(job)
    ensures a.CloseTask(job, o).0 == a.(running := a.running - 1) && c + a.CloseTask(job, o).1 == c
  {
  }

  lemma LaunchAfter(i: Instance, a: Instance, job: int, t: int, o: Oracle)
    requires a.(running := a.running - 1).Consistent() && a.Gated()
    requires Settles(i, a.(running := a.running - 1), [], t)
    requires 0 <= job < |a.doc.jobs| && job !in a.launched && a.JobSucceeded(job)
    ensures Settles(i, a.CloseTask(job, o).0, a.CloseTask(job, o).1, t)
  {
    LaunchOnlyQueues(a, job, o);
    var (b, calls) := a.Launch(job, o);
    LaunchedCounts(a, b, calls);
    LaunchedPlaces(i, a, b, calls, t);
  }

  lemma LaunchedPlaces(i: Instance, a: Instance, b: Instance, calls: seq<Call>, t: int)
    requires Settles(i, a.(running := a.running - 1), [], t)
    requires b.(running := b.running - 1).Consistent() && OnlyQueues(a.(launched := b.launched), b, calls)
    ensures Settles(i, b.(running := b.running - 1), calls, t)
  {
    assert forall u :: u in a.waiting ==> StatusIn(a.status, u) != Fresh;
    assert b.doc == i.doc;
    LaunchedTransfers(i, a, b, calls, t);
  }

  lemma LaunchedTransfers(i: Instance, a: Instance, b: Instance, calls: seq<Call>, t: int)
    requires OnlyQueues(a.(launched := b.launched), b, calls) && b.doc == i.doc
    requires forall u :: u in a.waiting ==> StatusIn(a.status, u) != Fresh
    requires forall u :: u != t ==> PlaceOf(a, [], u) == PlaceOf(i, [], u)
    requires PlaceOf(a, [], t) == Nowhere
    ensures Transfers(i, b.(running := b.running - 1), calls, t) && PlaceOf(b.(running := b.running - 1), calls, t) == Nowhere
  {
    forall u ensures PlaceOf(b.(running := b.running - 1), calls, u) == PlaceOf(a, [], u) {
      OnlyQueuesTransfers(a.(launched := b.launched), b, calls, u);
    }
    OnlyQueuesTransfers(a.(launched := b.launched), b, calls, t);
  }

  lemma LaunchedCounts(a: Instance, b: Instance, calls: seq<Call>)
    requires a.(running := a.running - 1).Counted() && b.Gated() && OnlyQueues(a.(launched := b.launched), b, calls)
    ensures b.(running := b.running - 1).Consistent()
  {
    forall u ensures QueuedOrAborted(StatusIn(a.status, u), StatusIn(b.status, u), Asks(calls, u)) {}
    forall k | k in b.launched ensures b.(running := b.running - 1).JobSucceeded(k) {
      assert b.JobSucceeded(k);
    }
  }

  /** The job whose subjobs a TaskStop launches had not launched them before, and all its tasks have succeeded. */
  lemma LaunchedOnceAllSucceeded(i: Instance, t: int, retval: int, output: OutputOutcome, o: Oracle)
    requires i.Consistent() && StatusIn(i.status, t) == Executing
    ensures t in i.doc.jobOf && i.doc.jobOf[t] !in i.launched
    ensures var j, job := i.TaskStop(t, retval, output, o).0, i.doc.jobOf[t];
      && (job in j.launched <==> forall u :: u in i.doc.jobs[job].tasks ==> StatusIn(j.status, u) == Terminated(0))
      && j.launched == if job in j.launched then i.launched + {job} else i.launched
    ensures var (j, calls) := i.TaskStop(t, retval, output, o);
      (exists c :: c in calls && c.EnqueueCall?) ==> i.doc.jobOf[t] in j.launched
  {
    var job := i.doc.jobOf[t];
    var (a, c) := i.TakeResult(t, retval, output);
    ResultIsTaken(i, t, retval, output);
    ResultCounts(i, a, c, t);
    if a.JobSucceeded(job) {
      LaunchOnlyQueues(a, job, o);
    } else {
      assert c + [] == c;
    }
  }

  /** The callbacks an instance still expects. */
  function Outstanding(i: Instance): int {
    i.running + i.retrying
  }

  /** Once cancelled, an instance asks for nothing, starts nothing, and each callback is one fewer to come. */
  ghost predicate WindsDown(i: Instance, j: Instance, calls: seq<Call>) {
    && j.cancelling && calls == [] && Outstanding(j) == Outstanding(i) - 1
    && TasksWith(j.status, Queued) <= TasksWith(i.status, Queued)
    && TasksWith(j.status, Executing) <= TasksWith(i.status, Executing)
  }

  lemma CancelledExecuteWindsDown(i: Instance, t: int, outcome: ForkOutcome)
    requires i.cancelling
    ensures WindsDown(i, i.TaskExecute(t, outcome), [])
  {
  }

  lemma CancelledRestartWindsDown(i: Instance, t: int)
    requires i.cancelling
    ensures WindsDown(i, i.TaskRestart(t).0, i.TaskRestart(t).1)
  {
  }

  lemma CancelledStopWindsDown(i: Instance, t: int, retval: int, output: OutputOutcome, o: Oracle)
    requires i.cancelling && i.Consistent() && StatusIn(i.status, t) == Executing
    ensures t in i.doc.jobOf && WindsDown(i, i.TaskStop(t, retval, output, o).0, i.TaskStop(t, retval, output, o).1)
  {
    var (a, c) := i.TakeResult(t, retval, output);
    ResultIsTaken(i, t, retval, output);
    ResultCounts(i, a, c, t);
    var job := i.doc.jobOf[t];
    if a.JobSucceeded(job) {
      LaunchOnlyQueues(a, job, o);
      var (b, more) := a.Launch(job, o);
      assert TasksWith(b.status, Queued) == TasksWith(a.status, Queued) by {
        forall u ensures u in TasksWith(b.status, Queued) <==> u in TasksWith(a.status, Queued) {
          assert QueuedOrAborted(StatusIn(a.status, u), StatusIn(b.status, u), Asks(more, u));
        }
      }
    }
  }

  /** So every section that ends a task's claim decides the end of the instance when it is the last. */
  lemma LastCallbackEnds(i: Instance)
    requires i.Counted()
    ensures i.Ended() <==> forall t :: PlaceOf(i, [], t) == Nowhere
    ensures i.running >= 0 && i.retrying >= 0
  {
    if i.Ended() {
      forall t ensures PlaceOf(i, [], t) == Nowhere {
        assert t !in TasksWith(i.status, Queued) && t !in TasksWith(i.status, Executing) && t !in i.waiting;
      }
    }
    if forall t :: PlaceOf(i, [], t) == Nowhere {
      forall t ensures t !in TasksWith(i.status, Queued) && t !in TasksWith(i.status, Executing) && t !in i.waiting {
        assert PlaceOf(i, [], t) == Nowhere;
      }
      assert TasksWith(i.status, Queued) == {} && TasksWith(i.status, Executing) == {} && i.waiting == {};
    }
  }
}
