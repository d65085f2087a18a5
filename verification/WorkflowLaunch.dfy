/**
 * What each section decides: which tasks a launch queues, in what order, which it aborts, and how
 * a result is recorded. All of it is told from the document and the state before, without
 * following the recursion of the section itself.
 */
module WorkflowLaunch {
  import opened RetryPlan
  import opened Subsequences
  import opened WorkflowState

  function TasksOf(doc: Document, k: int): seq<int> {
    if 0 <= k < |doc.jobs| then doc.jobs[k].tasks else []
  }

  /** A subjob that raises no exception: its condition is false, or is true and every input value can be computed. */
  predicate Passes(doc: Document, k: int, o: Oracle) {
    k !in o.conditionErrors && (k in o.conditionsFalse || forall t :: t in TasksOf(doc, k) ==> t !in o.badInputs)
  }

  /** The m-th of these tasks is t, and up to it every input value can be computed. */
  predicate GoodAt(tasks: seq<int>, o: Oracle, m: int, t: int) {
    0 <= m < |tasks| && tasks[m] == t && forall b :: 0 <= b <= m ==> tasks[b] !in o.badInputs
  }

  /** The n-th subjob is run: its condition is not false, and nothing before it has raised an exception. */
  predicate Entered(doc: Document, subjobs: seq<int>, o: Oracle, n: int) {
    && 0 <= n < |subjobs| && subjobs[n] !in o.conditionErrors && subjobs[n] !in o.conditionsFalse
    && forall a :: 0 <= a < n ==> Passes(doc, subjobs[a], o)
  }

  /** The launch comes to the task before the first exception. */
  ghost predicate IsReached(doc: Document, subjobs: seq<int>, o: Oracle, t: int) {
    exists n, m :: Entered(doc, subjobs, o, n) && GoodAt(TasksOf(doc, subjobs[n]), o, m, t)
  }

  ghost function Reached(doc: Document, subjobs: seq<int>, o: Oracle): iset<int> {
    iset t | IsReached(doc, subjobs, o, t)
  }

  /** Some subjob raises an exception. */
  predicate Fails(doc: Document, subjobs: seq<int>, o: Oracle) {
    exists n :: 0 <= n < |subjobs| && !Passes(doc, subjobs[n], o)
  }

  /** The tasks of some jobs in the order of the document. */
  function InDocument(doc: Document, subjobs: seq<int>): seq<int> {
    if subjobs == [] then [] else TasksOf(doc, subjobs[0]) + InDocument(doc, subjobs[1..])
  }

  function Asked(calls: seq<Call>): (tasks: seq<int>)
    ensures |tasks| == |calls|
  {
    seq(|calls|, k requires 0 <= k < |calls| => calls[k].task)
  }

  /** The status of a task that is to be queued. */
  function AfterEnqueue(i: Instance, t: int): Status {
    if i.cancelling || t !in i.doc.queueOf then Aborted else Queued
  }

  /** Whether a call puts a task into its queue. */
  predicate Enqueues(i: Instance, c: Call) {
    c.EnqueueCall? && !i.cancelling && c.task in i.doc.queueOf && c.queue == i.doc.queueOf[c.task]
  }

  function UncountedErrors(i: Instance): int {
    i.errors - |TasksWith(i.status, Aborted)|
  }

  /**
   * Exactly these tasks have been queued or aborted, each asked for in this order if it has a
   * queue, and besides the aborted tasks so many errors have been counted.
   */
  ghost predicate Launches(i: Instance, j: Instance, calls: seq<Call>, tasks: iset<int>, order: seq<int>, failed: bool) {
    && j.doc == i.doc && j.cancelling == i.cancelling && j.attributes == i.attributes && j.waiting == i.waiting
    && (forall t :: StatusIn(j.status, t) == if t in tasks then AfterEnqueue(i, t) else StatusIn(i.status, t))
    && (forall c :: c in calls <==> Enqueues(i, c) && c.task in tasks)
    && IsSubsequence(Asked(calls), order)
    && UncountedErrors(j) == UncountedErrors(i) + if failed then 1 else 0
  }

  lemma AskedBoth(a: seq<Call>, b: seq<Call>)
    ensures Asked(a + b) == Asked(a) + Asked(b)
  {
  }

  lemma LaunchesNothing(i: Instance, order: seq<int>, failed: bool)
    ensures Launches(i, i.(errors := i.errors + if failed then 1 else 0), [], iset{}, order, failed)
  {
    NothingIsSubsequence(order);
    assert Asked([]) == [];
  }

  /** Two parts of a launch. */
  lemma LaunchesBoth(i: Instance, j: Instance, k: Instance, c: seq<Call>, d: seq<Call>, s: iset<int>, t: iset<int>, p: seq<int>, q: seq<int>, failed: bool)
    requires Launches(i, j, c, s, p, false) && Launches(j, k, d, t, q, failed)
    ensures Launches(i, k, c + d, s + t, p + q, failed)
  {
    SubsequencesJoin(Asked(c), p, Asked(d), q);
    AskedBoth(c, d);
  }

  lemma OneLaunched(i: Instance, t: int)
    requires StatusIn(i.status, t) == Fresh
    ensures Launches(i, i.EnqueueTask(t).0, i.EnqueueTask(t).1, iset{t}, [t], false)
  {
    var (j, calls) := i.EnqueueTask(t);
    SetsAfter(i.status, j.status, t, Aborted);
    NothingIsSubsequence([t]);
    if calls != [] {
      assert Asked(calls) == [t];
      assert IsSubsequence([t][..0], [t][..0]);
    } else {
      assert Asked(calls) == [];
    }
  }

  /** The tasks of a job before the first whose input values cannot be computed. */
  ghost predicate IsGood(tasks: seq<int>, o: Oracle, t: int) {
    exists m :: GoodAt(tasks, o, m, t)
  }

  ghost function Good(tasks: seq<int>, o: Oracle): iset<int> {
    iset t | IsGood(tasks, o, t)
  }

  lemma GoodFirst(tasks: seq<int>, o: Oracle)
    requires tasks != []
    ensures Good(tasks, o) == if tasks[0] in o.badInputs then iset{} else iset{tasks[0]} + Good(tasks[1..], o)
  {
    var rest := tasks[1..];
    if tasks[0] !in o.badInputs {
      assert GoodAt(tasks, o, 0, tasks[0]);
      forall t ensures t in Good(tasks, o) <==> t == tasks[0] || t in Good(rest, o) {
        if m :| GoodAt(tasks, o, m, t) {
          assert m > 0 ==> GoodAt(rest, o, m - 1, t);
        }
        if m :| GoodAt(rest, o, m, t) {
          assert GoodAt(tasks, o, m + 1, t);
        }
      }
    }
  }

  lemma {:induction false} JobLaunched(i: Instance, tasks: seq<int>, o: Oracle)
    requires Unique(tasks) && forall t :: t in tasks ==> StatusIn(i.status, t) == Fresh
    ensures var (j, calls, ok) := i.RunTasks(tasks, o);
      Launches(i, j, calls, Good(tasks, o), tasks, false) && (ok <==> forall t :: t in tasks ==> t !in o.badInputs)
    decreases |tasks|
  {
    if tasks == [] {
      LaunchesNothing(i, [], false);
      assert Good([], o) == iset{};
    } else {
      var t, rest := tasks[0], tasks[1..];
      GoodFirst(tasks, o);
      if t in o.badInputs {
        LaunchesNothing(i, tasks, false);
      } else {
        OneLaunched(i, t);
        var (j, calls) := i.EnqueueTask(t);
        assert forall u :: u in rest ==> u in tasks && u != t;
        JobLaunched(j, rest, o);
        LaunchesBoth(i, j, j.RunTasks(rest, o).0, calls, j.RunTasks(rest, o).1, iset{t}, Good(rest, o), [t], rest, false);
        assert [t] + rest == tasks;
      }
    }
  }

  function NotTerminated(status: map<int, Status>, tasks: seq<int>): seq<int> {
    if tasks == [] then []
    else (if StatusIn(status, tasks[0]).Terminated? then [] else [tasks[0]]) + NotTerminated(status, tasks[1..])
  }

  lemma {:induction false} OtherStatus(before: map<int, Status>, after: map<int, Status>, tasks: seq<int>)
    requires forall t :: t in tasks ==> StatusIn(after, t) == StatusIn(before, t)
    ensures NotTerminated(after, tasks) == NotTerminated(before, tasks)
  {
    if tasks != [] {
      OtherStatus(before, after, tasks[1..]);
    }
  }

  /** Running a job again passes over its terminated tasks, as if it had only the others. */
  lemma {:induction false} TerminatedArePassedOver(i: Instance, tasks: seq<int>, o: Oracle)
    requires Unique(tasks)
    ensures i.RunTasks(tasks, o) == i.RunTasks(NotTerminated(i.status, tasks), o)
    decreases |tasks|
  {
    if tasks != [] {
      var t, rest := tasks[0], tasks[1..];
      var left := NotTerminated(i.status, rest);
      assert [] + left == left && ([t] + left)[1..] == left;
      if StatusIn(i.status, t).Terminated? {
        TerminatedArePassedOver(i, rest, o);
      } else if t !in o.badInputs {
        var j := i.EnqueueTask(t).0;
        assert forall u :: u in rest ==> u != t;
        TerminatedArePassedOver(j, rest, o);
        OtherStatus(i.status, j.status, rest);
      }
    }
  }

  lemma EnteredNext(doc: Document, subjobs: seq<int>, o: Oracle, n: int)
    requires subjobs != []
    ensures n > 0 ==> (Entered(doc, subjobs, o, n) <==> Passes(doc, subjobs[0], o) && Entered(doc, subjobs[1..], o, n - 1))
  {
    var rest := subjobs[1..];
    if n > 0 && Entered(doc, rest, o, n - 1) && Passes(doc, subjobs[0], o) {
      forall a | 0 <= a < n ensures Passes(doc, subjobs[a], o) {
        assert a > 0 ==> subjobs[a] == rest[a - 1];
      }
    }
  }

  lemma ReachedFirst(doc: Document, subjobs: seq<int>, o: Oracle)
    requires subjobs != []
    ensures Reached(doc, subjobs, o) ==
      (if Entered(doc, subjobs, o, 0) then Good(TasksOf(doc, subjobs[0]), o) else iset{})
      + (if Passes(doc, subjobs[0], o) then Reached(doc, subjobs[1..], o) else iset{})
    ensures Fails(doc, subjobs, o) <==> !Passes(doc, subjobs[0], o) || Fails(doc, subjobs[1..], o)
  {
    var rest := subjobs[1..];
    forall t ensures t in Reached(doc, subjobs, o)
      <==> (Entered(doc, subjobs, o, 0) && t in Good(TasksOf(doc, subjobs[0]), o)) || (Passes(doc, subjobs[0], o) && t in Reached(doc, rest, o))
    {
      if n, m :| Entered(doc, subjobs, o, n) && GoodAt(TasksOf(doc, subjobs[n]), o, m, t) {
        EnteredNext(doc, subjobs, o, n);
        assert n > 0 ==> subjobs[n] == rest[n - 1];
      }
      if n, m :| Entered(doc, rest, o, n) && GoodAt(TasksOf(doc, rest[n]), o, m, t) {
        EnteredNext(doc, subjobs, o, n + 1);
        assert subjobs[n + 1] == rest[n];
      }
    }
    if n :| 0 <= n < |subjobs| && !Passes(doc, subjobs[n], o) {
      assert n > 0 ==> subjobs[n] == rest[n - 1];
    }
    if n :| 0 <= n < |rest| && !Passes(doc, rest[n], o) {
      assert subjobs[n + 1] == rest[n];
    }
  }

  lemma NothingReached(doc: Document, o: Oracle)
    ensures Reached(doc, [], o) == iset{} && !Fails(doc, [], o)
  {
  }

  /** A launch of these subjobs does what it should. */
  ghost predicate Launched(i: Instance, j: Instance, calls: seq<Call>, subjobs: seq<int>, o: Oracle) {
    Launches(i, j, calls, Reached(i.doc, subjobs, o), InDocument(i.doc, subjobs), Fails(i.doc, subjobs, o))
  }

  lemma SkippedThen(i: Instance, j: Instance, calls: seq<Call>, subjobs: seq<int>, o: Oracle)
    requires subjobs != [] && subjobs[0] !in o.conditionErrors && subjobs[0] in o.conditionsFalse
    requires Launched(i, j, calls, subjobs[1..], o)
    ensures Launched(i, j, calls, subjobs, o)
  {
    var k, rest := subjobs[0], subjobs[1..];
    ReachedFirst(i.doc, subjobs, o);
    LaunchesNothing(i, TasksOf(i.doc, k), false);
    LaunchesBoth(i, i, j, [], calls, iset{}, Reached(i.doc, rest, o), TasksOf(i.doc, k), InDocument(i.doc, rest), Fails(i.doc, rest, o));
    assert [] + calls == calls && iset{} + Reached(i.doc, rest, o) == Reached(i.doc, subjobs, o);
  }

  lemma EnteredThen(i: Instance, j: Instance, l: Instance, calls: seq<Call>, more: seq<Call>, subjobs: seq<int>, o: Oracle)
    requires subjobs != [] && Entered(i.doc, subjobs, o, 0) && Passes(i.doc, subjobs[0], o)
    requires Launches(i, j, calls, Good(TasksOf(i.doc, subjobs[0]), o), TasksOf(i.doc, subjobs[0]), false)
    requires Launched(j, l, more, subjobs[1..], o)
    ensures Launched(i, l, calls + more, subjobs, o)
  {
    var tasks, rest := TasksOf(i.doc, subjobs[0]), subjobs[1..];
    ReachedFirst(i.doc, subjobs, o);
    LaunchesBoth(i, j, l, calls, more, Good(tasks, o), Reached(i.doc, rest, o), tasks, InDocument(i.doc, rest), Fails(i.doc, rest, o));
  }

  lemma ExceptionThen(i: Instance, j: Instance, calls: seq<Call>, subjobs: seq<int>, o: Oracle)
    requires subjobs != [] && Entered(i.doc, subjobs, o, 0) && !Passes(i.doc, subjobs[0], o)
    requires Launches(i, j, calls, Good(TasksOf(i.doc, subjobs[0]), o), TasksOf(i.doc, subjobs[0]), false)
    ensures Launched(i, j.(errors := j.errors + 1), calls, subjobs, o)
  {
    var tasks, rest := TasksOf(i.doc, subjobs[0]), InDocument(i.doc, subjobs[1..]);
    ReachedFirst(i.doc, subjobs, o);
    LaunchesNothing(j, rest, true);
    LaunchesBoth(i, j, j.(errors := j.errors + 1), calls, [], Good(tasks, o), iset{}, tasks, rest, true);
    assert calls + [] == calls && Good(tasks, o) + iset{} == Reached(i.doc, subjobs, o);
  }

  /** run_subjobs, from some subjob on. */
  lemma {:induction false} SubjobsLaunched(i: Instance, subjobs: seq<int>, o: Oracle)
    requires i.doc.Valid() && Startable(i, subjobs)
    ensures Launched(i, i.RunSubjobs(subjobs, o).0, i.RunSubjobs(subjobs, o).1, subjobs, o)
    decreases |subjobs|
  {
    if subjobs == [] {
      NothingReached(i.doc, o);
      LaunchesNothing(i, [], false);
    } else {
      var k, rest := subjobs[0], subjobs[1..];
      assert k in subjobs && forall l :: l in rest ==> l in subjobs && l != k;
      if k in o.conditionErrors {
        ReachedFirst(i.doc, subjobs, o);
        LaunchesNothing(i, InDocument(i.doc, subjobs), true);
      } else if k in o.conditionsFalse {
        SubjobsLaunched(i, rest, o);
        SkippedThen(i, i.RunSubjobs(rest, o).0, i.RunSubjobs(rest, o).1, subjobs, o);
      } else {
        JobEntered(i, subjobs, o);
        var (j, calls, ok) := i.RunTasks(TasksOf(i.doc, k), o);
        if ok {
          SubjobsLaunched(j, rest, o);
          EnteredThen(i, j, j.RunSubjobs(rest, o).0, calls, j.RunSubjobs(rest, o).1, subjobs, o);
        } else {
          ExceptionThen(i, j, calls, subjobs, o);
        }
      }
    }
  }

  /** Running the first subjob leaves those after it to be launched. */
  lemma JobEntered(i: Instance, subjobs: seq<int>, o: Oracle)
    requires i.doc.Valid() && Startable(i, subjobs) && subjobs != []
    ensures var k, (j, calls, ok) := subjobs[0], i.RunTasks(TasksOf(i.doc, subjobs[0]), o);
      && Launches(i, j, calls, Good(TasksOf(i.doc, k), o), TasksOf(i.doc, k), false)
      && (ok <==> forall t :: t in TasksOf(i.doc, k) ==> t !in o.badInputs)
      && Startable(j, subjobs[1..])
  {
    var k, rest := subjobs[0], subjobs[1..];
    assert k in subjobs && forall l :: l in rest ==> l in subjobs && l != k;
    JobLaunched(i, TasksOf(i.doc, k), o);
    RunOnlyQueues(i, TasksOf(i.doc, k), o);
  }

  lemma ReachedIsInSubjob(doc: Document, subjobs: seq<int>, o: Oracle, t: int)
    requires doc.Valid() && IsReached(doc, subjobs, o, t)
    ensures t in doc.jobOf && doc.jobOf[t] in subjobs
  {
    var n, m :| Entered(doc, subjobs, o, n) && GoodAt(TasksOf(doc, subjobs[n]), o, m, t);
    assert t in TasksOf(doc, subjobs[n]) && subjobs[n] in subjobs;
  }

  /**
   * The first launch of a job's subjobs: exactly the tasks it comes to are queued, or aborted where
   * that is not possible; each is asked for once, in the order of the document; an exception is one
   * more error and leaves every later task alone.
   */
  lemma LaunchDecides(i: Instance, job: int, o: Oracle)
    requires i.Gated() && 0 <= job < |i.doc.jobs| && job !in i.launched && i.JobSucceeded(job)
    ensures Launched(i, i.Launch(job, o).0, i.Launch(job, o).1, i.doc.jobs[job].subjobs, o)
    ensures Once(i.Launch(job, o).1) && i.Launch(job, o).0.launched == i.launched + {job}
    ensures forall t :: IsReached(i.doc, i.doc.jobs[job].subjobs, o, t) ==> StatusIn(i.status, t) == Fresh
  {
    var subjobs := i.doc.jobs[job].subjobs;
    var started := i.(launched := i.launched + {job});
    LaunchOnlyQueues(i, job, o);
    forall k | k in subjobs ensures 0 < k < |i.doc.jobs| && i.doc.parent[k] == job {
      SubjobsFollow(i.doc, job, k);
    }
    forall t | t in i.doc.jobOf && i.doc.jobOf[t] in subjobs ensures StatusIn(i.status, t) == Fresh {
      assert i.doc.parent[i.doc.jobOf[t]] == job;
    }
    SubjobsLaunched(started, subjobs, o);
    forall t | IsReached(i.doc, subjobs, o, t) ensures StatusIn(i.status, t) == Fresh {
      ReachedIsInSubjob(i.doc, subjobs, o, t);
    }
  }

  /** Start is the launch of the root's subjobs. */
  lemma StartDecides(doc: Document, attributes: map<int, Attributes>, cancelling: bool, o: Oracle)
    requires doc.Valid()
    ensures var i := NewInstance(doc, attributes, cancelling);
      Launched(i, i.Start(o).0, i.Start(o).1, doc.jobs[0].subjobs, o) && Once(i.Start(o).1)
  {
    LaunchDecides(NewInstance(doc, attributes, cancelling), 0, o);
  }

  // A task's result

  function ResultStatus(retval: int, output: OutputOutcome): Status {
    if retval != 0 || output.OutputTaken? then Terminated(retval) else Aborted
  }

  /** A task that has failed is tried again. */
  predicate TriesAgain(i: Instance, t: int, retval: int) {
    retval != 0 && !i.cancelling && RetryTask(i.AttributesOf(t), retval).1.Retry?
  }

  /** It is tried again after so long. */
  predicate IsRetried(i: Instance, t: int, retval: int, after: int) {
    TriesAgain(i, t, retval) && RetryTask(i.AttributesOf(t), retval).1.after == after
  }

  /** A task that has failed for good. */
  predicate GivesUp(i: Instance, t: int, retval: int) {
    retval != 0 && !i.cancelling && RetryTask(i.AttributesOf(t), retval).1 == Error
  }

  function AttributesAfter(i: Instance, t: int, retval: int): Attributes {
    if retval != 0 && !i.cancelling then RetryTask(i.AttributesOf(t), retval).0 else i.AttributesOf(t)
  }

  /** Only the attributes of t have changed, to these. */
  ghost predicate AttributesBecome(i: Instance, j: Instance, t: int, a: Attributes) {
    forall u :: j.AttributesOf(u) == if u == t then a else i.AttributesOf(u)
  }

  /** What the first half of TaskStop decides. */
  ghost predicate Recorded(i: Instance, j: Instance, calls: seq<Call>, t: int, retval: int, output: OutputOutcome) {
    && j.doc == i.doc && j.cancelling == i.cancelling && j.launched == i.launched
    && (forall u :: StatusIn(j.status, u) == if u == t then ResultStatus(retval, output) else StatusIn(i.status, u))
    && (forall c :: c in calls <==> c.RetryCall? && c.task == t && IsRetried(i, t, retval, c.after))
    && AttributesBecome(i, j, t, AttributesAfter(i, t, retval))
    && j.waiting == (if TriesAgain(i, t, retval) then i.waiting + {t} else i.waiting)
    && UncountedErrors(j) == UncountedErrors(i) + if GivesUp(i, t, retval) then 1 else 0
  }

  lemma RetryDecides(i: Instance, t: int, retval: int)
    ensures var (j, calls) := i.Retry(t, retval);
      && (forall c :: c in calls <==> c.RetryCall? && c.task == t && RetryTask(i.AttributesOf(t), retval).1 == Retry(c.after))
      && AttributesBecome(i, j, t, RetryTask(i.AttributesOf(t), retval).0)
      && j.errors == i.errors + if RetryTask(i.AttributesOf(t), retval).1 == Error then 1 else 0
  {
    var (j, calls) := i.Retry(t, retval);
    assert RetryTask(i.AttributesOf(t), retval).1.Retry? ==> calls == [RetryCall(t, RetryTask(i.AttributesOf(t), retval).1.after)];
  }

  lemma ResultDecides(i: Instance, t: int, retval: int, output: OutputOutcome)
    requires StatusIn(i.status, t) == Executing
    ensures Recorded(i, i.TakeResult(t, retval, output).0, i.TakeResult(t, retval, output).1, t, retval, output)
  {
    if retval != 0 && !i.cancelling {
      FailureDecides(i, t, retval, output);
    } else {
      SuccessDecides(i, t, retval, output);
    }
  }

  lemma SuccessDecides(i: Instance, t: int, retval: int, output: OutputOutcome)
    requires StatusIn(i.status, t) == Executing && (retval == 0 || i.cancelling)
    ensures Recorded(i, i.TakeResult(t, retval, output).0, i.TakeResult(t, retval, output).1, t, retval, output)
  {
    var s := ResultStatus(retval, output);
    if s == Aborted {
      assert i.status[t := Terminated(retval)][t := s] == i.status[t := s];
    }
    assert i.TakeResult(t, retval, output) == (i.(status := i.status[t := s], errors := i.errors + if s == Aborted then 1 else 0), []);
    OneStatusSet(i, t, s);
  }

  lemma OneStatusSet(i: Instance, t: int, s: Status)
    requires StatusIn(i.status, t) == Executing && s != Fresh
    ensures var j := i.(status := i.status[t := s], errors := i.errors + if s == Aborted then 1 else 0);
      && UncountedErrors(j) == UncountedErrors(i)
      && (forall u :: StatusIn(j.status, u) == if u == t then s else StatusIn(i.status, u))
      && AttributesBecome(i, j, t, i.AttributesOf(t))
  {
    SetsAfter(i.status, i.status[t := s], t, Aborted);
  }

  lemma FailureDecides(i: Instance, t: int, retval: int, output: OutputOutcome)
    requires StatusIn(i.status, t) == Executing && retval != 0 && !i.cancelling
    ensures Recorded(i, i.TakeResult(t, retval, output).0, i.TakeResult(t, retval, output).1, t, retval, output)
  {
    var terminated := i.(status := i.status[t := Terminated(retval)]);
    SetsAfter(i.status, terminated.status, t, Aborted);
    RetryDecides(terminated, t, retval);
    assert forall u :: terminated.AttributesOf(u) == i.AttributesOf(u);
  }

  /** With this result every task of t's job has succeeded. */
  ghost predicate Completes(i: Instance, t: int, retval: int, output: OutputOutcome)
    requires i.doc.Valid() && t in i.doc.jobOf
  {
    && retval == 0 && output.OutputTaken?
    && forall u :: u in i.doc.jobs[i.doc.jobOf[t]].tasks && u != t ==> StatusIn(i.status, u) == Terminated(0)
  }

  /** What TaskStop decides, whole. */
  ghost predicate Stopped(i: Instance, j: Instance, calls: seq<Call>, t: int, retval: int, output: OutputOutcome, o: Oracle)
    requires i.doc.Valid() && t in i.doc.jobOf
  {
    var subjobs, completes := i.doc.jobs[i.doc.jobOf[t]].subjobs, Completes(i, t, retval, output);
    && j.doc == i.doc && j.cancelling == i.cancelling
    && StatusIn(j.status, t) == ResultStatus(retval, output)
    && (forall u :: u != t ==>
      StatusIn(j.status, u) == if completes && IsReached(i.doc, subjobs, o, u) then AfterEnqueue(i, u) else StatusIn(i.status, u))
    && (forall c :: c in calls <==>
      || (c.RetryCall? && c.task == t && IsRetried(i, t, retval, c.after))
      || (completes && Enqueues(i, c) && IsReached(i.doc, subjobs, o, c.task)))
    && (completes ==> IsSubsequence(Asked(calls), InDocument(i.doc, subjobs)))
    && (completes ==> forall u :: IsReached(i.doc, subjobs, o, u) ==> StatusIn(i.status, u) == Fresh)
    && AttributesBecome(i, j, t, AttributesAfter(i, t, retval))
    && j.waiting == (if TriesAgain(i, t, retval) then i.waiting + {t} else i.waiting)
    && (i.doc.jobOf[t] in j.launched <==> completes)
    && UncountedErrors(j) == UncountedErrors(i)
      + (if GivesUp(i, t, retval) then 1 else 0) + (if completes && Fails(i.doc, subjobs, o) then 1 else 0)
  }

  lemma StopDecides(i: Instance, t: int, retval: int, output: OutputOutcome, o: Oracle)
    requires i.Consistent() && StatusIn(i.status, t) == Executing
    ensures t in i.doc.jobOf && Stopped(i, i.TaskStop(t, retval, output, o).0, i.TaskStop(t, retval, output, o).1, t, retval, output, o)
  {
    var job := i.doc.jobOf[t];
    var (a, c) := i.TakeResult(t, retval, output);
    ResultDecides(i, t, retval, output);
    ResultIsTaken(i, t, retval, output);
    ResultCounts(i, a, c, t);
    CompletesIff(i, a, c, t, retval, output);
    if a.JobSucceeded(job) {
      LaunchDecides(a, job, o);
      StoppedThenLaunched(i, a, a.Launch(job, o).0, a.Launch(job, o).1, t, retval, output, o);
      NoCallsFirst(c, a.Launch(job, o).1);
    } else {
      NoCallsAfter(a, job, c, o);
      StoppedOnly(i, a, c, t, retval, output, o);
    }
  }

  lemma CompletesIff(i: Instance, a: Instance, c: seq<Call>, t: int, retval: int, output: OutputOutcome)
    requires i.doc.Valid() && t in i.doc.jobOf && Recorded(i, a, c, t, retval, output)
    ensures a.JobSucceeded(i.doc.jobOf[t]) <==> Completes(i, t, retval, output)
    ensures a.JobSucceeded(i.doc.jobOf[t]) ==> c == []
  {
    assert t in i.doc.jobs[i.doc.jobOf[t]].tasks;
    if c != [] {
      assert c[0] in c;
    }
  }

  lemma StoppedOnly(i: Instance, a: Instance, c: seq<Call>, t: int, retval: int, output: OutputOutcome, o: Oracle)
    requires i.doc.Valid() && t in i.doc.jobOf && Recorded(i, a, c, t, retval, output) && !Completes(i, t, retval, output)
    requires i.doc.jobOf[t] !in i.launched
    ensures Stopped(i, a.(running := a.running - 1), c, t, retval, output, o)
  {
  }

  lemma StoppedThenLaunched(i: Instance, a: Instance, b: Instance, calls: seq<Call>, t: int, retval: int, output: OutputOutcome, o: Oracle)
    requires i.doc.Valid() && t in i.doc.jobOf && Recorded(i, a, [], t, retval, output) && Completes(i, t, retval, output)
    requires Launched(a, b, calls, i.doc.jobs[i.doc.jobOf[t]].subjobs, o) && i.doc.jobOf[t] in b.launched
    requires forall u :: IsReached(i.doc, i.doc.jobs[i.doc.jobOf[t]].subjobs, o, u) ==> StatusIn(a.status, u) == Fresh
    ensures Stopped(i, b.(running := b.running - 1), calls, t, retval, output, o)
  {
  }

  // The other callbacks

  /** TaskExecute: only a task that is forked, of an instance not cancelled, executes; any other is aborted and counted. */
  lemma ExecuteDecides(i: Instance, t: int, outcome: ForkOutcome)
    requires StatusIn(i.status, t) == Queued
    ensures var j, forked := i.TaskExecute(t, outcome), !i.cancelling && outcome.Forked?;
      && (forall u :: StatusIn(j.status, u) == if u != t then StatusIn(i.status, u) else if forked then Executing else Aborted)
      && j.running == i.running - (if forked then 0 else 1)
      && j.errors == i.errors + (if forked then 0 else 1)
      && j.attributes == i.attributes && j.waiting == i.waiting && j.retrying == i.retrying && j.cancelling == i.cancelling
  {
  }

  /** TaskRestart: the task goes back to its queue with the attributes it has, or is aborted and counted. */
  lemma RestartDecides(i: Instance, t: int)
    ensures var (j, calls) := i.TaskRestart(t);
      && (forall u :: StatusIn(j.status, u) == if u == t then AfterEnqueue(i, t) else StatusIn(i.status, u))
      && (forall c :: c in calls <==> Enqueues(i, c) && c.task == t)
      && j.errors == i.errors + (if AfterEnqueue(i, t) == Aborted then 1 else 0)
      && j.waiting == i.waiting - {t} && j.retrying == i.retrying - 1
      && j.attributes == i.attributes && j.cancelling == i.cancelling
  {
    var calls := i.TaskRestart(t).1;
    assert calls != [] ==> calls == [EnqueueCall(t, i.doc.queueOf[t])];
  }
}
