/** Resuming an instance from its savepoint: the counters are rebuilt from the statuses alone. */
module ResumeState {
  import opened RetryPlan
  import opened Subsequences
  import opened WorkflowState
  import opened WorkflowLaunch

  /** An instance read back from a savepoint: statuses and attributes as saved, counters at zero. */
  function Saved(doc: Document, status: map<int, Status>, attributes: map<int, Attributes>, launched: set<int>): Instance {
    Instance(doc, status, attributes, {}, launched, 0, 0, 0, false)
  }

  /** What Resume does with one task; an executing one is registered again under its id. */
  function ResumeTask(i: Instance, t: int): (Instance, seq<Call>) {
    match StatusIn(i.status, t)
    case Queued => i.EnqueueTask(t)
    case Executing => (i.(running := i.running + 1), [])
    case Terminated(retval) => if retval != 0 then i.Retry(t, retval) else (i, [])
    case _ => (i, [])
  }

  /** Resume, over the tasks of the document. */
  function Resume(i: Instance, tasks: seq<int>): (Instance, seq<Call>)
    decreases |tasks|
  {
    if tasks == [] then (i, [])
    else
      var (j, calls) := ResumeTask(i, tasks[0]);
      var (k, more) := Resume(j, tasks[1..]);
      (k, calls + more)
  }

  function Tasks(tasks: seq<int>): set<int> {
    set t | t in tasks
  }

  /** Part of the tasks have been resumed: the counters count those. */
  ghost predicate PartResumed(i: Instance, left: set<int>) {
    && i.running == |TasksWith(i.status, Queued) - left| + |TasksWith(i.status, Executing) - left|
    && i.retrying == |i.waiting| && i.waiting !! left && !i.cancelling
    && forall t :: t in i.waiting ==> StatusIn(i.status, t).Terminated? && StatusIn(i.status, t).retval != 0
  }

  /** What one task's resumption leaves alone, and what it asks for. */
  ghost predicate Resumed(i: Instance, j: Instance, t: int, calls: seq<Call>) {
    && j.doc == i.doc && j.launched == i.launched
    && (forall u :: u != t ==> StatusIn(j.status, u) == StatusIn(i.status, u) && (u in j.waiting <==> u in i.waiting))
    && (StatusIn(j.status, t) == StatusIn(i.status, t) || (StatusIn(i.status, t) == Queued && StatusIn(j.status, t) == Aborted))
    && |calls| <= 1 && Justified(j, calls) && (calls != [] ==> calls[0].task == t)
    && (StatusIn(j.status, t) == Queued || t in j.waiting ==> calls != [])
  }

  lemma TaskResumed(i: Instance, t: int)
    requires !i.cancelling && t !in i.waiting
    ensures Resumed(i, ResumeTask(i, t).0, t, ResumeTask(i, t).1)
  {
  }

  lemma TaskCounted(i: Instance, t: int, left: set<int>)
    requires PartResumed(i, left) && t in left
    ensures PartResumed(ResumeTask(i, t).0, left - {t})
  {
    var j := ResumeTask(i, t).0;
    TaskResumed(i, t);
    CountAfter(i.status, j.status, t, left, Queued);
    CountAfter(i.status, j.status, t, left, Executing);
    TaskCounters(i, t);
  }

  /** The counters after one task. */
  lemma TaskCounters(i: Instance, t: int)
    requires !i.cancelling && t !in i.waiting
    ensures var j := ResumeTask(i, t).0;
      && !j.cancelling
      && j.running == i.running + (if StatusIn(j.status, t) == Queued || StatusIn(j.status, t) == Executing then 1 else 0)
      && j.retrying - |j.waiting| == i.retrying - |i.waiting|
      && (t in j.waiting ==> StatusIn(j.status, t).Terminated? && StatusIn(j.status, t).retval != 0)
      && j.waiting <= i.waiting + {t}
  {
  }

  lemma CountAfter(before: map<int, Status>, after: map<int, Status>, t: int, left: set<int>, s: Status)
    requires forall u :: u != t ==> StatusIn(after, u) == StatusIn(before, u)
    requires s != Fresh && t in left
    ensures |TasksWith(after, s) - (left - {t})| == |TasksWith(before, s) - left| + if StatusIn(after, t) == s then 1 else 0
  {
    SetsAfter(before, after, t, s);
    OneOut(TasksWith(before, s), TasksWith(after, s), left, t, StatusIn(after, t) == s);
  }

  lemma OneOut(before: set<int>, after: set<int>, left: set<int>, t: int, more: bool)
    requires t in left && after == if more then before + {t} else before - {t}
    ensures |after - (left - {t})| == |before - left| + if more then 1 else 0
  {
    if more {
      assert after - (left - {t}) == (before - left) + {t};
    } else {
      assert after - (left - {t}) == before - left;
    }
  }

  lemma FirstOf(tasks: seq<int>)
    requires Unique(tasks) && tasks != []
    ensures Unique(tasks[1..]) && tasks[0] !in tasks[1..] && tasks[0] in Tasks(tasks)
    ensures Tasks(tasks[1..]) == Tasks(tasks) - {tasks[0]}
  {
    forall u ensures u in Tasks(tasks) <==> u == tasks[0] || u in Tasks(tasks[1..]) {}
  }

  lemma {:induction false} AllCounted(i: Instance, tasks: seq<int>)
    requires Unique(tasks) && PartResumed(i, Tasks(tasks))
    ensures PartResumed(Resume(i, tasks).0, {})
    decreases |tasks|
  {
    if tasks == [] {
      assert Tasks(tasks) == {};
    } else {
      FirstOf(tasks);
      TaskCounted(i, tasks[0], Tasks(tasks));
      AllCounted(ResumeTask(i, tasks[0]).0, tasks[1..]);
    }
  }

  /** What resuming some tasks leaves alone, and what it asks for. */
  ghost predicate Through(i: Instance, j: Instance, tasks: seq<int>, calls: seq<Call>) {
    && j.doc == i.doc && !j.cancelling && Justified(j, calls)
    && (forall t :: t !in tasks ==> StatusIn(j.status, t) == StatusIn(i.status, t) && (t in j.waiting <==> t in i.waiting))
    && (forall t :: StatusIn(j.status, t) == Executing <==> StatusIn(i.status, t) == Executing)
    && (forall t :: Asks(calls, t) ==> t in tasks)
    && (forall t :: t in tasks && (StatusIn(j.status, t) == Queued || t in j.waiting) ==> Asks(calls, t))
  }

  lemma {:induction false} AllResumed(i: Instance, tasks: seq<int>)
    requires Unique(tasks) && !i.cancelling && forall t :: t in tasks ==> t !in i.waiting
    ensures Through(i, Resume(i, tasks).0, tasks, Resume(i, tasks).1)
    decreases |tasks|
  {
    if tasks != [] {
      var t, rest := tasks[0], tasks[1..];
      var (j, calls) := ResumeTask(i, t);
      FirstOf(tasks);
      TaskResumed(i, t);
      TaskCounters(i, t);
      AllResumed(j, rest);
      var (k, more) := Resume(j, rest);
      JoinCalls(j, k, t, calls, more, rest);
      forall u | u in tasks && (StatusIn(k.status, u) == Queued || u in k.waiting) ensures Asks(calls + more, u) {
        assert u == t || u in rest;
      }
    }
  }

  lemma {:induction false} AllGated(i: Instance, tasks: seq<int>)
    requires Unique(tasks) && !i.cancelling && i.Gated() && forall t :: t in tasks ==> t !in i.waiting
    ensures Resume(i, tasks).0.Gated()
    decreases |tasks|
  {
    if tasks != [] {
      var t := tasks[0];
      var j := ResumeTask(i, t).0;
      FirstOf(tasks);
      TaskResumed(i, t);
      TaskCounters(i, t);
      if StatusIn(j.status, t) != StatusIn(i.status, t) {
        StillGated(i, j, t);
      } else {
        SameGated(i, j);
      }
      AllGated(j, tasks[1..]);
    }
  }

  lemma SameGated(i: Instance, j: Instance)
    requires i.Gated() && j.doc == i.doc && j.launched == i.launched
    requires forall u :: StatusIn(j.status, u) == StatusIn(i.status, u)
    ensures j.Gated()
  {
    forall k | k in j.launched ensures j.JobSucceeded(k) {
      assert i.JobSucceeded(k);
    }
  }

  lemma JoinCalls(j: Instance, k: Instance, t: int, calls: seq<Call>, more: seq<Call>, rest: seq<int>)
    requires Justified(j, calls) && Justified(k, more) && k.doc == j.doc && |calls| <= 1 && t !in rest
    requires calls != [] ==> calls[0].task == t
    requires StatusIn(k.status, t) == StatusIn(j.status, t) && (t in k.waiting <==> t in j.waiting)
    requires forall u :: Asks(more, u) ==> u in rest
    ensures Justified(k, calls + more)
    ensures forall u :: Asks(calls + more, u) <==> Asks(calls, u) || Asks(more, u)
    ensures Asks(calls, t) <==> calls != []
  {
    forall u ensures Asks(calls + more, u) <==> Asks(calls, u) || Asks(more, u) {
      AsksBoth(calls, more, u);
    }
    forall n | 0 <= n < |more| ensures more[n].task != t {
      assert Asks(more, more[n].task);
    }
  }

  lemma ResumePlaces(i: Instance, j: Instance, tasks: seq<int>, calls: seq<Call>)
    requires Through(i, j, tasks, calls) && i.waiting == {}
    requires forall t :: t in j.waiting ==> StatusIn(j.status, t).Terminated?
    requires forall t :: StatusIn(i.status, t) != Fresh ==> t in tasks
    ensures forall t :: PlaceOf(j, calls, t) == if StatusIn(j.status, t) == Executing then WithTid else Nowhere
  {
  }

  /**
   * A resumed instance is consistent whatever had been counted before the stop: each queued task is
   * asked for again, each failed one is retried or counted as an error, and only the executing
   * ones, registered during the resume, are outside it before its calls are made.
   */
  lemma ResumeIsConsistent(doc: Document, status: map<int, Status>, attributes: map<int, Attributes>, launched: set<int>, tasks: seq<int>)
    requires Saved(doc, status, attributes, launched).Gated()
    requires Unique(tasks) && forall t :: StatusIn(status, t) != Fresh ==> t in tasks
    ensures var (j, calls) := Resume(Saved(doc, status, attributes, launched), tasks);
      && j.Consistent() && Justified(j, calls)
      && forall t :: PlaceOf(j, calls, t) == if StatusIn(j.status, t) == Executing then WithTid else Nowhere
  {
    var i := Saved(doc, status, attributes, launched);
    forall t ensures t in TasksWith(status, Queued) ==> t in Tasks(tasks)
      ensures t in TasksWith(status, Executing) ==> t in Tasks(tasks)
    {
      assert StatusIn(status, t) != Fresh ==> t in tasks;
    }
    assert TasksWith(status, Queued) - Tasks(tasks) == {} && TasksWith(status, Executing) - Tasks(tasks) == {};
    AllResumed(i, tasks);
    AllCounted(i, tasks);
    AllGated(i, tasks);
    ResumePlaces(i, Resume(i, tasks).0, tasks, Resume(i, tasks).1);
    var j := Resume(i, tasks).0;
    assert TasksWith(j.status, Queued) - {} == TasksWith(j.status, Queued);
    assert TasksWith(j.status, Executing) - {} == TasksWith(j.status, Executing);
  }

  // What resuming decides for each task

  predicate HasFailed(i: Instance, t: int) {
    StatusIn(i.status, t).Terminated? && StatusIn(i.status, t).retval != 0
  }

  /** A failed task tried again, or given up, from the attributes saved. */
  function Resumption(i: Instance, t: int): (Attributes, Outcome)
    requires HasFailed(i, t)
  {
    RetryTask(i.AttributesOf(t), StatusIn(i.status, t).retval)
  }

  predicate IsAsked(i: Instance, c: Call) {
    || (StatusIn(i.status, c.task) == Queued && Enqueues(i, c))
    || (HasFailed(i, c.task) && c.RetryCall? && Resumption(i, c.task).1 == Retry(c.after))
  }

  function StatusAfter(i: Instance, t: int): Status {
    if StatusIn(i.status, t) == Queued then AfterEnqueue(i, t) else StatusIn(i.status, t)
  }

  function ResumedAttributes(i: Instance, t: int): Attributes {
    if HasFailed(i, t) then Resumption(i, t).0 else i.AttributesOf(t)
  }

  /** The tasks that cannot go on, each one more error. */
  function Lost(i: Instance, tasks: seq<int>): set<int> {
    set t | t in tasks && StatusIn(i.status, t) == Queued && AfterEnqueue(i, t) == Aborted
  }

  function GivenUp(i: Instance, tasks: seq<int>): set<int> {
    set t | t in tasks && HasFailed(i, t) && Resumption(i, t).1 == Error
  }

  /** Exactly these calls, in the order of the tasks. */
  ghost predicate AskedFor(i: Instance, calls: seq<Call>, tasks: seq<int>) {
    (forall c :: c in calls <==> c.task in tasks && IsAsked(i, c)) && IsSubsequence(Asked(calls), tasks)
  }

  /** These tasks have been resumed, and no others. */
  ghost predicate Decided(i: Instance, j: Instance, calls: seq<Call>, tasks: seq<int>) {
    && j.doc == i.doc && j.cancelling == i.cancelling
    && (forall t :: StatusIn(j.status, t) == if t in tasks then StatusAfter(i, t) else StatusIn(i.status, t))
    && (forall t :: j.AttributesOf(t) == if t in tasks then ResumedAttributes(i, t) else i.AttributesOf(t))
    && AskedFor(i, calls, tasks)
    && j.errors == i.errors + |Lost(i, tasks)| + |GivenUp(i, tasks)|
  }

  lemma OneDecided(i: Instance, t: int)
    requires !i.cancelling
    ensures Decided(i, ResumeTask(i, t).0, ResumeTask(i, t).1, [t])
  {
    var (j, calls) := ResumeTask(i, t);
    if HasFailed(i, t) {
      RetryDecides(i, t, StatusIn(i.status, t).retval);
    }
    assert Lost(i, [t]) == (if StatusIn(i.status, t) == Queued && AfterEnqueue(i, t) == Aborted then {t} else {});
    assert GivenUp(i, [t]) == (if HasFailed(i, t) && Resumption(i, t).1 == Error then {t} else {});
    assert |calls| <= 1 && (calls != [] ==> calls == [calls[0]] && calls[0].task == t);
    assert IsSubsequence([t][..0], [t][..0]);
    assert Asked(calls) == if calls == [] then [] else [t];
  }

  lemma DecidedBoth(i: Instance, j: Instance, k: Instance, c: seq<Call>, d: seq<Call>, t: int, rest: seq<int>)
    requires Decided(i, j, c, [t]) && Decided(j, k, d, rest) && t !in rest
    ensures Decided(i, k, c + d, [t] + rest)
  {
    forall u | u in rest ensures StatusIn(j.status, u) == StatusIn(i.status, u) && j.AttributesOf(u) == i.AttributesOf(u) {
      assert u != t;
    }
    CallsBoth(i, j, c, d, t, rest);
    LostBoth(i, j, t, rest);
  }

  lemma CallsBoth(i: Instance, j: Instance, c: seq<Call>, d: seq<Call>, t: int, rest: seq<int>)
    requires AskedFor(i, c, [t]) && AskedFor(j, d, rest) && j.doc == i.doc && j.cancelling == i.cancelling
    requires forall u :: u in rest ==> StatusIn(j.status, u) == StatusIn(i.status, u) && j.AttributesOf(u) == i.AttributesOf(u)
    ensures AskedFor(i, c + d, [t] + rest)
  {
    SubsequencesJoin(Asked(c), [t], Asked(d), rest);
    AskedBoth(c, d);
  }

  lemma LostBoth(i: Instance, j: Instance, t: int, rest: seq<int>)
    requires j.doc == i.doc && j.cancelling == i.cancelling && t !in rest
    requires forall u :: u in rest ==> StatusIn(j.status, u) == StatusIn(i.status, u) && j.AttributesOf(u) == i.AttributesOf(u)
    ensures |Lost(i, [t] + rest)| == |Lost(i, [t])| + |Lost(j, rest)|
    ensures |GivenUp(i, [t] + rest)| == |GivenUp(i, [t])| + |GivenUp(j, rest)|
  {
    assert Lost(i, [t] + rest) == Lost(i, [t]) + Lost(j, rest) && Lost(i, [t]) !! Lost(j, rest);
    assert GivenUp(i, [t] + rest) == GivenUp(i, [t]) + GivenUp(j, rest) && GivenUp(i, [t]) !! GivenUp(j, rest);
  }

  /**
   * Resuming, task by task: a queued one goes back to its queue, or is aborted if that is gone; a
   * failed one is tried again or given up, by its saved attributes; the calls come in the order of
   * the tasks. Each that is aborted or given up is one more error, and nothing else happens.
   */
  lemma {:induction false} ResumeDecides(i: Instance, tasks: seq<int>)
    requires Unique(tasks) && !i.cancelling
    ensures Decided(i, Resume(i, tasks).0, Resume(i, tasks).1, tasks)
    decreases |tasks|
  {
    if tasks == [] {
      NothingIsSubsequence(tasks);
      assert Asked([]) == [] && Lost(i, []) == {} && GivenUp(i, []) == {};
    } else {
      var t, rest := tasks[0], tasks[1..];
      var (j, calls) := ResumeTask(i, t);
      FirstOf(tasks);
      OneDecided(i, t);
      ResumeDecides(j, rest);
      DecidedBoth(i, j, Resume(j, rest).0, calls, Resume(j, rest).1, t, rest);
      assert [t] + rest == tasks;
    }
  }
}
