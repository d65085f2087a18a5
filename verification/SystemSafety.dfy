/** Lifetime of workflow instances: what the places of tasks imply for every run. */
module SystemSafety {
  import opened RetryPlan
  import opened WorkflowState
  import opened QueueState
  import opened PoolState
  import opened SystemState
  import opened SystemPlaces

  /** The program before anything has happened. */
  ghost predicate Initial(s: State) {
    && s.pool.Valid() && s.forker == Ready && s.gatherer == Idle && !s.pool.forkLocked && !s.pool.shuttingDown
    && (forall k :: 0 <= k < |s.pool.queues| ==> Waiting(s.pool.queues[k]) == multiset{} && s.pool.queues[k].concurrency >= 0)
    && (forall t :: 0 <= t < |s.pool.tids| ==> s.pool.tids[t].Free?)
    && s.instances == map[] && s.events == multiset{} && s.inHand == multiset{} && s.children == {}
    && s.doomed == {} && s.started == {} && s.cancelled == {} && s.endings == multiset{}
  }

  lemma {:induction false} NothingWaits(queues: seq<Queue>, e: Entry)
    requires forall k :: 0 <= k < |queues| ==> Waiting(queues[k]) == multiset{}
    ensures CountWaiting(queues, e) == 0
  {
    if queues != [] {
      NothingWaits(queues[..|queues| - 1], e);
    }
  }

  lemma {:induction false} NothingHeld(tids: seq<Slot>, e: Entry)
    requires forall t :: 0 <= t < |tids| ==> tids[t].Free?
    ensures CountHeld(tids, e) == 0
  {
    if tids != [] {
      NothingHeld(tids[..|tids| - 1], e);
    }
  }

  lemma InitialIsPlaced(s: State)
    requires Initial(s)
    ensures Inv(s) && Ends(s)
  {
    forall e: Entry ensures PlacedAt(s, e) {
      NothingWaits(s.pool.queues, e);
      NothingHeld(s.pool.tids, e);
    }
  }

  lemma {:induction false} RunKeeps(run: seq<State>, steps: seq<Step>, k: nat)
    requires Run(run, steps) && Inv(run[0]) && Ends(run[0]) && k < |run|
    ensures Inv(run[k]) && Ends(run[k])
  {
    if k > 0 {
      RunKeeps(run, steps, k - 1);
      StepKeeps(run[k - 1], steps[k - 1]);
      StepEnds(run[k - 1], steps[k - 1]);
    }
  }

  /** Something outside the instance points to it: a queue, a live child, the retrier, or a thread. */
  ghost predicate Refers(s: State, e: Entry) {
    || (exists k :: 0 <= k < |s.pool.queues| && e in Waiting(s.pool.queues[k]))
    || (exists t :: t in s.children && s.HasEntry(t) && s.pool.tids[t].entry == e)
    || InForker(s.pool.tids, s.forker, e) > 0 || s.gatherer == Stopping(e)
    || e in s.events || e in s.inHand
  }

  lemma RefersIsExpected(s: State, e: Entry)
    requires Inv(s) && Refers(s, e)
    ensures Expected(s.instances, e) != Nowhere
  {
    assert PlacedAt(s, e);
    ForkerOwnsAtMostHeld(s, e);
    if k :| 0 <= k < |s.pool.queues| && e in Waiting(s.pool.queues[k]) {
      CountWaitingUpdate(s.pool.queues, k, s.pool.queues[k], e);
    } else if t :| t in s.children && s.HasEntry(t) && s.pool.tids[t].entry == e {
      ChildIsHeld(s, t, e);
    }
  }

  lemma ChildIsHeld(s: State, t: nat, e: Entry)
    requires t in s.children && IdsOwned(s) && s.pool.tids[t].entry == e
    ensures OfForker(s.pool.tids, s.forker, e) < CountHeld(s.pool.tids, e)
  {
    var without := s.pool.tids[t := Free];
    CountHeldUpdate(s.pool.tids, t, Free, e);
    if s.forker.Registered? || s.forker.Refused? {
      CountHeldUpdate(without, s.forker.tid, Free, e);
      assert without[s.forker.tid] == s.pool.tids[s.forker.tid];
    }
  }

  /** Whatever a queue, a task id, the retrier or a thread refers to is still in memory and has not ended. */
  lemma NoDanglingReference(s: State, e: Entry)
    requires Inv(s) && Refers(s, e)
    ensures e.instance in s.instances && !s.instances[e.instance].ended
    ensures e.task in s.instances[e.instance].instance.doc.jobOf
  {
    RefersIsExpected(s, e);
    PlaceMeans(s, e);
  }

  /** A task is queued, executing or waiting for a retry, never two of them, and never twice. */
  lemma AtMostOnePlace(s: State, e: Entry)
    requires Inv(s)
    ensures InQueues(s.pool, s.forker, e) + WithTids(s.pool, s.forker, s.gatherer, e) + InRetriers(s.events, s.inHand, e) <= 1
  {
    assert PlacedAt(s, e);
  }

  /** The tasks of an instance found in the queues, under task ids, and with the retrier. */
  function FoundQueued(s: State, w: int): set<int>
    requires w in s.instances
  {
    set t | t in s.instances[w].instance.status && InQueues(s.pool, s.forker, Entry(w, t)) == 1
  }

  function FoundExecuting(s: State, w: int): set<int>
    requires w in s.instances
  {
    set t | t in s.instances[w].instance.status && WithTids(s.pool, s.forker, s.gatherer, Entry(w, t)) == 1
  }

  function FoundRetrying(s: State, w: int): set<int>
    requires w in s.instances
  {
    set t | t in s.instances[w].instance.waiting && InRetriers(s.events, s.inHand, Entry(w, t)) == 1
  }

  lemma FoundAtRest(s: State, w: int, t: int)
    requires Inv(s) && s.Unlocked(w)
    ensures var i := s.instances[w].instance;
      && InQueues(s.pool, s.forker, Entry(w, t)) == (if StatusIn(i.status, t) == Queued then 1 else 0)
      && WithTids(s.pool, s.forker, s.gatherer, Entry(w, t)) == (if StatusIn(i.status, t) == Executing then 1 else 0)
      && InRetriers(s.events, s.inHand, Entry(w, t)) == (if t in i.waiting then 1 else 0)
  {
    assert PlacedAt(s, Entry(w, t));
    assert CellOk(s.instances[w], |s.pool.queues|);
  }

  /** At rest the counters of an instance are the numbers of tasks found outside it, each found once. */
  lemma CountersCount(s: State, w: int)
    requires Inv(s) && s.Unlocked(w)
    ensures s.instances[w].instance.running == |FoundQueued(s, w)| + |FoundExecuting(s, w)|
    ensures s.instances[w].instance.retrying == |FoundRetrying(s, w)|
    ensures forall t :: InQueues(s.pool, s.forker, Entry(w, t)) == if t in FoundQueued(s, w) then 1 else 0
    ensures forall t :: WithTids(s.pool, s.forker, s.gatherer, Entry(w, t)) == if t in FoundExecuting(s, w) then 1 else 0
    ensures forall t :: InRetriers(s.events, s.inHand, Entry(w, t)) == if t in FoundRetrying(s, w) then 1 else 0
  {
    var i := s.instances[w].instance;
    forall t ensures t in FoundQueued(s, w) <==> t in TasksWith(i.status, Queued)
      ensures t in FoundExecuting(s, w) <==> t in TasksWith(i.status, Executing)
      ensures t in FoundRetrying(s, w) <==> t in i.waiting
      ensures InQueues(s.pool, s.forker, Entry(w, t)) == if t in FoundQueued(s, w) then 1 else 0
      ensures WithTids(s.pool, s.forker, s.gatherer, Entry(w, t)) == if t in FoundExecuting(s, w) then 1 else 0
      ensures InRetriers(s.events, s.inHand, Entry(w, t)) == if t in FoundRetrying(s, w) then 1 else 0
    {
      FoundAtRest(s, w, t);
    }
    assert FoundQueued(s, w) == TasksWith(i.status, Queued);
    assert FoundExecuting(s, w) == TasksWith(i.status, Executing);
    assert FoundRetrying(s, w) == i.waiting;
    Counts(s, w);
  }

  lemma Counts(s: State, w: int)
    requires CellsOk(s) && w in s.instances
    ensures s.instances[w].instance.Counted()
  {
    assert CellOk(s.instances[w], |s.pool.queues|);
  }

  /** The callbacks that have seen the end of an instance: one if it has ended, none before. */
  ghost predicate Ends(s: State) {
    forall w :: s.endings[w] == if w in s.started && !(w in s.instances && !s.instances[w].ended) then 1 else 0
  }

  /** Only one callback ever sees workflow_ended true. */
  lemma StepEnds(s: State, step: Step)
    requires Inv(s) && Ends(s) && Can(s, step)
    ensures Ends(Do(s, step))
  {
    match step
    case StartStep(w, doc, attributes, o) => StartEnds(s, w, doc, attributes, o);
    case CallStep(w) => CallEnds(s, w);
    case CloseStep(w) => CloseEnds(s, w);
    case DeleteStep(w) => DeleteEnds(s, w);
    case RestartStep(e) => RestartEnds(s, e);
    case ExecuteStep(outcome) => ExecuteEnds(s, outcome);
    case StopStep(retval, output, o) => StopEnds(s, retval, output, o);
    case _ =>
  }

  lemma StartEnds(s: State, w: int, doc: Document, attributes: map<int, Attributes>, o: Oracle)
    requires Ends(s) && s.CanStart(w, doc)
    ensures Ends(s.Start(w, doc, attributes, o))
  {
  }

  lemma CallEnds(s: State, w: int)
    requires Ends(s) && s.CanCall(w)
    ensures Ends(s.MakeCall(w))
  {
  }

  lemma DeleteEnds(s: State, w: int)
    requires Inv(s) && Ends(s) && w in s.doomed
    ensures Ends(s.Delete(w))
  {
  }

  lemma CloseEnds(s: State, w: int)
    requires Inv(s) && Ends(s) && s.CanClose(w)
    ensures Ends(s.Close(w))
  {
    assert CellOk(s.instances[w], |s.pool.queues|);
  }

  lemma RestartEnds(s: State, e: Entry)
    requires Inv(s) && Ends(s) && e in s.inHand && s.Unlocked(e.instance)
    ensures Ends(s.Restart(e))
  {
  }

  lemma StopEnds(s: State, retval: int, output: OutputOutcome, o: Oracle)
    requires Inv(s) && Ends(s) && s.CanStop()
    ensures Ends(s.StopTask(retval, output, o))
  {
  }

  lemma ExecuteEnds(s: State, outcome: ForkOutcome)
    requires Inv(s) && Ends(s) && s.CanExecute()
    ensures Ends(s.ExecuteTask(outcome))
  {
    RegisteredIsQueued(s);
    ExecuteCells(s, outcome);
  }

  /** An instance with nothing more to ask for has ended exactly when nothing refers to any of its tasks. */
  lemma EndedIffUnreferred(s: State, w: int)
    requires Inv(s) && w in s.instances && s.instances[w].Pending() == []
    ensures s.instances[w].instance.Ended() <==> forall e: Entry :: e.instance == w ==> !Refers(s, e)
  {
    var i := s.instances[w].instance;
    assert CellOk(s.instances[w], |s.pool.queues|);
    LastCallbackEnds(i);
    if i.Ended() {
      forall e: Entry | e.instance == w ensures !Refers(s, e) {
        assert PlaceOf(i, [], e.task) == Nowhere;
        if Refers(s, e) {
          RefersIsExpected(s, e);
        }
      }
    } else {
      var t :| PlaceOf(i, [], t) != Nowhere;
      ExpectedRefers(s, Entry(w, t));
    }
  }

  /** When the last task outside an instance is gone, the section that took it in ends the instance, and nobody else will. */
  lemma LastOneEnds(s: State, w: int)
    requires Inv(s) && s.CanClose(w)
    ensures s.Close(w).instances[w].ended <==> forall e: Entry :: e.instance == w ==> !Refers(s, e)
  {
    EndedIffUnreferred(s, w);
  }

  /** So does TaskExecute when it refuses the last one; and when it forks, the child still refers to the instance. */
  lemma LastRefusalEnds(s: State, outcome: ForkOutcome)
    requires Inv(s) && s.CanExecute()
    ensures var s', w := s.ExecuteTask(outcome), s.pool.tids[s.forker.tid].entry.instance;
      s'.instances[w].ended <==> forall e: Entry :: e.instance == w ==> !Refers(s', e)
  {
    var s', e := s.ExecuteTask(outcome), s.pool.tids[s.forker.tid].entry;
    ExecuteKeeps(s, outcome);
    EndedIffUnreferred(s', e.instance);
    RegisteredIsQueued(s);
    InHandMeans(s, e, InQueue);
    var i := s.instances[e.instance].instance;
    if i.IsForked(outcome) {
      ForkedHasNotEnded(i, e.task, outcome);
    }
  }

  /** Conversely, a task expected somewhere is there. */
  lemma ExpectedRefers(s: State, e: Entry)
    requires Inv(s) && Expected(s.instances, e) != Nowhere
    ensures Refers(s, e)
  {
    assert PlacedAt(s, e);
    if CountWaiting(s.pool.queues, e) > 0 {
      WaitsSomewhere(s.pool.queues, e);
    }
    if InGatherer(s.gatherer, e) == 0 && WithTids(s.pool, s.forker, s.gatherer, e) > 0 {
      HeldByChild(s, e);
    }
  }

  lemma {:induction false} WaitsSomewhere(queues: seq<Queue>, e: Entry)
    requires CountWaiting(queues, e) > 0
    ensures exists k :: 0 <= k < |queues| && e in Waiting(queues[k])
  {
    var n := |queues| - 1;
    if e !in Waiting(queues[n]) {
      WaitsSomewhere(queues[..n], e);
      var k :| 0 <= k < n && e in Waiting(queues[..n][k]);
      assert e in Waiting(queues[k]);
    }
  }

  lemma {:induction false} HeldSomewhere(tids: seq<Slot>, e: Entry) returns (t: nat)
    requires CountHeld(tids, e) > 0
    ensures t < |tids| && tids[t].Held? && tids[t].entry == e
  {
    var n := |tids| - 1;
    if Holds(tids[n], e) == 1 {
      t := n;
    } else {
      t := HeldSomewhere(tids[..n], e);
    }
  }

  lemma HeldByChild(s: State, e: Entry)
    requires s.pool.Valid() && IdsOwned(s) && CountHeld(s.pool.tids, e) > OfForker(s.pool.tids, s.forker, e)
    ensures exists t :: t in s.children && s.HasEntry(t) && s.pool.tids[t].entry == e
  {
    var tids := s.pool.tids;
    if s.forker.Registered? || s.forker.Refused? {
      CountHeldUpdate(tids, s.forker.tid, Free, e);
      tids := tids[s.forker.tid := Free];
    }
    var t := HeldSomewhere(tids, e);
    assert s.HasEntry(t) && t in s.children;
  }
}
