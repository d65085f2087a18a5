/**
 * Starting again: before the threads start, the instances found executing are resumed one after
 * the other. Of the runs that follow, places, endings and wake-ups hold exactly if every executing
 * task's queue is still known, and the concurrency bound exactly if the resumed tasks respect it.
 */
module SystemResume {
  import opened RetryPlan
  import opened WorkflowState
  import opened ResumeState
  import opened QueueState
  import opened PoolState
  import opened SystemState
  import opened SystemPlaces
  import opened SystemSafety
  import opened SystemWakeUp
  import opened SystemBounds

  /**
   * An executing task is handed back to the pool with its saved id, under which its exit message
   * will come. A task whose queue is unknown is refused, and nothing is made of that.
   */
  function HandBack(s: State, w: int, t: int, doc: Document, tid: nat): State {
    var known := t in doc.queueOf && 0 <= doc.queueOf[t] < |s.pool.queues| && tid < |s.pool.tids| && s.pool.lasttid < s.pool.MaxPid();
    s.(pool := if known then s.pool.ExecuteAs(doc.queueOf[t], Entry(w, t), tid).0 else s.pool, children := s.children + {tid})
  }

  function HandBackAll(s: State, w: int, doc: Document, tasks: seq<int>, tids: map<int, nat>): State
    requires forall t :: t in tasks ==> t in tids
  {
    if tasks == [] then s
    else
      var (init, last) := (tasks[..|tasks| - 1], tasks[|tasks| - 1]);
      HandBack(HandBackAll(s, w, doc, init, tids), w, last, doc, tids[last])
  }

  /** What a savepoint says of an instance, and the saved ids of its executing tasks. */
  datatype Savepoint = Savepoint(
    doc: Document,
    status: map<int, Status>,
    attributes: map<int, Attributes>,
    launched: set<int>,
    tasks: seq<int>,
    executing: seq<int>,
    tids: map<int, nat>)
  {
    /** Whole, and about tasks of this document. */
    ghost predicate Valid() {
      && Saved(doc, status, attributes, launched).Gated()
      && Unique(tasks) && (forall t :: StatusIn(status, t) != Fresh ==> t in tasks)
      && Unique(executing) && (forall t :: t in executing <==> StatusIn(status, t) == Executing)
      && (forall t :: t in executing ==> t in tids)
    }
  }

  /** Resume; handing tasks back before the section's calls makes no difference to the pool. */
  function ResumeInstance(s: State, w: int, p: Savepoint): State
    requires forall t :: t in p.executing ==> t in p.tids
  {
    var (j, calls) := Resume(Saved(p.doc, p.status, p.attributes, p.launched), p.tasks);
    HandBackAll(s, w, p.doc, p.executing, p.tids).(started := s.started + {w}, instances := s.instances[w := Cell(j, Some(calls), false)])
  }

  /** The threads have not started, the instance is new to the program, and its saved ids are its own. */
  ghost predicate CanResume(s: State, w: int, p: Savepoint) {
    && p.Valid() && s.forker == Ready && s.gatherer == Idle && w !in s.started && w !in s.cancelled
    && (forall t :: t in p.doc.queueOf ==> 0 <= p.doc.queueOf[t] < |s.pool.queues|)
    && (forall t :: t in p.executing ==> p.tids[t] < |s.pool.tids| && s.pool.tids[p.tids[t]].Free?)
    && (forall t, u :: t in p.executing && u in p.executing && t != u ==> p.tids[t] != p.tids[u])
  }

  /** The queue of each executing task is still known, and it did not run under id 0. */
  predicate Restorable(p: Savepoint) {
    forall t :: t in p.executing ==> t in p.doc.queueOf && (t in p.tids ==> p.tids[t] != 0)
  }

  function Ids(tasks: seq<int>, tids: map<int, nat>): set<nat> {
    set t | t in tasks && t in tids :: tids[t]
  }

  /** Only the pool and the children have changed, by these tasks under these ids. */
  ghost predicate Handed(s: State, s': State, w: int, tasks: seq<int>, ids: set<nat>) {
    && s'.pool.Valid() && |s'.pool.queues| == |s.pool.queues| && |s'.pool.tids| == |s.pool.tids|
    && s' == s.(pool := s'.pool, children := s.children + ids)
    && (forall n: nat :: s'.HasEntry(n) <==> s.HasEntry(n) || n in ids)
    && (forall n :: 0 <= n < |s.pool.tids| && n !in ids ==> s'.pool.tids[n] == s.pool.tids[n])
    && (forall f: Entry :: CountWaiting(s'.pool.queues, f) == CountWaiting(s.pool.queues, f))
    && (forall f: Entry :: CountHeld(s'.pool.tids, f) == CountHeld(s.pool.tids, f) + if f.instance == w && f.task in tasks then 1 else 0)
  }

  lemma HandOne(s: State, w: int, t: int, doc: Document, tid: nat)
    requires s.pool.Valid() && t in doc.queueOf && 0 <= doc.queueOf[t] < |s.pool.queues|
    requires 0 < tid < |s.pool.tids| && s.pool.tids[tid].Free?
    ensures Handed(s, HandBack(s, w, t, doc, tid), w, [t], {tid})
  {
    var s', k := HandBack(s, w, t, doc, tid), doc.queueOf[t];
    RegisterIsValid(s.pool, tid, k, Entry(w, t));
    HandOneEntry(s, s', k, tid, Entry(w, t));
    forall f: Entry
      ensures CountWaiting(s'.pool.queues, f) == CountWaiting(s.pool.queues, f)
      ensures CountHeld(s'.pool.tids, f) == CountHeld(s.pool.tids, f) + if f.instance == w && f.task in [t] then 1 else 0
    {
      RegisterCounts(s.pool, tid, k, Entry(w, t), f);
    }
  }

  lemma HandOneEntry(s: State, s': State, k: nat, tid: nat, e: Entry)
    requires k < |s.pool.queues| && tid < |s.pool.tids| && s'.pool == s.pool.Register(tid, k, e)
    ensures forall n: nat :: s'.HasEntry(n) <==> s.HasEntry(n) || n == tid
  {
  }

  lemma HandedTwice(s: State, m: State, s': State, w: int, tasks: seq<int>, t: int, ids: set<nat>, tid: nat)
    requires Handed(s, m, w, tasks, ids) && Handed(m, s', w, [t], {tid}) && t !in tasks
    ensures Handed(s, s', w, tasks + [t], ids + {tid})
  {
  }

  lemma {:induction false} AllHanded(s: State, w: int, doc: Document, tasks: seq<int>, tids: map<int, nat>)
    requires s.pool.Valid() && Unique(tasks)
    requires forall t :: t in tasks ==> t in tids && t in doc.queueOf && 0 <= doc.queueOf[t] < |s.pool.queues|
    requires forall t :: t in tasks ==> 0 < tids[t] < |s.pool.tids| && s.pool.tids[tids[t]].Free?
    requires forall t, u :: t in tasks && u in tasks && t != u ==> tids[t] != tids[u]
    ensures Handed(s, HandBackAll(s, w, doc, tasks, tids), w, tasks, Ids(tasks, tids))
  {
    if tasks == [] {
      assert Ids(tasks, tids) == {};
    } else {
      var init, last := tasks[..|tasks| - 1], tasks[|tasks| - 1];
      assert tasks == init + [last] && last !in init;
      AllHanded(s, w, doc, init, tids);
      var m := HandBackAll(s, w, doc, init, tids);
      assert tids[last] !in Ids(init, tids);
      HandOne(m, w, last, doc, tids[last]);
      HandedTwice(s, m, HandBackAll(s, w, doc, tasks, tids), w, init, last, Ids(init, tids), tids[last]);
      assert Ids(tasks, tids) == Ids(init, tids) + {tids[last]};
    }
  }

  /** The new instance. */
  lemma ResumedCell(s: State, w: int, p: Savepoint)
    requires CanResume(s, w, p)
    ensures var (j, calls) := Resume(Saved(p.doc, p.status, p.attributes, p.launched), p.tasks);
      && CellOk(Cell(j, Some(calls), false), |s.pool.queues|) && !j.cancelling
      && forall t :: PlaceOf(j, calls, t) == if t in p.executing then WithTid else Nowhere
  {
    var i := Saved(p.doc, p.status, p.attributes, p.launched);
    ResumeIsConsistent(p.doc, p.status, p.attributes, p.launched, p.tasks);
    AllResumed(i, p.tasks);
  }

  lemma ResumedIds(s: State, s': State, w: int, tasks: seq<int>, ids: set<nat>)
    requires IdsOwned(s) && s.forker == Ready && Handed(s, s', w, tasks, ids)
    ensures IdsOwned(s')
  {
  }

  lemma ResumedPlace(s: State, m: State, s': State, w: int, p: Savepoint, ids: set<nat>, e: Entry)
    requires PlacedAt(s, e) && w !in s.instances && s.forker == Ready && s.gatherer == Idle
    requires Handed(s, m, w, p.executing, ids)
    requires s' == m.(started := s'.started, instances := s'.instances)
    requires Expected(s'.instances, e) ==
      if e.instance != w then Expected(s.instances, e) else if e.task in p.executing then WithTid else Nowhere
    ensures PlacedAt(s', e)
  {
  }

  lemma ResumedCells(s: State, w: int, p: Savepoint, m: State, ids: set<nat>)
    requires CellsOk(s) && CanResume(s, w, p) && Handed(s, m, w, p.executing, ids)
    requires m == HandBackAll(s, w, p.doc, p.executing, p.tids)
    ensures CellsOk(ResumeInstance(s, w, p)) && w !in s.instances
    ensures var after := ResumeInstance(s, w, p).instances;
      (forall e :: Expected(after, e) == if e.instance != w then Expected(s.instances, e) else if e.task in p.executing then WithTid else Nowhere)
  {
    var c := ResumeInstance(s, w, p).instances[w];
    ResumedCell(s, w, p);
    OneCell(s.instances, w, c, |s.pool.queues|);
    OneFlag(s.instances, w, c, s.cancelled, s.doomed);
  }

  lemma ResumedEnds(s: State, s': State, w: int)
    requires Ends(s) && s.instances.Keys <= s.started && w !in s.started && s'.started == s.started + {w} && s'.endings == s.endings
    requires s'.instances.Keys == s.instances.Keys + {w} && !s'.instances[w].ended
    requires forall v :: v in s.instances ==> s'.instances[v] == s.instances[v]
    ensures Ends(s')
  {
  }

  /**
   * Resuming a restorable instance gives a state in which every task is in its place, no callback
   * has seen an end that it should not have, and the forker can be started.
   */
  lemma ResumeKeeps(s: State, w: int, p: Savepoint)
    requires Inv(s) && Ends(s) && CanResume(s, w, p) && Restorable(p)
    ensures var s' := ResumeInstance(s, w, p); Inv(s') && Ends(s') && WakesUp(s') && s'.forker == Ready
  {
    var s', ids := ResumeInstance(s, w, p), Ids(p.executing, p.tids);
    var m := HandBackAll(s, w, p.doc, p.executing, p.tids);
    ResumedHanded(s, w, p);
    ResumedIds(s, m, w, p.executing, ids);
    SameIds(m, s');
    ResumedCells(s, w, p, m, ids);
    ResumedEnds(s, s', w);
    ResumedPlaced(s, m, s', w, p, ids);
  }

  lemma ResumedHanded(s: State, w: int, p: Savepoint)
    requires s.pool.Valid() && CanResume(s, w, p) && Restorable(p)
    ensures Handed(s, HandBackAll(s, w, p.doc, p.executing, p.tids), w, p.executing, Ids(p.executing, p.tids))
  {
    AllHanded(s, w, p.doc, p.executing, p.tids);
  }

  lemma ResumedPlaced(s: State, m: State, s': State, w: int, p: Savepoint, ids: set<nat>)
    requires Placed(s) && w !in s.instances && s.forker == Ready && s.gatherer == Idle
    requires Handed(s, m, w, p.executing, ids) && s' == m.(started := s'.started, instances := s'.instances)
    requires forall e :: Expected(s'.instances, e) == if e.instance != w then Expected(s.instances, e) else if e.task in p.executing then WithTid else Nowhere
    ensures Placed(s')
  {
    forall e: Entry ensures PlacedAt(s', e) {
      assert PlacedAt(s, e);
      ResumedPlace(s, m, s', w, p, ids, e);
    }
  }

  lemma SameIds(m: State, s': State)
    requires IdsOwned(m) && s'.pool == m.pool && s'.forker == m.forker && s'.children == m.children
    ensures IdsOwned(s')
  {
    forall n: nat ensures s'.HasEntry(n) <==> m.HasEntry(n) {}
  }

  /** Handing back tasks registers no other. */
  lemma {:induction false} NeverHanded(s: State, w: int, doc: Document, tasks: seq<int>, tids: map<int, nat>, e: Entry)
    requires forall t :: t in tasks ==> t in tids
    requires e.instance != w || e.task !in tasks || e.task !in doc.queueOf
    ensures CountHeld(HandBackAll(s, w, doc, tasks, tids).pool.tids, e) <= CountHeld(s.pool.tids, e)
  {
    if tasks != [] {
      var init, last := tasks[..|tasks| - 1], tasks[|tasks| - 1];
      assert tasks == init + [last];
      NeverHanded(s, w, doc, init, tids, e);
      OtherHanded(HandBackAll(s, w, doc, init, tids), w, last, doc, tids[last], e);
    }
  }

  lemma OtherHanded(s: State, w: int, t: int, doc: Document, tid: nat, e: Entry)
    requires e != Entry(w, t) || t !in doc.queueOf
    ensures CountHeld(HandBack(s, w, t, doc, tid).pool.tids, e) <= CountHeld(s.pool.tids, e)
  {
    var p := HandBack(s, w, t, doc, tid).pool;
    if p.tids != s.pool.tids {
      var k := doc.queueOf[t];
      var id := if tid != 0 then tid else NthTid(s.pool.lasttid, s.pool.MaxPid(), Search(s.pool.tids, s.pool.MaxPid(), s.pool.lasttid, 0));
      CountHeldUpdate(s.pool.tids, id, Held(k, Entry(w, t)), e);
    }
  }

  /**
   * A task that was executing in a queue no longer known is counted by its instance and registered
   * nowhere.
   */
  lemma UnknownQueueIsNotRegistered(s: State, w: int, p: Savepoint, t: int)
    requires Inv(s) && CanResume(s, w, p) && t in p.executing && t !in p.doc.queueOf
    ensures var s' := ResumeInstance(s, w, p);
      && StatusIn(s'.instances[w].instance.status, t) == Executing
      && CountHeld(s'.pool.tids, Entry(w, t)) == 0 && !PlacedAt(s', Entry(w, t))
  {
    assert PlacedAt(s, Entry(w, t));
    assert w !in s.instances;
    NeverHanded(s, w, p.doc, p.executing, p.tids, Entry(w, t));
    ResumedCell(s, w, p);
    AllResumed(Saved(p.doc, p.status, p.attributes, p.launched), p.tasks);
    HandsAreFree(s, w, p.doc, p.executing, p.tids);
  }

  /**
   * Its id is free in the table while its exit message is still to come, so that it can be handed
   * out again before.
   */
  lemma UnknownQueueLeavesIdFree(s: State, w: int, p: Savepoint, t: int)
    requires Inv(s) && CanResume(s, w, p) && t in p.executing && t !in p.doc.queueOf
    requires forall u :: u in p.executing ==> p.tids[u] != 0
    ensures var s' := ResumeInstance(s, w, p);
      p.tids[t] in s'.children && p.tids[t] < |s'.pool.tids| && s'.pool.tids[p.tids[t]].Free?
  {
    SlotStays(s, w, p.doc, p.executing, p.tids, p.tids[t]);
    assert p.tids[t] in Ids(p.executing, p.tids);
  }

  lemma {:induction false} SlotStays(s: State, w: int, doc: Document, tasks: seq<int>, tids: map<int, nat>, n: nat)
    requires n < |s.pool.tids| && forall t :: t in tasks ==> t in tids && tids[t] != 0
    requires forall t :: t in tasks && t in doc.queueOf ==> tids[t] != n
    ensures var m := HandBackAll(s, w, doc, tasks, tids);
      |m.pool.tids| == |s.pool.tids| && m.pool.tids[n] == s.pool.tids[n] && m.children == s.children + Ids(tasks, tids)
  {
    if tasks == [] {
      assert Ids(tasks, tids) == {};
    } else {
      var init, last := tasks[..|tasks| - 1], tasks[|tasks| - 1];
      assert tasks == init + [last];
      SlotStays(s, w, doc, init, tids, n);
      assert Ids(tasks, tids) == Ids(init, tids) + {tids[last]};
    }
  }

  /** With saved ids that are not 0, resuming keeps every task in its place exactly when every executing task's queue is known. */
  lemma ResumeKeepsIff(s: State, w: int, p: Savepoint)
    requires Inv(s) && Ends(s) && CanResume(s, w, p) && forall t :: t in p.executing ==> p.tids[t] != 0
    ensures Inv(ResumeInstance(s, w, p)) <==> forall t :: t in p.executing ==> t in p.doc.queueOf
  {
    if forall t :: t in p.executing ==> t in p.doc.queueOf {
      ResumeKeeps(s, w, p);
    } else {
      var t :| t in p.executing && t !in p.doc.queueOf;
      UnknownQueueIsNotRegistered(s, w, p, t);
    }
  }

  /** The tasks of these that go back to a queue. */
  function TasksOn(tasks: seq<int>, doc: Document, k: nat): set<int> {
    set t | t in tasks && t in doc.queueOf && doc.queueOf[t] == k
  }

  /** What handing tasks back does to a queue: it runs that many more. */
  ghost predicate RunsMore(s: State, m: State, tasks: seq<int>, doc: Document) {
    && |m.pool.queues| == |s.pool.queues|
    && forall k :: 0 <= k < |s.pool.queues| ==>
      m.pool.queues[k] == s.pool.queues[k].(running := s.pool.queues[k].running + |TasksOn(tasks, doc, k)|)
  }

  lemma {:induction false} AllRunMore(s: State, w: int, doc: Document, tasks: seq<int>, tids: map<int, nat>)
    requires s.pool.Valid() && Unique(tasks)
    requires forall t :: t in tasks ==> t in tids && t in doc.queueOf && 0 <= doc.queueOf[t] < |s.pool.queues|
    requires forall t :: t in tasks ==> 0 < tids[t] < |s.pool.tids|
    ensures RunsMore(s, HandBackAll(s, w, doc, tasks, tids), tasks, doc)
    ensures var m := HandBackAll(s, w, doc, tasks, tids); |m.pool.tids| == |s.pool.tids| && m.pool.lasttid == s.pool.lasttid
  {
    if tasks == [] {
      assert forall k :: TasksOn(tasks, doc, k) == {};
    } else {
      var init, last := tasks[..|tasks| - 1], tasks[|tasks| - 1];
      assert tasks == init + [last] && last !in init;
      AllRunMore(s, w, doc, init, tids);
      OneRunsMore(s, HandBackAll(s, w, doc, init, tids), w, doc, init, last, tids[last]);
    }
  }

  lemma OneRunsMore(s: State, m: State, w: int, doc: Document, init: seq<int>, last: int, tid: nat)
    requires RunsMore(s, m, init, doc) && last !in init && last in doc.queueOf && 0 <= doc.queueOf[last] < |s.pool.queues|
    requires 0 < tid < |m.pool.tids| && m.pool.lasttid < m.pool.MaxPid()
    ensures RunsMore(s, HandBack(m, w, last, doc, tid), init + [last], doc)
  {
    forall k | 0 <= k < |s.pool.queues|
      ensures |TasksOn(init + [last], doc, k)| == |TasksOn(init, doc, k)| + if doc.queueOf[last] == k then 1 else 0
    {
      OneMoreOn(init, last, doc, k);
    }
  }

  lemma OneMoreOn(init: seq<int>, last: int, doc: Document, k: nat)
    requires last !in init && last in doc.queueOf
    ensures |TasksOn(init + [last], doc, k)| == |TasksOn(init, doc, k)| + if doc.queueOf[last] == k then 1 else 0
  {
    if doc.queueOf[last] == k {
      assert TasksOn(init + [last], doc, k) == TasksOn(init, doc, k) + {last};
    } else {
      assert TasksOn(init + [last], doc, k) == TasksOn(init, doc, k);
    }
  }

  /**
   * Resuming registers executing tasks whatever the limit, which may have been lowered: it stays
   * within the concurrency exactly when the tasks resumed leave each queue within its own.
   */
  lemma ResumeBoundedIff(s: State, w: int, p: Savepoint)
    requires Inv(s) && Bounded(s) && CanResume(s, w, p) && Restorable(p)
    ensures Bounded(ResumeInstance(s, w, p))
      <==> forall k :: 0 <= k < |s.pool.queues| ==>
        s.pool.queues[k].running + |TasksOn(p.executing, p.doc, k)| <= s.pool.queues[k].concurrency
  {
    var s' := ResumeInstance(s, w, p);
    ResumedHanded(s, w, p);
    AllRunMore(s, w, p.doc, p.executing, p.tids);
    BoundedAtRest(s, s', p.executing, p.doc);
  }

  lemma BoundedAtRest(s: State, s': State, tasks: seq<int>, doc: Document)
    requires Bounded(s) && s.forker == Ready && s'.forker == Ready && s'.cancelled == s.cancelled && RunsMore(s, s', tasks, doc)
    ensures Bounded(s') <==> forall k :: 0 <= k < |s.pool.queues| ==>
      s.pool.queues[k].running + |TasksOn(tasks, doc, k)| <= s.pool.queues[k].concurrency
  {
    assert Within(s') <==> forall k :: 0 <= k < |s'.pool.queues| ==> s'.pool.queues[k].running <= s'.pool.queues[k].concurrency;
  }

  lemma {:induction false} HandsAreFree(s: State, w: int, doc: Document, tasks: seq<int>, tids: map<int, nat>)
    requires forall t :: t in tasks ==> t in tids
    ensures var m := HandBackAll(s, w, doc, tasks, tids); m.forker == s.forker && m.gatherer == s.gatherer
  {
    if tasks != [] {
      HandsAreFree(s, w, doc, tasks[..|tasks| - 1], tids);
    }
  }
}
