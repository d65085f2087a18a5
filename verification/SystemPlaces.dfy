/**
 * Every task is where its instance believes it to be: in a queue or the forker's hand, under a
 * task id or in the gatherer's hand, or with the retrier. Each step keeps this, whatever the
 * interleaving; so nothing ever refers to an instance that is gone.
 */
module SystemPlaces {
  import opened RetryPlan
  import opened WorkflowState
  import opened QueueState
  import opened PoolState
  import opened SystemState

  function Expected(instances: map<int, Cell>, e: Entry): Place {
    if e.instance in instances
    then PlaceOf(instances[e.instance].instance, instances[e.instance].Pending(), e.task)
    else Nowhere
  }

  /** The task the forker has taken from a queue and not yet passed to TaskExecute. */
  function InForker(tids: seq<Slot>, f: Forker, e: Entry): nat {
    match f
    case Holding(_, x) => if x == e then 1 else 0
    case Registered(tid) => if tid < |tids| then Holds(tids[tid], e) else 0
    case _ => 0
  }

  /** The registration that the forker owns. */
  function OfForker(tids: seq<Slot>, f: Forker, e: Entry): nat {
    match f
    case Registered(tid) => if tid < |tids| then Holds(tids[tid], e) else 0
    case Refused(tid, _) => if tid < |tids| then Holds(tids[tid], e) else 0
    case _ => 0
  }

  function InQueues(p: Pool, f: Forker, e: Entry): int {
    CountWaiting(p.queues, e) + InForker(p.tids, f, e)
  }

  function InGatherer(g: Gatherer, e: Entry): nat {
    if g.Stopping? && g.entry == e then 1 else 0
  }

  function WithTids(p: Pool, f: Forker, g: Gatherer, e: Entry): int {
    CountHeld(p.tids, e) - OfForker(p.tids, f, e) + InGatherer(g, e)
  }

  function InRetriers(events: multiset<Entry>, inHand: multiset<Entry>, e: Entry): int {
    events[e] + inHand[e]
  }

  function Here(p: Place, q: Place): int {
    if p == q then 1 else 0
  }

  ghost predicate PlacedAt(s: State, e: Entry) {
    var p := Expected(s.instances, e);
    && InQueues(s.pool, s.forker, e) == Here(p, InQueue)
    && WithTids(s.pool, s.forker, s.gatherer, e) == Here(p, WithTid)
    && InRetriers(s.events, s.inHand, e) == Here(p, InRetrier)
  }

  /** Every task is in the place expected, once, and nowhere else. */
  ghost predicate Placed(s: State) {
    forall e: Entry :: PlacedAt(s, e)
  }

  /** Every registered id is a child's, or the one the forker is busy with. */
  ghost predicate IdsOwned(s: State) {
    && (forall t :: t in s.children ==> s.HasEntry(t))
    && (s.forker.Holding? ==> s.forker.queue < |s.pool.queues|)
    && (s.forker.Registered? || s.forker.Refused? ==> s.HasEntry(s.forker.tid) && s.forker.tid !in s.children)
    && (forall t: nat :: s.HasEntry(t) ==>
         t in s.children || ((s.forker.Registered? || s.forker.Refused?) && t == s.forker.tid))
  }

  ghost predicate CellOk(c: Cell, queues: nat) {
    && c.instance.Consistent() && Justified(c.instance, c.Pending())
    && (forall t :: t in c.instance.doc.queueOf ==> 0 <= c.instance.doc.queueOf[t] < queues)
    && (c.ended ==> c.section.None? && c.instance.Ended())
  }

  ghost predicate AllOk(cells: map<int, Cell>, queues: nat) {
    forall w :: w in cells ==> CellOk(cells[w], queues)
  }

  ghost predicate Flagged(cells: map<int, Cell>, cancelled: set<int>) {
    forall w :: w in cells ==> (cells[w].instance.cancelling <==> w in cancelled)
  }

  ghost predicate AllEnded(cells: map<int, Cell>, doomed: set<int>) {
    forall w :: w in doomed ==> w in cells && cells[w].ended
  }

  /** An instance that has ended has no section open, and one that has not is in nobody's list to delete. */
  ghost predicate CellsOk(s: State) {
    && s.instances.Keys <= s.started
    && AllOk(s.instances, |s.pool.queues|)
    && Flagged(s.instances, s.cancelled)
    && AllEnded(s.instances, s.doomed)
  }

  /** An instance whose end the forker has seen is still there, for the forker to delete. */
  ghost predicate LastSeen(s: State) {
    s.forker.Refused? && s.forker.terminated ==>
      && s.HasEntry(s.forker.tid)
      && var w := s.pool.tids[s.forker.tid].entry.instance;
         w in s.instances && s.instances[w].ended && w !in s.doomed
  }

  ghost predicate Inv(s: State) {
    s.pool.Valid() && IdsOwned(s) && CellsOk(s) && LastSeen(s) && Placed(s)
  }

  /** What InQueue, WithTid and InRetrier say about an instance. */
  lemma PlaceMeans(s: State, e: Entry)
    requires CellsOk(s) && Expected(s.instances, e) != Nowhere
    ensures e.instance in s.instances && !s.instances[e.instance].ended
    ensures var i := s.instances[e.instance].instance;
      && i.doc.Valid() && e.task in i.doc.jobOf
      && match Expected(s.instances, e)
         case InQueue => StatusIn(i.status, e.task) == Queued
         case WithTid => StatusIn(i.status, e.task) == Executing
         case InRetrier => e.task in i.waiting
         case Nowhere => false
  {
    var c := s.instances[e.instance];
    assert CellOk(c, |s.pool.queues|);
    if c.ended {
      LastCallbackEnds(c.instance);
    }
  }

  /** Changing one instance does nothing to the others. */
  lemma OneCell(cells: map<int, Cell>, w: int, c: Cell, queues: nat)
    requires AllOk(cells, queues) && CellOk(c, queues)
    ensures AllOk(cells[w := c], queues)
  {
    var after := cells[w := c];
    forall v | v in after ensures CellOk(after[v], queues) {
      if v == w {
        assert after[v] == c;
      } else {
        assert after[v] == cells[v] && CellOk(cells[v], queues);
      }
    }
  }

  lemma OneFlag(cells: map<int, Cell>, w: int, c: Cell, cancelled: set<int>, doomed: set<int>)
    requires Flagged(cells, cancelled) && AllEnded(cells, doomed)
    ensures (c.instance.cancelling <==> w in cancelled) ==> Flagged(cells[w := c], cancelled)
    ensures c.instance.cancelling ==> Flagged(cells[w := c], cancelled + {w})
    ensures c.ended || w !in doomed ==> AllEnded(cells[w := c], doomed)
    ensures c.ended ==> AllEnded(cells[w := c], doomed + {w})
  {
  }

  /** Start. */
  lemma StartCells(s: State, w: int, doc: Document, attributes: map<int, Attributes>, o: Oracle)
    requires CellsOk(s) && s.CanStart(w, doc)
    ensures CellsOk(s.Start(w, doc, attributes, o)) && w !in s.instances
    ensures forall e :: Expected(s.Start(w, doc, attributes, o).instances, e) == Expected(s.instances, e)
  {
    var c := s.Start(w, doc, attributes, o).instances[w];
    StartTransfers(doc, attributes, w in s.cancelled, o);
    StartFrame(doc, attributes, w in s.cancelled, o);
    assert CellOk(c, |s.pool.queues|);
    OneCell(s.instances, w, c, |s.pool.queues|);
    OneFlag(s.instances, w, c, s.cancelled, s.doomed);
  }

  lemma StartFrame(doc: Document, attributes: map<int, Attributes>, cancelling: bool, o: Oracle)
    requires doc.Valid()
    ensures var i := NewInstance(doc, attributes, cancelling).Start(o).0; i.doc == doc && i.cancelling == cancelling
  {
    var i := NewInstance(doc, attributes, cancelling);
    assert TasksWith(i.status, Queued) == {} && TasksWith(i.status, Executing) == {};
    LaunchOnlyQueues(i, 0, o);
  }

  lemma StartKeeps(s: State, w: int, doc: Document, attributes: map<int, Attributes>, o: Oracle)
    requires Inv(s) && s.CanStart(w, doc)
    ensures Inv(s.Start(w, doc, attributes, o))
  {
    var s' := s.Start(w, doc, attributes, o);
    StartCells(s, w, doc, attributes, o);
    IdsStay(s, s');
    forall e: Entry ensures PlacedAt(s', e) {
      assert PlacedAt(s, e);
    }
  }

  /** A step that leaves the table of ids alone, and the forker too unless it falls asleep, wakes or exits. */
  lemma IdsStay(s: State, s': State)
    requires IdsOwned(s) && s'.children == s.children && s'.pool.tids == s.pool.tids
    requires |s'.pool.queues| == |s.pool.queues|
    requires s'.forker == s.forker || ((s.forker.Ready? || s.forker.Asleep?) && (s'.forker.Asleep? || s'.forker.Exited?))
    ensures IdsOwned(s')
  {
    forall t: nat ensures s'.HasEntry(t) <==> s.HasEntry(t) {}
  }

  /** A section's calls. */
  lemma CallCells(s: State, w: int)
    requires CellsOk(s) && s.CanCall(w)
    ensures CellsOk(s.MakeCall(w))
  {
    var c := s.instances[w];
    var d := c.(section := Some(c.Pending()[1..]));
    assert CellOk(c, |s.pool.queues|);
    CallPlaces(c.instance, c.Pending(), c.Pending()[0].task);
    assert CellOk(d, |s.pool.queues|);
    OneCell(s.instances, w, d, |s.pool.queues|);
    OneFlag(s.instances, w, d, s.cancelled, s.doomed);
  }

  lemma ExpectedAfterCall(s: State, w: int, e: Entry)
    requires CellsOk(s) && s.CanCall(w)
    ensures var c := s.instances[w].Pending()[0];
      if e == Entry(w, c.task)
      then Expected(s.instances, e) == Nowhere && Expected(s.MakeCall(w).instances, e) == if c.EnqueueCall? then InQueue else InRetrier
      else Expected(s.MakeCall(w).instances, e) == Expected(s.instances, e)
  {
    var c := s.instances[w];
    assert CellOk(c, |s.pool.queues|);
    CallPlaces(c.instance, c.Pending(), e.task);
  }

  /** The three counts, when the pool's queues, the table and the forker's share of them change like this. */
  lemma CallCounts(s: State, w: int, e: Entry)
    requires s.CanCall(w)
    ensures var (s', c) := (s.MakeCall(w), s.instances[w].Pending()[0]);
      && InQueues(s'.pool, s'.forker, e) == InQueues(s.pool, s.forker, e) + (if c.EnqueueCall? && e == Entry(w, c.task) then 1 else 0)
      && WithTids(s'.pool, s'.forker, s'.gatherer, e) == WithTids(s.pool, s.forker, s.gatherer, e)
      && InRetriers(s'.events, s'.inHand, e) == InRetriers(s.events, s.inHand, e) + (if c.RetryCall? && e == Entry(w, c.task) then 1 else 0)
  {
    var c := s.instances[w].Pending()[0];
    if c.EnqueueCall? {
      EnqueueWaits(s.pool, c.queue, Entry(w, c.task), e);
    }
  }

  lemma CallKeeps(s: State, w: int)
    requires Inv(s) && s.CanCall(w)
    ensures Inv(s.MakeCall(w))
  {
    var s' := s.MakeCall(w);
    CallCells(s, w);
    var c := s.instances[w].Pending()[0];
    if c.EnqueueCall? {
      EnqueueIsValid(s.pool, c.queue, Entry(w, c.task));
    }
    IdsStay(s, s');
    forall e: Entry ensures PlacedAt(s', e) {
      assert PlacedAt(s, e);
      ExpectedAfterCall(s, w, e);
      CallCounts(s, w, e);
    }
  }

  /** Closing a section. */
  lemma CloseCells(s: State, w: int)
    requires CellsOk(s) && s.CanClose(w)
    ensures CellsOk(s.Close(w))
    ensures forall e :: Expected(s.Close(w).instances, e) == Expected(s.instances, e)
  {
    var c := s.instances[w];
    var d := s.Close(w).instances[w];
    assert CellOk(c, |s.pool.queues|);
    assert CellOk(d, |s.pool.queues|);
    OneCell(s.instances, w, d, |s.pool.queues|);
    OneFlag(s.instances, w, d, s.cancelled, s.doomed);
  }

  lemma CloseKeeps(s: State, w: int)
    requires Inv(s) && s.CanClose(w)
    ensures Inv(s.Close(w))
  {
    var s' := s.Close(w);
    CloseCells(s, w);
    IdsStay(s, s');
    assert LastSeen(s') by {
      assert CellOk(s.instances[w], |s.pool.queues|);
    }
    forall e: Entry ensures PlacedAt(s', e) {
      assert PlacedAt(s, e);
    }
  }

  /** Deleting an instance that has ended. */
  lemma DeleteCells(s: State, w: int)
    requires CellsOk(s) && w in s.doomed
    ensures CellsOk(s.Delete(w))
    ensures forall e :: Expected(s.Delete(w).instances, e) == Expected(s.instances, e)
  {
    FewerCells(s.instances, w, |s.pool.queues|);
    EndedIsNowhere(s.instances[w], |s.pool.queues|);
  }

  lemma FewerCells(cells: map<int, Cell>, w: int, queues: nat)
    requires AllOk(cells, queues)
    ensures AllOk(cells - {w}, queues)
  {
    forall v | v in cells - {w} ensures CellOk((cells - {w})[v], queues) {
      assert (cells - {w})[v] == cells[v] && CellOk(cells[v], queues);
    }
  }

  lemma EndedIsNowhere(c: Cell, queues: nat)
    requires CellOk(c, queues) && c.ended
    ensures forall t :: PlaceOf(c.instance, c.Pending(), t) == Nowhere
  {
    LastCallbackEnds(c.instance);
  }

  lemma DeleteKeeps(s: State, w: int)
    requires Inv(s) && w in s.doomed
    ensures Inv(s.Delete(w))
  {
    var s' := s.Delete(w);
    DeleteCells(s, w);
    IdsStay(s, s');
    forall e: Entry ensures PlacedAt(s', e) {
      assert PlacedAt(s, e);
    }
  }

  /** Cancelling. */
  lemma CancelCells(s: State, w: int)
    requires CellsOk(s) && s.CanCancel(w)
    ensures CellsOk(s.Cancel(w))
    ensures forall e :: Expected(s.Cancel(w).instances, e) == Expected(s.instances, e)
  {
    if w in s.instances {
      var c := s.instances[w];
      var d := Cell(c.instance.Cancel(), None, c.ended);
      assert CellOk(c, |s.pool.queues|);
      forall t ensures PlaceOf(d.instance, [], t) == PlaceOf(c.instance, [], t) {
        CancelTransfers(c.instance, t);
      }
      CancelTransfers(c.instance, 0);
      assert CellOk(d, |s.pool.queues|);
      OneCell(s.instances, w, d, |s.pool.queues|);
      OneFlag(s.instances, w, d, s.cancelled, s.doomed);
    }
  }

  lemma CancelKeepsPlaces(s: State, w: int)
    requires Inv(s) && s.CanCancel(w)
    ensures Inv(s.Cancel(w))
  {
    var s' := s.Cancel(w);
    CancelCells(s, w);
    IdsStay(s, s');
    forall e: Entry ensures PlacedAt(s', e) {
      assert PlacedAt(s, e);
    }
  }

  lemma CancelQueuedCounts(s: State, w: int, e: Entry)
    ensures var s' := s.CancelQueued(w);
      && InQueues(s'.pool, s'.forker, e) == InQueues(s.pool, s.forker, e)
      && WithTids(s'.pool, s'.forker, s'.gatherer, e) == WithTids(s.pool, s.forker, s.gatherer, e)
  {
    CancelLosesNothing(s.pool, w, e);
  }

  lemma CancelQueuedKeeps(s: State, w: int)
    requires Inv(s)
    ensures Inv(s.CancelQueued(w))
  {
    var s' := s.CancelQueued(w);
    CancelIsValid(s.pool, w);
    IdsStay(s, s');
    forall e: Entry ensures PlacedAt(s', e) {
      assert PlacedAt(s, e);
      CancelQueuedCounts(s, w, e);
    }
  }

  lemma TakeEventKeeps(s: State, e: Entry)
    requires Inv(s) && e in s.events
    ensures Inv(s.TakeEvent(e))
  {
    var s' := s.TakeEvent(e);
    IdsStay(s, s');
    forall f: Entry ensures PlacedAt(s', f) {
      assert PlacedAt(s, f);
    }
  }

  lemma ShutdownKeeps(s: State)
    requires Inv(s)
    ensures Inv(s.Shutdown())
  {
    var s' := s.Shutdown();
    IdsStay(s, s');
    forall e: Entry ensures PlacedAt(s', e) {
      assert PlacedAt(s, e);
    }
  }

  /** What a thread has in hand is where it is expected, so the instance is there and knows the task. */
  lemma InHandMeans(s: State, e: Entry, p: Place)
    requires CellsOk(s) && Expected(s.instances, e) == p != Nowhere && s.Unlocked(e.instance)
    ensures var c := s.instances[e.instance];
      && CellOk(c, |s.pool.queues|) && !c.ended && c.Pending() == [] && s.Reachable(e)
      && (p == InQueue ==> StatusIn(c.instance.status, e.task) == Queued)
      && (p == WithTid ==> StatusIn(c.instance.status, e.task) == Executing)
      && (p == InRetrier ==> e.task in c.instance.waiting)
  {
    PlaceMeans(s, e);
  }

  /** A section about one task. */
  lemma SectionCells(s: State, e: Entry, j: Instance, section: Option<seq<Call>>, ended: bool)
    requires CellsOk(s) && s.Unlocked(e.instance) && !s.instances[e.instance].ended
    requires j.Consistent() && j.cancelling == s.instances[e.instance].instance.cancelling
    requires Transfers(s.instances[e.instance].instance, j, Cell(j, section, ended).Pending(), e.task)
    requires ended ==> section.None? && j.Ended()
    ensures var after := s.instances[e.instance := Cell(j, section, ended)];
      && AllOk(after, |s.pool.queues|) && Flagged(after, s.cancelled) && AllEnded(after, s.doomed)
  {
    var c := s.instances[e.instance];
    var d := Cell(j, section, ended);
    assert CellOk(c, |s.pool.queues|);
    assert CellOk(d, |s.pool.queues|);
    OneCell(s.instances, e.instance, d, |s.pool.queues|);
    OneFlag(s.instances, e.instance, d, s.cancelled, s.doomed);
  }

  lemma SectionPlaces(instances: map<int, Cell>, e: Entry, d: Cell, f: Entry)
    requires e.instance in instances && instances[e.instance].Pending() == []
    requires Transfers(instances[e.instance].instance, d.instance, d.Pending(), e.task)
    ensures Expected(instances[e.instance := d], f) ==
      if f == e then PlaceOf(d.instance, d.Pending(), e.task) else Expected(instances, f)
  {
  }

  /** TaskRestart. */
  lemma RestartCells(s: State, e: Entry)
    requires CellsOk(s) && s.Unlocked(e.instance) && Expected(s.instances, e) == InRetrier
    ensures CellsOk(s.Restart(e))
    ensures forall f :: Expected(s.Restart(e).instances, f) == if f == e then Nowhere else Expected(s.instances, f)
  {
    InHandMeans(s, e, InRetrier);
    var i := s.instances[e.instance].instance;
    var (j, calls) := i.TaskRestart(e.task);
    TaskRestartTransfers(i, e.task);
    SectionCells(s, e, j, Some(calls), false);
    forall f ensures Expected(s.Restart(e).instances, f) == if f == e then Nowhere else Expected(s.instances, f) {
      SectionPlaces(s.instances, e, Cell(j, Some(calls), false), f);
    }
  }

  lemma RestartPlaces(s: State, s': State, e: Entry, f: Entry)
    requires e in s.inHand && s'.inHand == s.inHand - multiset{e} && PlacedAt(s, f) && Expected(s.instances, e) == InRetrier
    requires s'.pool == s.pool && s'.forker == s.forker && s'.gatherer == s.gatherer && s'.events == s.events
    requires Expected(s'.instances, f) == if f == e then Nowhere else Expected(s.instances, f)
    ensures PlacedAt(s', f)
  {
  }

  lemma RestartLast(s: State, e: Entry)
    requires CellsOk(s) && LastSeen(s) && s.Unlocked(e.instance) && Expected(s.instances, e) == InRetrier
    ensures LastSeen(s.Restart(e))
  {
    InHandMeans(s, e, InRetrier);
  }

  lemma RestartKeeps(s: State, e: Entry)
    requires Inv(s) && e in s.inHand && s.Unlocked(e.instance)
    ensures Inv(s.Restart(e))
  {
    var s' := s.Restart(e);
    assert PlacedAt(s, e);
    RestartCells(s, e);
    RestartLast(s, e);
    IdsStay(s, s');
    forall f: Entry ensures PlacedAt(s', f) {
      assert PlacedAt(s, f);
      RestartPlaces(s, s', e, f);
    }
  }

  /** TaskStop. */
  lemma StopCells(s: State, retval: int, output: OutputOutcome, o: Oracle)
    requires CellsOk(s) && s.CanStop() && Expected(s.instances, s.gatherer.entry) == WithTid
    ensures CellsOk(s.StopTask(retval, output, o))
    ensures var after := s.StopTask(retval, output, o).instances;
      forall f :: Expected(after, f) == if f == s.gatherer.entry then Nowhere else Expected(s.instances, f)
  {
    var e := s.gatherer.entry;
    InHandMeans(s, e, WithTid);
    var i := s.instances[e.instance].instance;
    var (j, calls) := i.TaskStop(e.task, retval, output, o);
    TaskStopTransfers(i, e.task, retval, output, o);
    StopFrame(i, e.task, retval, output, o);
    SectionCells(s, e, j, Some(calls), false);
    forall f ensures Expected(s.StopTask(retval, output, o).instances, f) == if f == e then Nowhere else Expected(s.instances, f) {
      SectionPlaces(s.instances, e, Cell(j, Some(calls), false), f);
    }
  }

  lemma StopPlaces(s: State, s': State, e: Entry, f: Entry)
    requires s.gatherer == Stopping(e) && s'.gatherer == Idle && PlacedAt(s, f)
    requires s'.pool == s.pool && s'.forker == s.forker && s'.events == s.events && s'.inHand == s.inHand
    requires Expected(s.instances, e) == WithTid
    requires Expected(s'.instances, f) == if f == e then Nowhere else Expected(s.instances, f)
    ensures PlacedAt(s', f)
  {
  }

  lemma StopKeeps(s: State, retval: int, output: OutputOutcome, o: Oracle)
    requires Inv(s) && s.CanStop()
    ensures Inv(s.StopTask(retval, output, o))
  {
    var s', e := s.StopTask(retval, output, o), s.gatherer.entry;
    StoppingIsExecuting(s);
    StopCells(s, retval, output, o);
    IdsStay(s, s');
    assert LastSeen(s') by {
      InHandMeans(s, e, WithTid);
    }
    forall f: Entry ensures PlacedAt(s', f) {
      assert PlacedAt(s, f);
      StopPlaces(s, s', e, f);
    }
  }

  lemma StoppingIsExecuting(s: State)
    requires Placed(s) && s.gatherer.Stopping?
    ensures Expected(s.instances, s.gatherer.entry) == WithTid
  {
    assert PlacedAt(s, s.gatherer.entry);
    ForkerOwnsAtMostHeld(s, s.gatherer.entry);
  }

  lemma StopFrame(i: Instance, t: int, retval: int, output: OutputOutcome, o: Oracle)
    requires i.Consistent() && StatusIn(i.status, t) == Executing
    ensures t in i.doc.jobOf && i.TaskStop(t, retval, output, o).0.cancelling == i.cancelling
  {
    var (a, c) := i.TakeResult(t, retval, output);
    ResultIsTaken(i, t, retval, output);
    ResultCounts(i, a, c, t);
    if a.JobSucceeded(i.doc.jobOf[t]) {
      LaunchOnlyQueues(a, i.doc.jobOf[t], o);
    }
  }

  lemma ForkerOwnsAtMostHeld(s: State, e: Entry)
    ensures OfForker(s.pool.tids, s.forker, e) <= CountHeld(s.pool.tids, e)
    ensures InForker(s.pool.tids, s.forker, e) <= 1
  {
    if (s.forker.Registered? || s.forker.Refused?) && s.forker.tid < |s.pool.tids| {
      CountHeldUpdate(s.pool.tids, s.forker.tid, Free, e);
    }
  }

  /** DequeueTask. */
  lemma ScanCounts(s: State, e: Entry)
    requires s.forker.Ready? || s.forker.Asleep?
    ensures var s' := s.Scan();
      && InQueues(s'.pool, s'.forker, e) == InQueues(s.pool, s.forker, e)
      && WithTids(s'.pool, s'.forker, s'.gatherer, e) == WithTids(s.pool, s.forker, s.gatherer, e)
  {
    if !s.pool.IsLocked() {
      DequeueTakes(s.pool, e);
    }
  }

  lemma ScanKeeps(s: State)
    requires Inv(s) && (s.forker.Ready? || s.forker.Asleep?)
    ensures Inv(s.Scan())
  {
    var s' := s.Scan();
    if !s.pool.IsLocked() {
      DequeueIsValid(s.pool);
    }
    assert IdsOwned(s') by {
      forall t: nat ensures s'.HasEntry(t) <==> s.HasEntry(t) {}
    }
    forall e: Entry ensures PlacedAt(s', e) {
      assert PlacedAt(s, e);
      ScanCounts(s, e);
    }
  }

  lemma EnterKeeps(s: State)
    requires Inv(s) && s.forker.Ready?
    ensures Inv(s.EnterDequeue())
  {
    var s' := s.EnterDequeue();
    if !s.pool.shuttingDown && s.pool.forkPossible {
      ScanKeeps(s);
    } else {
      IdsStay(s, s');
      forall e: Entry ensures PlacedAt(s', e) {
        assert PlacedAt(s, e);
      }
    }
  }

  lemma WakeKeeps(s: State)
    requires Inv(s) && s.forker.Asleep?
    ensures Inv(s.WakeUp())
  {
    var s' := s.WakeUp();
    if !s.pool.shuttingDown {
      ScanKeeps(s);
    } else {
      IdsStay(s, s');
      forall e: Entry ensures PlacedAt(s', e) {
        assert PlacedAt(s, e);
      }
    }
  }

  /** Registering a task under a free id. */
  lemma RegisterPool(s: State)
    requires s.pool.Valid() && s.CanRegister()
    ensures s.RegisterTask().pool.Valid()
    ensures var s' := s.RegisterTask(); var tid := s'.forker.tid; var q := s.pool.queues[s.forker.queue];
      && tid < |s.pool.tids| && s.pool.tids[tid].Free?
      && s'.pool.tids == s.pool.tids[tid := Held(s.forker.queue, s.forker.entry)]
      && s'.pool.queues == s.pool.queues[s.forker.queue := q.(running := q.running + 1)]
  {
    ExecuteFindsNearestFree(s.pool, s.forker.queue, s.forker.entry);
    var tid := s.RegisterTask().forker.tid;
    RegisterIsValid(s.pool.(lasttid := tid), tid, s.forker.queue, s.forker.entry);
  }

  lemma RegisterTaskCounts(s: State, e: Entry)
    requires s.pool.Valid() && s.CanRegister()
    ensures var s' := s.RegisterTask();
      && InQueues(s'.pool, s'.forker, e) == InQueues(s.pool, s.forker, e)
      && WithTids(s'.pool, s'.forker, s'.gatherer, e) == WithTids(s.pool, s.forker, s.gatherer, e)
  {
    ExecuteFindsNearestFree(s.pool, s.forker.queue, s.forker.entry);
    var tid := s.RegisterTask().forker.tid;
    RegisterCounts(s.pool.(lasttid := tid), tid, s.forker.queue, s.forker.entry, e);
  }

  lemma RegisterKeeps(s: State)
    requires Inv(s) && s.CanRegister()
    ensures Inv(s.RegisterTask())
  {
    var s' := s.RegisterTask();
    RegisterPool(s);
    assert IdsOwned(s') by {
      forall t: nat ensures s'.HasEntry(t) <==> s.HasEntry(t) || t == s'.forker.tid {}
    }
    forall e: Entry ensures PlacedAt(s', e) {
      assert PlacedAt(s, e);
      RegisterTaskCounts(s, e);
    }
  }

  /**
   * Without a free id the forker goes on with 0, the id of another task: so registering keeps every
   * task in its place exactly when an id is free.
   */
  lemma RegisterKeepsIff(s: State)
    requires Inv(s) && s.MayRegister()
    ensures Inv(s.RegisterTask()) <==> s.pool.HasFreeTid()
  {
    if s.pool.HasFreeTid() {
      RegisterKeeps(s);
    } else {
      ExecuteFindsNearestFree(s.pool, s.forker.queue, s.forker.entry);
      assert s.pool.tids[0].Held?;
      assert s.HasEntry(0) && 0 in s.children;
    }
  }

  /** TaskExecute. */
  lemma ExecuteCells(s: State, outcome: ForkOutcome)
    requires CellsOk(s) && s.CanExecute() && Expected(s.instances, s.pool.tids[s.forker.tid].entry) == InQueue
    ensures CellsOk(s.ExecuteTask(outcome))
    ensures var e := s.pool.tids[s.forker.tid].entry; var i := s.instances[e.instance].instance;
      && !s.instances[e.instance].ended
      && forall f :: Expected(s.ExecuteTask(outcome).instances, f) ==
           if f != e then Expected(s.instances, f) else if i.IsForked(outcome) then WithTid else Nowhere
  {
    var e := s.pool.tids[s.forker.tid].entry;
    InHandMeans(s, e, InQueue);
    var i := s.instances[e.instance].instance;
    TaskExecuteTransfers(i, e.task, outcome);
    var d := s.ExecuteTask(outcome).instances[e.instance];
    SectionCells(s, e, d.instance, None, d.ended);
    forall f ensures Expected(s.ExecuteTask(outcome).instances, f) ==
      if f != e then Expected(s.instances, f) else if i.IsForked(outcome) then WithTid else Nowhere
    {
      SectionPlaces(s.instances, e, d, f);
    }
  }

  /** A task just forked is still to be waited for, so TaskExecute never reports the end after a fork. */
  lemma ForkedHasNotEnded(i: Instance, t: int, outcome: ForkOutcome)
    requires i.Consistent() && StatusIn(i.status, t) == Queued && i.IsForked(outcome)
    ensures !i.TaskExecute(t, outcome).Ended()
  {
    TaskExecuteTransfers(i, t, outcome);
    LastCallbackEnds(i.TaskExecute(t, outcome));
  }

  lemma RegisteredIsQueued(s: State)
    requires Placed(s) && s.forker.Registered? && s.HasEntry(s.forker.tid)
    ensures Expected(s.instances, s.pool.tids[s.forker.tid].entry) == InQueue
  {
    assert PlacedAt(s, s.pool.tids[s.forker.tid].entry);
  }

  lemma ExecutePlaces(s: State, s': State, tid: nat, forked: bool, f: Entry)
    requires s.forker == Registered(tid) && s.HasEntry(tid) && PlacedAt(s, f)
    requires s'.pool == s.pool && s'.gatherer == s.gatherer && s'.events == s.events && s'.inHand == s.inHand
    requires s'.forker == Ready || (s'.forker.Refused? && s'.forker.tid == tid)
    requires s'.forker == Ready <==> forked
    requires Expected(s.instances, s.pool.tids[tid].entry) == InQueue
    requires Expected(s'.instances, f) ==
      if f != s.pool.tids[tid].entry then Expected(s.instances, f) else if forked then WithTid else Nowhere
    ensures PlacedAt(s', f)
  {
  }

  lemma ExecuteKeeps(s: State, outcome: ForkOutcome)
    requires Inv(s) && s.CanExecute()
    ensures Inv(s.ExecuteTask(outcome))
  {
    var s', tid := s.ExecuteTask(outcome), s.forker.tid;
    var e := s.pool.tids[tid].entry;
    RegisteredIsQueued(s);
    ExecuteCells(s, outcome);
    assert IdsOwned(s') by {
      forall t: nat ensures s'.HasEntry(t) <==> s.HasEntry(t) {}
    }
    forall f: Entry ensures PlacedAt(s', f) {
      assert PlacedAt(s, f);
      ExecutePlaces(s, s', tid, s.instances[e.instance].instance.IsForked(outcome), f);
    }
  }

  /** The forker gives an id back. */
  lemma ReleaseCounts(s: State, e: Entry)
    requires s.CanRelease()
    ensures var s' := s.ReleaseTask();
      && InQueues(s'.pool, s'.forker, e) == InQueues(s.pool, s.forker, e)
      && WithTids(s'.pool, s'.forker, s'.gatherer, e) == WithTids(s.pool, s.forker, s.gatherer, e)
  {
    TerminateCounts(s.pool, s.forker.tid, e);
  }

  lemma ReleaseKeeps(s: State)
    requires Inv(s) && s.CanRelease()
    ensures Inv(s.ReleaseTask())
  {
    var s' := s.ReleaseTask();
    TerminateIsValid(s.pool, s.forker.tid);
    assert IdsOwned(s') by {
      forall t: nat ensures s'.HasEntry(t) <==> s.HasEntry(t) && t != s.forker.tid {}
    }
    forall e: Entry ensures PlacedAt(s', e) {
      assert PlacedAt(s, e);
      ReleaseCounts(s, e);
    }
  }

  /** Freeing an id that the forker does not own is nothing to the forker. */
  lemma OthersTid(tids: seq<Slot>, tid: nat, f: Forker, g: Forker, e: Entry)
    requires tid < |tids| && (g == f || (f.Asleep? && g.Asleep?))
    requires f.Registered? || f.Refused? ==> f.tid != tid
    ensures InForker(tids[tid := Free], g, e) == InForker(tids, f, e)
    ensures OfForker(tids[tid := Free], g, e) == OfForker(tids, f, e)
  {
  }

  /** The gatherer releases a child's id. */
  lemma GatherCounts(s: State, tid: nat, e: Entry)
    requires s.CanGather(tid) && (s.forker.Registered? || s.forker.Refused? ==> s.forker.tid != tid)
    ensures var s' := s.Gather(tid);
      && InQueues(s'.pool, s'.forker, e) == InQueues(s.pool, s.forker, e)
      && WithTids(s'.pool, s'.forker, s'.gatherer, e) == WithTids(s.pool, s.forker, s.gatherer, e)
  {
    var s' := s.Gather(tid);
    assert s'.pool.tids == s.pool.tids[tid := Free] && (s'.forker == s.forker || (s.forker.Asleep? && s'.forker.Asleep?));
    OthersTid(s.pool.tids, tid, s.forker, s'.forker, e);
    TerminateCounts(s.pool, tid, e);
  }

  lemma GatherKeeps(s: State, tid: nat)
    requires Inv(s) && s.CanGather(tid)
    ensures Inv(s.Gather(tid))
  {
    var s' := s.Gather(tid);
    TerminateIsValid(s.pool, tid);
    assert IdsOwned(s') by {
      forall t: nat ensures s'.HasEntry(t) <==> s.HasEntry(t) && t != tid {}
    }
    forall e: Entry ensures PlacedAt(s', e) {
      assert PlacedAt(s, e);
      GatherCounts(s, tid, e);
    }
  }

  /** Every step of every thread keeps every task in its place. */
  lemma StepKeeps(s: State, step: Step)
    requires Inv(s) && Can(s, step)
    ensures Inv(Do(s, step))
  {
    match step
    case StartStep(w, doc, attributes, o) => StartKeeps(s, w, doc, attributes, o);
    case CallStep(w) => CallKeeps(s, w);
    case CloseStep(w) => CloseKeeps(s, w);
    case DeleteStep(w) => DeleteKeeps(s, w);
    case CancelStep(w) => CancelKeepsPlaces(s, w);
    case CancelQueuedStep(w) => CancelQueuedKeeps(s, w);
    case TakeEventStep(e) => TakeEventKeeps(s, e);
    case RestartStep(e) => RestartKeeps(s, e);
    case EnterStep => EnterKeeps(s);
    case WakeStep => WakeKeeps(s);
    case RegisterStep => RegisterKeeps(s);
    case ExecuteStep(outcome) => ExecuteKeeps(s, outcome);
    case ReleaseStep => ReleaseKeeps(s);
    case GatherStep(tid) => GatherKeeps(s, tid);
    case StopStep(retval, output, o) => StopKeeps(s, retval, output, o);
    case ShutdownStep => ShutdownKeeps(s);
  }
}
