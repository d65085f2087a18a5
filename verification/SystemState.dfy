/**
 * The running program: client, forker, gatherer and retrier threads around the queue pool and the
 * workflow instances. A step is one critical section of the pool or of the retrier, or the opening
 * or closing of an instance's locked section; what a thread carries between two steps is part of
 * the state. Cancelling is the repaired one, which leaves each queue a proper FIFO.
 */
module SystemState {
  import opened RetryPlan
  import opened WorkflowState
  import opened QueueState
  import opened PoolState

  /**
   * A workflow instance in memory. `section` is what its locked section still has to ask for, if
   * a thread is in one; `ended` says that a callback has seen workflow_ended true.
   */
  datatype Cell = Cell(instance: Instance, section: Option<seq<Call>>, ended: bool) {
    function Pending(): seq<Call> {
      if section.Some? then section.value else []
    }
  }

  /** Where the forker is: with nothing in hand, asleep, with a task, with a registered task, or with one that was not forked. */
  datatype Forker =
    | Ready
    | Asleep(signalled: bool)
    | Holding(queue: nat, entry: Entry)
    | Registered(tid: nat)
    | Refused(tid: nat, terminated: bool)
    | Exited

  /** The gatherer, waiting for a message or about to call TaskStop. */
  datatype Gatherer = Idle | Stopping(entry: Entry)

  /**
   * `children` are the ids of forked tasks whose exit message is still to come, `events` the
   * retrier's list, `inHand` the retry events a retrier thread has taken from it, `doomed` the
   * instances some thread is about to delete. `started`, `cancelled` and `endings` only record
   * the past: ids used, ids cancelled, and each callback that saw workflow_ended true.
   */
  datatype State = State(
    pool: Pool,
    instances: map<int, Cell>,
    events: multiset<Entry>,
    inHand: multiset<Entry>,
    forker: Forker,
    gatherer: Gatherer,
    children: set<nat>,
    doomed: set<int>,
    started: set<int>,
    cancelled: set<int>,
    endings: multiset<int>)
  {
    /** pthread_cond_signal wakes a sleeping forker and is lost otherwise. */
    function WithPool(p: Pool): State {
      this.(pool := p, forker := if p.Signals() && forker.Asleep? then Asleep(true) else forker)
    }

    function WithInstance(w: int, i: Instance, section: Option<seq<Call>>): State
      requires w in instances
    {
      this.(instances := instances[w := Cell(i, section, instances[w].ended)])
    }

    /** The instance is in memory and no thread holds its lock. */
    predicate Unlocked(w: int) {
      w in instances && instances[w].section.None?
    }

    /** The task is one of the instance's, which can be locked. */
    ghost predicate Reachable(e: Entry) {
      && Unlocked(e.instance) && instances[e.instance].instance.doc.Valid()
      && e.task in instances[e.instance].instance.doc.jobOf
    }

    /** A client or the scheduler starts a workflow. */
    ghost predicate CanStart(w: int, doc: Document) {
      w !in started && doc.Valid() && forall t :: t in doc.queueOf ==> 0 <= doc.queueOf[t] < |pool.queues|
    }

    function Start(w: int, doc: Document, attributes: map<int, Attributes>, o: Oracle): State
      requires doc.Valid()
    {
      var (i, calls) := NewInstance(doc, attributes, w in cancelled).Start(o);
      this.(started := started + {w}, instances := instances[w := Cell(i, Some(calls), false)])
    }

    /** A locked section makes its next call. */
    predicate CanCall(w: int) {
      && w in instances && instances[w].Pending() != []
      && (instances[w].Pending()[0].EnqueueCall? ==> 0 <= instances[w].Pending()[0].queue < |pool.queues|)
    }

    function MakeCall(w: int): State
      requires CanCall(w)
    {
      var calls := instances[w].Pending();
      var s := WithInstance(w, instances[w].instance, Some(calls[1..]));
      match calls[0]
      case EnqueueCall(t, queue) => s.WithPool(pool.EnqueueTask(queue, Entry(w, t)))
      case RetryCall(t, _) => s.(events := events + multiset{Entry(w, t)})
    }

    /** A locked section ends by looking whether the workflow has ended. */
    predicate CanClose(w: int) {
      w in instances && instances[w].section == Some([])
    }

    function Close(w: int): State
      requires CanClose(w)
    {
      var i := instances[w].instance;
      if i.Ended() then
        this.(instances := instances[w := Cell(i, None, true)], doomed := doomed + {w}, endings := endings + multiset{w})
      else WithInstance(w, i, None)
    }

    function Delete(w: int): State {
      this.(instances := instances - {w}, doomed := doomed - {w})
    }

    /** The three steps of a cancel: the flag, the instance's retry events, its queued tasks. */
    predicate CanCancel(w: int) {
      w in instances ==> Unlocked(w)
    }

    function Cancel(w: int): State
      requires CanCancel(w)
    {
      var s := this.(cancelled := cancelled + {w});
      if w in instances then s.WithInstance(w, instances[w].instance.Cancel(), None) else s
    }

    function CancelQueued(w: int): State {
      WithPool(pool.CancelTasks(w))
    }

    /** An alarm, or a flush, takes an event off the list. */
    function TakeEvent(e: Entry): State {
      this.(events := events - multiset{e}, inHand := inHand + multiset{e})
    }

    function Restart(e: Entry): State
      requires Unlocked(e.instance)
    {
      var (i, calls) := instances[e.instance].instance.TaskRestart(e.task);
      WithInstance(e.instance, i, Some(calls)).(inHand := inHand - multiset{e})
    }

    /** The forker in DequeueTask, up to the wait. */
    function EnterDequeue(): State {
      if pool.shuttingDown then this.(forker := Exited)
      else if !pool.forkPossible then this.(pool := pool.(forkLocked := true), forker := Asleep(false))
      else Scan()
    }

    /** The forker in DequeueTask after the wait. */
    function WakeUp(): State {
      if pool.shuttingDown then this.(forker := Exited) else Scan()
    }

    /** DequeueTask from the search on; when all queues are locked it returns false, and the forker exits. */
    function Scan(): State {
      if pool.IsLocked() then this.(pool := pool.(forkLocked := false), forker := Exited)
      else
        var k := FirstUnlocked(pool.queues);
        this.(pool := pool.DequeueTask(), forker := Holding(k, pool.queues[k].Head()))
    }

    /** The forker has a task to register. */
    predicate MayRegister() {
      forker.Holding? && forker.queue < |pool.queues| && pool.lasttid < pool.MaxPid()
    }

    predicate CanRegister() {
      MayRegister() && pool.HasFreeTid()
    }

    /** The forker takes the answer of ExecuteTask as an id, whether one was found or not. */
    function RegisterTask(): State
      requires MayRegister()
    {
      var (p, tid) := pool.ExecuteTask(forker.queue, forker.entry);
      WithPool(p).(forker := Registered(tid))
    }

    predicate HasEntry(tid: nat) {
      tid < |pool.tids| && pool.tids[tid].Held? && pool.tids[tid].queue < |pool.queues|
    }

    ghost predicate CanExecute() {
      forker.Registered? && HasEntry(forker.tid) && Reachable(pool.tids[forker.tid].entry)
    }

    /** TaskExecute, whole: a forked task's exit can come at once. */
    function ExecuteTask(outcome: ForkOutcome): State
      requires CanExecute()
    {
      var tid, e := forker.tid, pool.tids[forker.tid].entry;
      var i := instances[e.instance].instance;
      var j := i.TaskExecute(e.task, outcome);
      var s := WithInstance(e.instance, j, None);
      if i.IsForked(outcome) then s.(forker := Ready, children := children + {tid})
      else
        s.(forker := Refused(tid, j.Ended()),
           instances := instances[e.instance := Cell(j, None, j.Ended() || instances[e.instance].ended)],
           endings := if j.Ended() then endings + multiset{e.instance} else endings)
    }

    /** The forker gives back the id of a task it could not fork, then may delete the instance. */
    predicate CanRelease() {
      forker.Refused? && HasEntry(forker.tid)
    }

    function ReleaseTask(): State
      requires CanRelease()
    {
      var w := pool.tids[forker.tid].entry.instance;
      WithPool(pool.TerminateTask(forker.tid)).(forker := Ready, doomed := if forker.terminated then doomed + {w} else doomed)
    }

    /** The gatherer gets the exit message of a child and releases its id. */
    predicate CanGather(tid: nat) {
      gatherer.Idle? && tid in children && HasEntry(tid)
    }

    function Gather(tid: nat): State
      requires CanGather(tid)
    {
      WithPool(pool.TerminateTask(tid)).(gatherer := Stopping(pool.tids[tid].entry), children := children - {tid})
    }

    ghost predicate CanStop() {
      gatherer.Stopping? && Reachable(gatherer.entry)
    }

    function StopTask(retval: int, output: OutputOutcome, o: Oracle): State
      requires CanStop()
    {
      var e := gatherer.entry;
      var (i, calls) := instances[e.instance].instance.TaskStop(e.task, retval, output, o);
      WithInstance(e.instance, i, Some(calls)).(gatherer := Idle)
    }

    function Shutdown(): State {
      this.(pool := pool.Shutdown(), forker := if pool.forkLocked && forker.Asleep? then Asleep(true) else forker)
    }
  }

  /** Every step any thread can take. */
  datatype Step =
    | StartStep(w: int, doc: Document, attributes: map<int, Attributes>, o: Oracle)
    | CallStep(w: int)
    | CloseStep(w: int)
    | DeleteStep(w: int)
    | CancelStep(w: int)
    | CancelQueuedStep(w: int)
    | TakeEventStep(e: Entry)
    | RestartStep(e: Entry)
    | EnterStep
    | WakeStep
    | RegisterStep
    | ExecuteStep(outcome: ForkOutcome)
    | ReleaseStep
    | GatherStep(tid: nat)
    | StopStep(retval: int, output: OutputOutcome, o: Oracle)
    | ShutdownStep

  ghost predicate Can(s: State, step: Step) {
    match step
    case StartStep(w, doc, _, _) => s.CanStart(w, doc)
    case CallStep(w) => s.CanCall(w)
    case CloseStep(w) => s.CanClose(w)
    case DeleteStep(w) => w in s.doomed
    case CancelStep(w) => s.CanCancel(w)
    case CancelQueuedStep(w) => w in s.cancelled
    case TakeEventStep(e) => e in s.events
    case RestartStep(e) => e in s.inHand && s.Unlocked(e.instance)
    case EnterStep => s.forker.Ready?
    case WakeStep => s.forker.Asleep? && s.forker.signalled
    case RegisterStep => s.CanRegister()
    case ExecuteStep(_) => s.CanExecute()
    case ReleaseStep => s.CanRelease()
    case GatherStep(tid) => s.CanGather(tid)
    case StopStep(_, _, _) => s.CanStop()
    case ShutdownStep => true
  }

  ghost function Do(s: State, step: Step): State
    requires Can(s, step)
  {
    match step
    case StartStep(w, doc, attributes, o) => s.Start(w, doc, attributes, o)
    case CallStep(w) => s.MakeCall(w)
    case CloseStep(w) => s.Close(w)
    case DeleteStep(w) => s.Delete(w)
    case CancelStep(w) => s.Cancel(w)
    case CancelQueuedStep(w) => s.CancelQueued(w)
    case TakeEventStep(e) => s.TakeEvent(e)
    case RestartStep(e) => s.Restart(e)
    case EnterStep => s.EnterDequeue()
    case WakeStep => s.WakeUp()
    case RegisterStep => s.RegisterTask()
    case ExecuteStep(outcome) => s.ExecuteTask(outcome)
    case ReleaseStep => s.ReleaseTask()
    case GatherStep(tid) => s.Gather(tid)
    case StopStep(retval, output, o) => s.StopTask(retval, output, o)
    case ShutdownStep => s.Shutdown()
  }

  /** A run of the program, from any state. */
  ghost predicate Run(run: seq<State>, steps: seq<Step>) {
    && |run| == |steps| + 1
    && forall k :: 0 <= k < |steps| ==> Can(run[k], steps[k]) && run[k + 1] == Do(run[k], steps[k])
  }
}
