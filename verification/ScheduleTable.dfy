/** The workflow scheduler as a value: which schedules wait for their time, and which have an instance running. */
module ScheduleTable {

  /** A workflow schedule, and whether it goes on after a failed instance. */
  datatype Schedule = Schedule(id: nat, continues: bool)

  datatype Running = Running(instance: nat, schedule: Schedule)

  /**
   * `ids` are the schedules the table knows, `pending` the events of the timer list, and `live`
   * the instances started for a schedule that have not ended yet, whatever the table says.
   */
  datatype State = State(ids: set<nat>, executing: map<nat, Running>, pending: seq<Schedule>, live: map<nat, nat>) {

    /** ScheduleWorkflow: wait for the next time, or register a running instance if the schedule is known. */
    function ScheduleWorkflow(s: Schedule, instance: nat): State {
      if instance == 0 then this.(pending := pending + [s])
      else if s.id in ids then this.(executing := executing[s.id := Running(instance, s)])
      else this
    }

    /** An alarm takes a schedule off the list; then it is only in the timer thread's hand. */
    function TakeOff(k: nat): State
      requires k < |pending|
    {
      this.(pending := pending[..k] + pending[k + 1..])
    }

    /** The instance created for an alarm goes live and is registered. */
    function Register(s: Schedule, instance: nat): State {
      this.(live := live[instance := s.id]).ScheduleWorkflow(s, instance)
    }

    /** An alarm, up to the registration of the new instance; no instance means that it could not be created. */
    function Alarm(k: nat, instance: nat): State
      requires k < |pending|
    {
      if instance == 0 then TakeOff(k) else TakeOff(k).Register(pending[k], instance)
    }

    /** ScheduledWorkflowInstanceStop dereferences the executing entry, which must be there. */
    predicate CanStop(instance: nat) {
      instance in live && (live[instance] in ids ==> live[instance] in executing)
    }

    function Stop(instance: nat, success: bool): State
      requires CanStop(instance)
    {
      var id := live[instance];
      var ended := this.(live := live - {instance});
      if id !in ids then ended
      else
        var s := executing[id].schedule;
        var free := ended.(executing := executing - {id});
        if success || s.continues then free.ScheduleWorkflow(s, 0) else free
    }

    /** Reload: the table starts again from the active ids, and each schedule that can be loaded is put back. */
    function Reload(active: set<nat>, loaded: seq<Schedule>): State {
      PutBack(this.(ids := active, executing := map[], pending := []), executing, loaded)
    }

    /** In at most one place, and with at most the instance registered for it. */
    ghost predicate Valid() {
      && (forall id :: id in executing ==> id in ids && executing[id].schedule.id == id && executing[id].instance != 0)
      && (forall id :: id in executing ==> executing[id].instance in live && live[executing[id].instance] == id)
      && (forall w :: w in live ==> live[w] in executing && executing[live[w]].instance == w)
      && OnceEach(pending) && (forall k :: 0 <= k < |pending| ==> pending[k].id in ids && pending[k].id !in executing)
    }

    predicate Waits(id: nat) {
      exists k :: 0 <= k < |pending| && pending[k].id == id
    }

    /** The schedule has not been lost. */
    predicate Kept(id: nat) {
      Waits(id) || id in executing
    }
  }

  /** What Reload does with each row in turn: a schedule that was executing before keeps its instance. */
  function PutBack(s: State, before: map<nat, Running>, loaded: seq<Schedule>): State {
    if loaded == [] then s
    else
      var (init, last) := (loaded[..|loaded| - 1], loaded[|loaded| - 1]);
      PutBack(s, before, init).ScheduleWorkflow(last, if last.id in before then before[last.id].instance else 0)
  }

  ghost predicate OnceEach(s: seq<Schedule>) {
    forall i, j :: 0 <= i < j < |s| ==> s[i].id != s[j].id
  }

  /** The rows of the database: active ids only, each once. */
  ghost predicate Rows(active: set<nat>, loaded: seq<Schedule>) {
    OnceEach(loaded) && forall k :: 0 <= k < |loaded| ==> loaded[k].id in active
  }

  predicate Among(loaded: seq<Schedule>, id: nat) {
    exists k :: 0 <= k < |loaded| && loaded[k].id == id
  }

  lemma AlarmKeepsValid(s: State, k: nat, instance: nat)
    requires s.Valid() && k < |s.pending| && (instance != 0 ==> instance !in s.live)
    ensures s.Alarm(k, instance).Valid()
    ensures forall id :: s.Alarm(k, instance).Kept(id) <==> s.Kept(id) && (instance == 0 ==> id != s.pending[k].id)
  {
    var t := s.Alarm(k, instance);
    assert forall j :: 0 <= j < |t.pending| ==> t.pending[j] == s.pending[if j < k then j else j + 1];
    forall id | s.Waits(id) && id != s.pending[k].id ensures t.Waits(id) {
      var j :| 0 <= j < |s.pending| && s.pending[j].id == id;
      assert t.pending[if j < k then j else j - 1].id == id;
    }
    assert s.Waits(s.pending[k].id);
  }

  lemma StopKeepsValid(s: State, instance: nat, success: bool)
    requires s.Valid() && instance in s.live
    ensures s.CanStop(instance) && s.Stop(instance, success).Valid()
    ensures var sched := s.executing[s.live[instance]].schedule;
      forall id :: s.Stop(instance, success).Kept(id) <==> s.Kept(id) && (id == s.live[instance] ==> success || sched.continues)
  {
    var id, t := s.live[instance], s.Stop(instance, success);
    assert forall j :: 0 <= j < |s.pending| ==> t.pending[j] == s.pending[j];
    assert !s.Waits(id);
    if success || s.executing[id].schedule.continues {
      assert t.pending[|s.pending|].id == id;
    }
    forall other | s.Waits(other) ensures t.Waits(other) {
      var j :| 0 <= j < |s.pending| && s.pending[j].id == other;
      assert t.pending[j].id == other;
    }
  }

  /** What the loop of Reload has built: exactly the rows so far, each where it was before. */
  ghost predicate Rebuilt(s: State, t: State, active: set<nat>, loaded: seq<Schedule>) {
    && t.ids == active && t.live == s.live && OnceEach(t.pending)
    && (forall id :: t.Waits(id) <==> Among(loaded, id) && id !in s.executing)
    && (forall id :: id in t.executing <==> Among(loaded, id) && id in s.executing)
    && (forall id :: id in t.executing ==> t.executing[id].instance == s.executing[id].instance && t.executing[id].schedule.id == id)
  }

  lemma {:induction false} PutBackRebuilds(s: State, active: set<nat>, loaded: seq<Schedule>)
    requires s.Valid() && Rows(active, loaded)
    ensures Rebuilt(s, PutBack(s.(ids := active, executing := map[], pending := []), s.executing, loaded), active, loaded)
  {
    var empty := s.(ids := active, executing := map[], pending := []);
    if loaded != [] {
      var init, last := loaded[..|loaded| - 1], loaded[|loaded| - 1];
      PutBackRebuilds(s, active, init);
      OneMoreRow(s, PutBack(empty, s.executing, init), active, loaded);
    }
  }

  lemma OneMoreRow(s: State, t: State, active: set<nat>, loaded: seq<Schedule>)
    requires s.Valid() && Rows(active, loaded) && loaded != [] && Rebuilt(s, t, active, loaded[..|loaded| - 1])
    ensures var last := loaded[|loaded| - 1];
      Rebuilt(s, t.ScheduleWorkflow(last, if last.id in s.executing then s.executing[last.id].instance else 0), active, loaded)
  {
    var init, last := loaded[..|loaded| - 1], loaded[|loaded| - 1];
    var u := t.ScheduleWorkflow(last, if last.id in s.executing then s.executing[last.id].instance else 0);
    forall id ensures Among(loaded, id) <==> Among(init, id) || id == last.id {
      if Among(init, id) {
        var k :| 0 <= k < |init| && init[k].id == id;
        assert loaded[k].id == id;
      }
      if Among(loaded, id) && id != last.id {
        var k :| 0 <= k < |loaded| && loaded[k].id == id;
        assert init[k].id == id;
      }
    }
    assert !Among(init, last.id);
    if last.id !in s.executing {
      assert u.pending[|t.pending|] == last;
      forall id ensures u.Waits(id) <==> t.Waits(id) || id == last.id {
        if t.Waits(id) {
          var k :| 0 <= k < |t.pending| && t.pending[k].id == id;
          assert u.pending[k].id == id;
        }
      }
      assert !t.Waits(last.id);
    }
  }

  /**
   * Reloading keeps the table right exactly when every schedule with a live instance is among the
   * rows that were loaded; then it stays bound to that instance.
   */
  lemma ReloadKeepsValidIff(s: State, active: set<nat>, loaded: seq<Schedule>)
    requires s.Valid() && Rows(active, loaded)
    ensures s.Reload(active, loaded).Valid() <==> forall w :: w in s.live ==> Among(loaded, s.live[w])
    ensures forall id :: s.Reload(active, loaded).Kept(id) <==> Among(loaded, id)
    ensures forall id :: id in s.executing && Among(loaded, id) ==>
      id in s.Reload(active, loaded).executing && s.Reload(active, loaded).executing[id].instance == s.executing[id].instance
  {
    var t := s.Reload(active, loaded);
    PutBackRebuilds(s, active, loaded);
    if forall w :: w in s.live ==> Among(loaded, s.live[w]) {
      forall k | 0 <= k < |t.pending| ensures t.pending[k].id in t.ids && t.pending[k].id !in t.executing {
        assert t.Waits(t.pending[k].id);
      }
    } else {
      var w :| w in s.live && !Among(loaded, s.live[w]);
      assert w in t.live && t.live[w] !in t.executing;
    }
  }

  /** No schedule ever has two instances. */
  lemma OneLiveInstance(s: State, v: nat, w: nat)
    requires s.Valid() && v in s.live && w in s.live && s.live[v] == s.live[w]
    ensures v == w
  {
  }

  /** A schedule is waiting or executing, not both. */
  lemma OnePlace(s: State, id: nat)
    requires s.Valid()
    ensures !(s.Waits(id) && id in s.executing)
    ensures forall j, k :: 0 <= j < |s.pending| && 0 <= k < |s.pending| && s.pending[j].id == id == s.pending[k].id ==> j == k
  {
  }

  datatype Step =
    | AlarmStep(k: nat, instance: nat)
    | StopStep(instance: nat, success: bool)
    | ReloadStep(active: set<nat>, loaded: seq<Schedule>)

  /** Instance ids are new, and running schedules stay active and can be loaded. */
  ghost predicate Can(s: State, step: Step) {
    match step
    case AlarmStep(k, instance) => k < |s.pending| && (instance != 0 ==> instance !in s.live)
    case StopStep(instance, _) => s.CanStop(instance)
    case ReloadStep(active, loaded) => Rows(active, loaded) && forall w :: w in s.live ==> Among(loaded, s.live[w])
  }

  ghost function Do(s: State, step: Step): State
    requires Can(s, step)
  {
    match step
    case AlarmStep(k, instance) => s.Alarm(k, instance)
    case StopStep(instance, success) => s.Stop(instance, success)
    case ReloadStep(active, loaded) => s.Reload(active, loaded)
  }

  /** What makes a schedule leave: it cannot be instantiated, it is suspended by a failure, or it is not among the rows reloaded. */
  ghost predicate Leaves(s: State, step: Step, id: nat)
    requires Can(s, step)
  {
    match step
    case AlarmStep(k, instance) => instance == 0 && s.pending[k].id == id
    case StopStep(instance, success) =>
      s.live[instance] == id && id in s.executing && !success && !s.executing[id].schedule.continues
    case ReloadStep(_, loaded) => !Among(loaded, id)
  }

  ghost predicate Run(run: seq<State>, steps: seq<Step>) {
    && |run| == |steps| + 1
    && forall k :: 0 <= k < |steps| ==> Can(run[k], steps[k]) && run[k + 1] == Do(run[k], steps[k])
  }

  lemma StepKeepsValid(s: State, step: Step)
    requires s.Valid() && Can(s, step)
    ensures Do(s, step).Valid()
    ensures forall id :: s.Kept(id) ==> (Do(s, step).Kept(id) <==> !Leaves(s, step, id))
  {
    match step
    case AlarmStep(k, instance) => AlarmKeepsValid(s, k, instance);
    case StopStep(instance, success) => StopKeepsValid(s, instance, success);
    case ReloadStep(active, loaded) => ReloadKeepsValidIff(s, active, loaded);
  }

  /** In every run no schedule is in two places or has two instances, and none is lost without one of the three reasons. */
  lemma {:induction false} RunKeepsValid(run: seq<State>, steps: seq<Step>, k: nat, id: nat)
    requires Run(run, steps) && run[0].Valid() && k < |run|
    ensures run[k].Valid()
    ensures run[0].Kept(id) && (forall n :: 0 <= n < k ==> !Leaves(run[n], steps[n], id)) ==> run[k].Kept(id)
  {
    if k > 0 {
      RunKeepsValid(run, steps, k - 1, id);
      StepKeepsValid(run[k - 1], steps[k - 1]);
    }
  }

  lemma OneRow(s: State, before: map<nat, Running>, c: Schedule)
    ensures PutBack(s, before, [c]) == s.ScheduleWorkflow(c, if c.id in before then before[c.id].instance else 0)
  {
    assert [c][..0] == [];
    assert PutBack(s, before, [c][..0]) == s;
  }

  /** A schedule deactivated while its instance runs, and activated again before it ends, gets a second instance. */
  lemma ReactivatedWhileRunning(s: State, c: Schedule, first: nat, second: nat)
    requires s.Valid() && first in s.live && s.live[first] == c.id
    requires second != 0 && second !in s.live
    ensures var t := s.Reload({}, []).Reload({c.id}, [c]);
      t.pending == [c] && first in t.Alarm(0, second).live && second in t.Alarm(0, second).live
    ensures var t := s.Reload({}, []).Reload({c.id}, [c]);
      t.Alarm(0, second).live[first] == c.id && t.Alarm(0, second).live[second] == c.id
  {
    var u := s.Reload({}, []);
    OneRow(u.(ids := {c.id}, executing := map[], pending := []), u.executing, c);
    assert [] + [c] == [c];
  }

  /** Then the end of the first instance, while the schedule waits again, follows a null pointer. */
  lemma StopCrashesAfterReactivation(s: State, c: Schedule, first: nat)
    requires s.Valid() && first in s.live && s.live[first] == c.id
    ensures !s.Reload({}, []).Reload({c.id}, [c]).CanStop(first)
  {
    var u := s.Reload({}, []);
    OneRow(u.(ids := {c.id}, executing := map[], pending := []), u.executing, c);
  }

  lemma TakeOffKeepsValid(s: State, k: nat)
    requires s.Valid() && k < |s.pending|
    ensures s.TakeOff(k).Valid() && s.pending[k].id !in s.executing && !s.TakeOff(k).Waits(s.pending[k].id)
  {
    AlarmKeepsValid(s, k, 0);
    assert s.Alarm(k, 0) == s.TakeOff(k);
  }

  /**
   * A reload between an alarm and its registration keeps the table right exactly when the schedule
   * in hand is active but could not be loaded, so that it has not been put back to wait, and, as
   * in every reload, every schedule with a live instance is loaded.
   */
  lemma InterruptedAlarmValidIff(s: State, k: nat, instance: nat, active: set<nat>, loaded: seq<Schedule>)
    requires s.Valid() && k < |s.pending| && instance != 0 && instance !in s.live && Rows(active, loaded)
    ensures var c := s.pending[k];
      s.TakeOff(k).Reload(active, loaded).Register(c, instance).Valid()
      <==> c.id in active && !Among(loaded, c.id) && forall w :: w in s.live ==> Among(loaded, s.live[w])
  {
    var c, taken := s.pending[k], s.TakeOff(k);
    var t := taken.Reload(active, loaded);
    var u := t.Register(c, instance);
    TakeOffKeepsValid(s, k);
    PutBackRebuilds(taken, active, loaded);
    ReloadKeepsValidIff(taken, active, loaded);
    assert forall id :: u.Waits(id) <==> t.Waits(id) by {
      assert u.pending == t.pending;
    }
    if c.id in active && !Among(loaded, c.id) && forall w :: w in s.live ==> Among(loaded, s.live[w]) {
      RegisterKeepsValid(t, c, instance);
    } else if c.id !in active {
      assert u.live[instance] !in u.executing;
    } else if Among(loaded, c.id) {
      assert t.Waits(c.id) && c.id in u.executing;
    } else {
      var w :| w in s.live && !Among(loaded, s.live[w]);
      assert w in u.live && u.live[w] == s.live[w];
    }
  }

  lemma RegisterKeepsValid(t: State, c: Schedule, instance: nat)
    requires t.Valid() && c.id in t.ids && c.id !in t.executing && !t.Waits(c.id)
    requires instance != 0 && instance !in t.live
    ensures t.Register(c, instance).Valid()
  {
  }

  /** Whenever that reload has loaded the schedule in hand, it ends up waiting and executing, with a live instance. */
  lemma ReloadedDuringAlarm(s: State, k: nat, instance: nat, active: set<nat>, loaded: seq<Schedule>)
    requires s.Valid() && k < |s.pending| && instance != 0 && Rows(active, loaded) && Among(loaded, s.pending[k].id)
    ensures var c := s.pending[k];
      var t := s.TakeOff(k).Reload(active, loaded).Register(c, instance);
      t.Waits(c.id) && c.id in t.executing && t.executing[c.id].instance == instance && instance in t.live
  {
    var c, taken := s.pending[k], s.TakeOff(k);
    TakeOffKeepsValid(s, k);
    PutBackRebuilds(taken, active, loaded);
    var t := taken.Reload(active, loaded);
    assert t.Waits(c.id) && t.Register(c, instance).pending == t.pending;
  }
}
