/** The workflow scheduler as the program keeps it: parallel arrays over the sorted ids of the active schedules. */
module WorkflowSchedulers {
  import opened RetryPlan
  import opened ScheduleTable

  ghost predicate Increasing(ids: seq<nat>) {
    forall i, j :: 0 <= i < j < |ids| ==> ids[i] < ids[j]
  }

  /** lookup: binary search; the index, or -1 exactly when the id is not there. */
  method Lookup(ids: array<nat>, id: nat) returns (i: int)
    requires Increasing(ids[..])
    ensures if id in ids[..] then 0 <= i < ids.Length && ids[i] == id else i == -1
  {
    var begin, end := 0, ids.Length - 1;
    while begin <= end
      invariant 0 <= begin <= end + 1 <= ids.Length
      invariant forall k :: 0 <= k < ids.Length && (k < begin || k > end) ==> ids[k] != id
    {
      var middle := (end + begin) / 2;
      if ids[middle] == id {
        return middle;
      }
      assert forall k :: 0 <= k < middle ==> ids[..][k] < ids[..][middle];
      assert forall k :: middle < k < ids.Length ==> ids[..][middle] < ids[..][k];
      if ids[middle] < id {
        begin := middle + 1;
      } else {
        end := middle - 1;
      }
    }
    return -1;
  }

  /** The executing schedules by id, from the parallel sequences. */
  ghost function ByIdUpTo(ids: seq<nat>, instances: seq<nat>, schedules: seq<Option<Schedule>>): map<nat, Running>
    requires |ids| == |instances| == |schedules|
  {
    if ids == [] then map[]
    else
      var n := |ids| - 1;
      var before := ByIdUpTo(ids[..n], instances[..n], schedules[..n]);
      if schedules[n].Some? then before[ids[n] := Running(instances[n], schedules[n].value)] else before
  }

  lemma {:induction false} ByIdIs(ids: seq<nat>, instances: seq<nat>, schedules: seq<Option<Schedule>>, i: nat)
    requires |ids| == |instances| == |schedules| && Increasing(ids) && i < |ids|
    ensures ByIdUpTo(ids, instances, schedules).Keys <= (set id | id in ids)
    ensures ids[i] in ByIdUpTo(ids, instances, schedules) <==> schedules[i].Some?
    ensures schedules[i].Some? ==> ByIdUpTo(ids, instances, schedules)[ids[i]] == Running(instances[i], schedules[i].value)
  {
    var n := |ids| - 1;
    ByIdKeys(ids, instances, schedules);
    ByIdKeys(ids[..n], instances[..n], schedules[..n]);
    if i < n {
      ByIdIs(ids[..n], instances[..n], schedules[..n], i);
    } else {
      assert forall id :: id in ids[..n] ==> id < ids[n];
    }
  }

  lemma {:induction false} ByIdKeys(ids: seq<nat>, instances: seq<nat>, schedules: seq<Option<Schedule>>)
    requires |ids| == |instances| == |schedules|
    ensures forall id :: id in ByIdUpTo(ids, instances, schedules) ==> id in ids
  {
    if ids != [] {
      var n := |ids| - 1;
      ByIdKeys(ids[..n], instances[..n], schedules[..n]);
      assert forall id :: id in ids[..n] ==> id in ids;
    }
  }

  /** Writing one entry of the arrays changes one entry of the map. */
  lemma OneEntry(ids: seq<nat>, instances: seq<nat>, schedules: seq<Option<Schedule>>, i: nat, instance: nat, s: Option<Schedule>)
    requires |ids| == |instances| == |schedules| && Increasing(ids) && i < |ids|
    ensures var was := ByIdUpTo(ids, instances, schedules);
      ByIdUpTo(ids, instances[i := instance], schedules[i := s])
      == if s.Some? then was[ids[i] := Running(instance, s.value)] else was - {ids[i]}
  {
    var was, now := ByIdUpTo(ids, instances, schedules), ByIdUpTo(ids, instances[i := instance], schedules[i := s]);
    ByIdKeys(ids, instances, schedules);
    ByIdKeys(ids, instances[i := instance], schedules[i := s]);
    forall id | id in ids
      ensures id != ids[i] ==> (id in now <==> id in was) && (id in now ==> now[id] == was[id])
      ensures ids[i] in now <==> s.Some?
      ensures s.Some? ==> now[ids[i]] == Running(instance, s.value)
    {
      var k :| 0 <= k < |ids| && ids[k] == id;
      ByIdIs(ids, instances, schedules, k);
      ByIdIs(ids, instances[i := instance], schedules[i := s], k);
      ByIdIs(ids, instances[i := instance], schedules[i := s], i);
    }
    assert ids[i] in ids;
  }

  lemma {:induction false} NoEntry(ids: seq<nat>, instances: seq<nat>, schedules: seq<Option<Schedule>>)
    requires |ids| == |instances| == |schedules| && forall k :: 0 <= k < |ids| ==> schedules[k].None?
    ensures ByIdUpTo(ids, instances, schedules) == map[]
  {
    if ids != [] {
      var n := |ids| - 1;
      NoEntry(ids[..n], instances[..n], schedules[..n]);
    }
  }

  ghost function Elements(ids: seq<nat>): set<nat> {
    set id | id in ids
  }

  class WorkflowScheduler {
    var wfsIds: array<nat>
    var wfsWiIds: array<nat>
    var wfsExecutingInstances: array<Option<Schedule>>
    var pending: seq<Schedule>
    ghost var live: map<nat, nat>

    ghost predicate Shaped()
      reads this, wfsIds
    {
      wfsIds.Length == wfsWiIds.Length == wfsExecutingInstances.Length && wfsIds != wfsWiIds && Increasing(wfsIds[..])
    }

    ghost function Executing(): map<nat, Running>
      requires Shaped()
      reads this, wfsIds, wfsWiIds, wfsExecutingInstances
    {
      ByIdUpTo(wfsIds[..], wfsWiIds[..], wfsExecutingInstances[..])
    }

    ghost function State(): State
      requires Shaped()
      reads this, wfsIds, wfsWiIds, wfsExecutingInstances
    {
      ScheduleTable.State(Elements(wfsIds[..]), Executing(), pending, live)
    }

    /** init: arrays for the active ids, in order. */
    method Init(active: seq<nat>)
      requires Increasing(active)
      modifies `wfsIds, `wfsWiIds, `wfsExecutingInstances
      ensures Shaped() && fresh(wfsIds) && fresh(wfsWiIds) && fresh(wfsExecutingInstances)
      ensures wfsIds[..] == active && Executing() == map[]
    {
      wfsIds := new nat[|active|](i requires 0 <= i < |active| => active[i]);
      wfsWiIds := new nat[|active|](_ => 0);
      wfsExecutingInstances := new Option<Schedule>[|active|](_ => None);
      NoEntry(wfsIds[..], wfsWiIds[..], wfsExecutingInstances[..]);
    }

    /** Writes one entry of the two arrays. */
    method SetEntry(i: nat, instance: nat, s: Option<Schedule>)
      requires Shaped() && i < wfsIds.Length
      modifies wfsWiIds, wfsExecutingInstances
      ensures wfsIds[..] == old(wfsIds[..]) && Shaped()
      ensures Executing() == if s.Some? then old(Executing())[wfsIds[i] := Running(instance, s.value)] else old(Executing()) - {wfsIds[i]}
    {
      OneEntry(wfsIds[..], wfsWiIds[..], wfsExecutingInstances[..], i, instance, s);
      wfsWiIds[i] := instance;
      wfsExecutingInstances[i] := s;
      assert wfsWiIds[..] == old(wfsWiIds[..])[i := instance];
      assert wfsExecutingInstances[..] == old(wfsExecutingInstances[..])[i := s];
    }

    method ScheduleWorkflow(s: Schedule, instance: nat)
      requires Shaped()
      modifies `pending, wfsWiIds, wfsExecutingInstances
      ensures Shaped() && wfsIds[..] == old(wfsIds[..]) && State() == old(State()).ScheduleWorkflow(s, instance)
    {
      if instance == 0 {
        pending := pending + [s];
      } else {
        var i := Lookup(wfsIds, s.id);
        if i != -1 {
          SetEntry(i, instance, Some(s));
        }
      }
    }

    /**
     * ScheduledWorkflowInstanceStop for the schedule of an instance. It follows a null pointer, so
     * the program crashes, exactly when the schedule is known but has no executing entry.
     */
    method ScheduledWorkflowInstanceStop(id: nat, success: bool, ghost instance: nat) returns (crashed: bool)
      requires Shaped() && instance in live && live[instance] == id
      modifies `pending, `live, wfsWiIds, wfsExecutingInstances
      ensures Shaped() && (crashed <==> !old(State()).CanStop(instance))
      ensures !crashed ==> State() == old(State()).Stop(instance, success)
    {
      var i := Lookup(wfsIds, id);
      if i == -1 {
        live := live - {instance};
        return false;
      }
      ByIdIs(wfsIds[..], wfsWiIds[..], wfsExecutingInstances[..], i);
      var s := wfsExecutingInstances[i];
      if s.None? {
        return true;
      }
      live := live - {instance};
      SetEntry(i, 0, None);
      if success || s.value.continues {
        ScheduleWorkflow(s.value, 0);
      }
      return false;
    }

    /** event_removed for an alarm, up to the registration; no instance means that it could not be created. */
    method Alarm(k: nat, instance: nat)
      requires Shaped() && k < |pending|
      modifies `pending, `live, wfsWiIds, wfsExecutingInstances
      ensures Shaped() && State() == old(State()).Alarm(k, instance)
    {
      var s := pending[k];
      pending := pending[..k] + pending[k + 1..];
      if instance == 0 {
        return;
      }
      live := live[instance := s.id];
      var i := Lookup(wfsIds, s.id);
      if i != -1 {
        SetEntry(i, instance, Some(s));
      }
    }

    /** The instance that a schedule had in the old arrays, or 0. */
    method InstanceBefore(ids: array<nat>, instances: array<nat>, schedules: array<Option<Schedule>>, id: nat) returns (instance: nat)
      requires ids.Length == instances.Length == schedules.Length && Increasing(ids[..])
      ensures var before := ByIdUpTo(ids[..], instances[..], schedules[..]);
        instance == if id in before then before[id].instance else 0
    {
      var i := Lookup(ids, id);
      if i == -1 {
        ByIdKeys(ids[..], instances[..], schedules[..]);
        return 0;
      }
      ByIdIs(ids[..], instances[..], schedules[..], i);
      return if schedules[i].None? then 0 else instances[i];
    }

    /** Reload: the old arrays are kept while the new ones are filled from the rows. */
    method Reload(active: seq<nat>, loaded: seq<Schedule>)
      requires Shaped() && Increasing(active)
      modifies this
      ensures Shaped() && State() == old(State()).Reload(Elements(active), loaded)
    {
      pending := [];
      var backupIds, backupWiIds, backupExecuting := wfsIds, wfsWiIds, wfsExecutingInstances;
      Init(active);
      ghost var empty := old(State()).(ids := Elements(active), executing := map[], pending := []);
      for n := 0 to |loaded|
        invariant Shaped() && wfsIds[..] == active && live == old(live)
        invariant fresh(wfsIds) && fresh(wfsWiIds) && fresh(wfsExecutingInstances)
        invariant State() == PutBack(empty, old(Executing()), loaded[..n])
      {
        var instance := InstanceBefore(backupIds, backupWiIds, backupExecuting, loaded[n].id);
        ScheduleWorkflow(loaded[n], instance);
        assert loaded[..n + 1][..n] == loaded[..n];
      }
      assert loaded[..|loaded|] == loaded;
    }
  }
}
