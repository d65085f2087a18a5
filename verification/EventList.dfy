/** The scheduler's list of events as it is: linked nodes in order of time. */
module EventLists {
  import Spec = EventState
  import opened EventState

  class Node {
    const event: Event
    var next: Node?

    constructor (event: Event)
      ensures this.event == event && next == null
    {
      this.event := event;
      next := null;
    }
  }

  ghost function Events(nodes: seq<Node>): (es: seq<Event>)
    ensures |es| == |nodes| && forall i :: 0 <= i < |nodes| ==> es[i] == nodes[i].event
  {
    seq(|nodes|, i requires 0 <= i < |nodes| => nodes[i].event)
  }

  ghost function Next(nodes: seq<Node>, i: nat, end: Node?): Node?
    requires i < |nodes|
  {
    if i + 1 < |nodes| then nodes[i + 1] else end
  }

  /** Following next from `first` visits these nodes, each once, and arrives at `end`. */
  ghost predicate Chain(first: Node?, nodes: seq<Node>, end: Node?)
    reads nodes
  {
    && first == (if nodes == [] then end else nodes[0])
    && (forall i {:trigger nodes[i].next} :: 0 <= i < |nodes| ==> nodes[i].next == Next(nodes, i, end))
  }

  ghost predicate Distinct(nodes: seq<Node>) {
    forall i, j :: 0 <= i < j < |nodes| ==> nodes[i] != nodes[j]
  }

  lemma ChainTail(first: Node?, nodes: seq<Node>, end: Node?)
    requires nodes != [] && Chain(first, nodes, end)
    ensures Chain(nodes[0].next, nodes[1..], end) && Events(nodes[1..]) == Events(nodes)[1..]
  {
    assert forall i {:trigger nodes[1..][i].next} :: 0 <= i < |nodes[1..]| ==> nodes[1..][i].next == nodes[i + 1].next;
  }

  /** Where InsertEvent stops is where the specification inserts. */
  lemma {:induction false} InsertBehind(s: seq<Event>, k: nat, e: Event)
    requires k < |s| && (k + 1 < |s| ==> e.at < s[k + 1].at)
    requires forall i :: 0 <= i <= k ==> e.at >= s[i].at
    ensures Insert(s, e) == s[..k + 1] + [e] + s[k + 1..]
  {
    if k == 0 {
      assert Insert(s, e) == [s[0]] + Insert(s[1..], e);
      assert Insert(s[1..], e) == [e] + s[1..];
      assert s[..1] == [s[0]];
    } else {
      InsertBehind(s[1..], k - 1, e);
      assert s[..k + 1] == [s[0]] + s[1..][..k] && s[k + 1..] == s[1..][k..];
    }
  }

  class EventList {
    var firstEvent: Node?
    var numberOfEvents: int
    ghost var nodes: seq<Node>

    ghost predicate Valid()
      reads this, nodes
    {
      Chain(firstEvent, nodes, null) && Distinct(nodes) && numberOfEvents == |nodes|
    }

    ghost function Contents(): seq<Event>
      reads `nodes
    {
      Events(nodes)
    }

    constructor ()
      ensures Valid() && Contents() == [] && nodes == []
    {
      firstEvent, numberOfEvents := null, 0;
      nodes := [];
    }

    /** InsertEvent: whether the sleeping thread is woken, as the first event has changed. */
    method InsertEvent(n: Node) returns (wakeUp: bool)
      requires Valid() && n !in nodes && Spec.Sorted(Contents())
      modifies this, nodes, n
      ensures Valid() && Contents() == Insert(old(Contents()), n.event)
      ensures multiset(nodes) == multiset(old(nodes)) + multiset{n}
      ensures wakeUp <==> old(nodes) != [] && nodes[0] == n
    {
      wakeUp := false;
      if firstEvent == null {
        n.next := null;
        firstEvent := n;
        numberOfEvents := 0;
        nodes := [n];
        assert Contents() == [n.event];
      } else if n.event.at < firstEvent.event.at {
        n.next := firstEvent;
        firstEvent := n;
        wakeUp := true;
        nodes := [n] + nodes;
        assert Contents() == [n.event] + old(Contents());
      } else {
        InsertInside(n);
      }
      numberOfEvents := numberOfEvents + 1;
    }

    /** The search for the place of an event that is not before the first. */
    method InsertInside(n: Node)
      requires Chain(firstEvent, nodes, null) && Distinct(nodes) && n !in nodes && Spec.Sorted(Contents())
      requires nodes != [] && n.event.at >= nodes[0].event.at
      modifies `nodes, nodes, n
      ensures Chain(firstEvent, nodes, null) && Distinct(nodes) && |nodes| == |old(nodes)| + 1 && nodes[0] == old(nodes)[0]
      ensures Contents() == Insert(old(Contents()), n.event)
      ensures multiset(nodes) == multiset(old(nodes)) + multiset{n}
    {
      var curr;
      ghost var k;
      curr, k := FindPlace(n);
      LinkBehind(curr, n, k);
      assert Contents() == old(Contents())[..k + 1] + [n.event] + old(Contents())[k + 1..];
    }

    /** The last event that is not later than a new one. */
    method FindPlace(n: Node) returns (curr: Node, ghost k: nat)
      requires Chain(firstEvent, nodes, null) && nodes != [] && Spec.Sorted(Contents()) && n.event.at >= nodes[0].event.at
      ensures k < |nodes| && curr == nodes[k] && curr.event.at <= n.event.at
      ensures curr.next == null || n.event.at < curr.next.event.at
      ensures Insert(Contents(), n.event) == Contents()[..k + 1] + [n.event] + Contents()[k + 1..]
    {
      curr, k := firstEvent, 0;
      while curr.next != null && n.event.at >= curr.next.event.at
        invariant 0 <= k < |nodes| && curr == nodes[k]
        invariant forall i :: 0 <= i <= k ==> n.event.at >= nodes[i].event.at
        decreases |nodes| - k
      {
        curr := curr.next;
        k := k + 1;
      }
      InsertBehind(Contents(), k, n.event);
    }

    method LinkBehind(curr: Node, n: Node, ghost k: nat)
      requires Chain(firstEvent, nodes, null) && Distinct(nodes) && n !in nodes
      requires k < |nodes| && curr == nodes[k]
      modifies `nodes, curr, n
      ensures Chain(firstEvent, nodes, null) && Distinct(nodes)
      ensures nodes == old(nodes)[..k + 1] + [n] + old(nodes)[k + 1..]
      ensures multiset(nodes) == multiset(old(nodes)) + multiset{n}
    {
      n.next := curr.next;
      curr.next := n;
      ghost var front, back := nodes[..k + 1], nodes[k + 1..];
      assert nodes == front + back;
      nodes := front + [n] + back;
      assert forall i :: 0 <= i <= k ==> nodes[i] == old(nodes)[i];
      assert forall i :: k + 1 < i < |nodes| ==> nodes[i] == old(nodes)[i - 1];
    }

    /** While flushing: the events kept so far, then those not yet looked at. */
    ghost predicate Split(kept: seq<Node>, rest: seq<Node>, event: Node?)
      reads `firstEvent, kept, rest
    {
      Chain(firstEvent, kept, event) && Chain(event, rest, null) && Distinct(kept + rest)
    }

    /** Takes an event out of the list, behind prev. */
    method Unlink(prev: Node?, event: Node, ghost kept: seq<Node>, ghost rest: seq<Node>)
      requires Split(kept, rest, event) && rest != []
      requires prev == if kept == [] then null else kept[|kept| - 1]
      modifies `firstEvent, prev
      ensures Split(kept, rest[1..], event.next) && event.next == old(event.next)
    {
      ChainTail(event, rest, null);
      DistinctParts(kept, rest);
      if prev == null {
        firstEvent := event.next;
      } else {
        prev.next := event.next;
      }
    }

    /** Leaves an event in the list and moves past it. */
    lemma Keep(event: Node, kept: seq<Node>, rest: seq<Node>)
      requires Split(kept, rest, event) && rest != []
      ensures Split(kept + [event], rest[1..], event.next)
    {
      ChainTail(event, rest, null);
      assert kept + [event] + rest[1..] == kept + rest;
    }

    /** One turn of the loop of Flush. */
    method FlushStep(filter: bool, instance: int, prev: Node?, event: Node, ghost kept: seq<Node>, ghost rest: seq<Node>)
      returns (prev': Node?, hit: bool, ghost kept': seq<Node>)
      requires Flushing(rest, kept, prev, event)
      modifies `firstEvent, `numberOfEvents, prev
      ensures rest != [] && rest[0] == event && (prev' == prev || prev' == event)
      ensures Flushing(rest[1..], kept', prev', old(event.next)) && hit == Matches(event.event, filter, instance)
      ensures kept' == if hit then kept else kept + [event]
    {
      hit := Matches(event.event, filter, instance);
      if hit {
        Unlink(prev, event, kept, rest);
        numberOfEvents := numberOfEvents - 1;
        prev', kept' := prev, kept;
      } else {
        Keep(event, kept, rest);
        prev', kept' := event, kept + [event];
      }
    }

    /** The loop of Flush: the list is what it has kept and what it has not yet looked at. */
    ghost predicate Flushing(rest: seq<Node>, kept: seq<Node>, prev: Node?, event: Node?)
      reads `firstEvent, `numberOfEvents, kept, rest
    {
      && Split(kept, rest, event) && numberOfEvents == |kept| + |rest|
      && prev == (if kept == [] then null else kept[|kept| - 1])
    }

    /** Flush: takes out the matching events, each handed to event_removed in turn. */
    method Flush(filter: bool, instance: int) returns (removed: seq<Event>, wakeUp: bool)
      requires Valid()
      modifies this, nodes
      ensures Valid() && Contents() == Left(old(Contents()), filter, instance)
      ensures removed == Removed(old(Contents()), filter, instance)
      ensures wakeUp <==> old(Contents()) != [] && Matches(old(Contents())[0], filter, instance)
    {
      if numberOfEvents == 0 {
        return [], false;
      }
      removed, wakeUp := FlushAll(filter, instance);
    }

    method FlushAll(filter: bool, instance: int) returns (removed: seq<Event>, wakeUp: bool)
      requires Valid() && nodes != []
      modifies this, nodes
      ensures Valid() && Parted(old(nodes), nodes, removed, wakeUp, filter, instance)
    {
      removed, wakeUp := [], false;
      ghost var all, kept: seq<Node>, done := nodes, [], 0;
      var prev: Node?, event := null, firstEvent;
      assert all[0..] == all;
      FlushStarts();
      while event != null
        invariant 0 <= done <= |all| && Flushing(all[done..], kept, prev, event)
        invariant Parted(all[..done], kept, removed, wakeUp, filter, instance)
        invariant prev == null || prev in all
        invariant event == null ==> done == |all|
        decreases |all| - done
      {
        var next := event.next;
        prev, removed, wakeUp, kept := FlushTurn(prev, event, removed, wakeUp, filter, instance, all, done, kept);
        done := done + 1;
        event := next;
      }
      assert all[..done] == all && all[done..] == [];
      FlushEnds(kept, prev);
    }

    lemma FlushStarts()
      requires Valid()
      ensures Flushing(nodes, [], null, firstEvent) && forall filter, instance :: Parted([], [], [], false, filter, instance)
    {
      assert [] + nodes == nodes;
    }

    ghost method FlushEnds(kept: seq<Node>, prev: Node?)
      requires Flushing([], kept, prev, null)
      modifies `nodes
      ensures Valid() && nodes == kept
    {
      assert kept + [] == kept;
      nodes := kept;
    }

    method FlushTurn(prev: Node?, event: Node, removed: seq<Event>, wakeUp: bool, filter: bool, instance: int,
                     ghost all: seq<Node>, ghost done: nat, ghost kept: seq<Node>)
      returns (prev': Node?, removed': seq<Event>, wakeUp': bool, ghost kept': seq<Node>)
      requires done <= |all| && Flushing(all[done..], kept, prev, event)
      requires Parted(all[..done], kept, removed, wakeUp, filter, instance)
      modifies `firstEvent, `numberOfEvents, prev
      ensures done < |all| && Flushing(all[done + 1..], kept', prev', old(event.next))
      ensures Parted(all[..done + 1], kept', removed', wakeUp', filter, instance)
      ensures (prev' == null || prev' == prev || prev' in all) && (old(event.next) == null ==> done + 1 == |all|)
    {
      assert done < |all| && event == all[done];
      PartedStep(all, done, kept, removed, wakeUp, filter, instance);
      var hit;
      prev', hit, kept' := FlushStep(filter, instance, prev, event, kept, all[done..]);
      if hit {
        removed', wakeUp' := removed + [event.event], wakeUp || prev == null;
      } else {
        removed', wakeUp' := removed, wakeUp;
      }
    }

    /** shift_event: the first event, if its time has come. */
    method ShiftEvent(currTime: int) returns (event: Node?)
      requires Valid()
      modifies this
      ensures Valid()
      ensures if old(Contents()) != [] && old(Contents())[0].at <= currTime
              then event != null && event.event == old(Contents())[0] && Contents() == old(Contents())[1..]
              else event == null && Contents() == old(Contents())
    {
      if firstEvent != null && firstEvent.event.at <= currTime {
        event := firstEvent;
        ChainTail(firstEvent, nodes, null);
        firstEvent := firstEvent.next;
        numberOfEvents := numberOfEvents - 1;
        nodes := nodes[1..];
        return;
      }
      return null;
    }
  }

  lemma DistinctParts(kept: seq<Node>, rest: seq<Node>)
    requires Distinct(kept + rest) && rest != []
    ensures Distinct(kept + rest[1..]) && Distinct(kept) && Distinct(rest[1..])
    ensures forall i, j :: 0 <= i < |kept| && 0 <= j < |rest| ==> kept[i] != rest[j]
  {
    var both, less := kept + rest, kept + rest[1..];
    forall i, j | 0 <= i < j < |less| ensures less[i] != less[j] {
      assert less[i] == both[if i < |kept| then i else i + 1];
      assert less[j] == both[if j < |kept| then j else j + 1];
    }
    forall i, j | 0 <= i < |kept| && 0 <= j < |rest| ensures kept[i] != rest[j] {
      assert both[i] == kept[i] && both[|kept| + j] == rest[j];
    }
    forall i, j | 0 <= i < j < |kept| ensures kept[i] != kept[j] {
      assert both[i] == kept[i] && both[j] == kept[j];
    }
    forall i, j | 0 <= i < j < |rest[1..]| ensures rest[1..][i] != rest[1..][j] {
      assert both[|kept| + 1 + i] == rest[1..][i] && both[|kept| + 1 + j] == rest[1..][j];
    }
  }

  /** What a flush has made of the first events; the thread is woken if the very first one goes. */
  ghost predicate Parted(front: seq<Node>, kept: seq<Node>, removed: seq<Event>, wakeUp: bool, filter: bool, instance: int) {
    && Events(kept) == Left(Events(front), filter, instance) && removed == Removed(Events(front), filter, instance)
    && (wakeUp <==> front != [] && Matches(front[0].event, filter, instance))
    && (kept == [] ==> front == [] || wakeUp)
  }

  lemma PartedStep(all: seq<Node>, done: nat, kept: seq<Node>, removed: seq<Event>, wakeUp: bool,
                   filter: bool, instance: int)
    requires done < |all| && Parted(all[..done], kept, removed, wakeUp, filter, instance)
    ensures all[done..] != [] && all[done..][0] == all[done] && all[done..][1..] == all[done + 1..]
    ensures if Matches(all[done].event, filter, instance)
            then Parted(all[..done + 1], kept, removed + [all[done].event], wakeUp || kept == [], filter, instance)
            else Parted(all[..done + 1], kept + [all[done]], removed, wakeUp, filter, instance)
  {
    assert Events(all[..done + 1])[..done] == Events(all[..done]);
    assert Events(kept + [all[done]]) == Events(kept) + [all[done].event];
    assert removed + [] == removed && Events(kept) + [] == Events(kept);
    assert |Events(kept)| == |kept|;
    if done > 0 {
      assert all[..done + 1][0] == all[..done][0];
    }
  }
}
