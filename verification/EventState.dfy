/** The scheduler's list of timed events as a value, and what happens to events over a whole run. */
module EventState {
  import opened Subsequences

  /** An event of some workflow instance; the id tells events apart. */
  datatype Event = Event(at: int, instance: int, id: nat)

  ghost predicate Sorted(s: seq<Event>) {
    forall i, j :: 0 <= i < j < |s| ==> s[i].at <= s[j].at
  }

  /** InsertEvent: behind every event that is not later. */
  function Insert(s: seq<Event>, e: Event): (r: seq<Event>)
    ensures |r| == |s| + 1
  {
    if s == [] || e.at < s[0].at then [e] + s else [s[0]] + Insert(s[1..], e)
  }

  /** The events a flush takes out, and those it leaves. */
  function Removed(s: seq<Event>, filter: bool, instance: int): seq<Event> {
    if s == [] then []
    else
      var last := s[|s| - 1];
      Removed(s[..|s| - 1], filter, instance) + if Matches(last, filter, instance) then [last] else []
  }

  function Left(s: seq<Event>, filter: bool, instance: int): seq<Event> {
    if s == [] then []
    else
      var last := s[|s| - 1];
      Left(s[..|s| - 1], filter, instance) + if Matches(last, filter, instance) then [] else [last]
  }

  predicate Matches(e: Event, filter: bool, instance: int) {
    !filter || e.instance == instance
  }

  /** The new event goes between those not later and those later, so equal times keep the order of insertion. */
  lemma {:induction false} InsertSplits(s: seq<Event>, e: Event) returns (k: nat)
    requires Sorted(s)
    ensures k <= |s| && Insert(s, e) == s[..k] + [e] + s[k..]
    ensures forall i :: 0 <= i < |s| ==> (s[i].at <= e.at <==> i < k)
  {
    if s == [] || e.at < s[0].at {
      k := 0;
      assert Insert(s, e) == [e] + s == s[..0] + [e] + s[0..];
    } else {
      var rest := s[1..];
      var l := InsertSplits(rest, e);
      k := l + 1;
      assert s[..k] == [s[0]] + rest[..l] && s[k..] == rest[l..];
      forall i | 0 < i < |s| ensures s[i].at <= e.at <==> i < k {
        assert s[i] == rest[i - 1];
      }
    }
  }

  lemma InsertKeepsSorted(s: seq<Event>, e: Event)
    requires Sorted(s)
    ensures Sorted(Insert(s, e)) && multiset(Insert(s, e)) == multiset(s) + multiset{e}
  {
    var k := InsertSplits(s, e);
    SortedJoin(s[..k], e, s[k..]);
    InsertAdds(s, e);
  }

  lemma SortedJoin(a: seq<Event>, e: Event, b: seq<Event>)
    requires Sorted(a) && Sorted(b)
    requires forall i :: 0 <= i < |a| ==> a[i].at <= e.at
    requires forall i :: 0 <= i < |b| ==> e.at <= b[i].at
    ensures Sorted(a + [e] + b)
  {
    var r := a + [e] + b;
    forall i, j | 0 <= i < j < |r| ensures r[i].at <= r[j].at {
      assert r[i].at <= e.at || i > |a|;
      assert e.at <= r[j].at || j < |a|;
    }
  }

  lemma {:induction false} InsertAdds(s: seq<Event>, e: Event)
    ensures multiset(Insert(s, e)) == multiset(s) + multiset{e}
  {
    if s != [] && e.at >= s[0].at {
      InsertAdds(s[1..], e);
      assert s == [s[0]] + s[1..];
    }
  }

  /** A flush removes every event, or with a filter exactly those of the instance. */
  lemma {:induction false} FlushRemovesMatching(s: seq<Event>, filter: bool, instance: int, e: Event)
    ensures e in Removed(s, filter, instance) <==> e in s && (!filter || e.instance == instance)
    ensures e in Left(s, filter, instance) <==> e in s && filter && e.instance != instance
  {
    if s != [] {
      FlushRemovesMatching(s[..|s| - 1], filter, instance, e);
      assert s == s[..|s| - 1] + [s[|s| - 1]];
    }
  }

  /** It loses nothing. */
  lemma {:induction false} FlushConserves(s: seq<Event>, filter: bool, instance: int)
    ensures multiset(s) == multiset(Removed(s, filter, instance)) + multiset(Left(s, filter, instance))
  {
    if s != [] {
      var init, last := s[..|s| - 1], s[|s| - 1];
      var removed, left := Removed(init, filter, instance), Left(init, filter, instance);
      FlushConserves(init, filter, instance);
      assert s == init + [last];
      if Matches(last, filter, instance) {
        assert Removed(s, filter, instance) == removed + [last] && Left(s, filter, instance) == left;
      } else {
        assert Removed(s, filter, instance) == removed && Left(s, filter, instance) == left + [last];
      }
    }
  }

  /** It leaves the others in order. */
  lemma FlushKeepsOrder(s: seq<Event>, filter: bool, instance: int)
    ensures IsSubsequence(Left(s, filter, instance), s)
    ensures Sorted(s) ==> Sorted(Left(s, filter, instance))
  {
    LeftIsSubsequence(s, filter, instance);
    if Sorted(s) {
      LeftIsSorted(s, filter, instance);
    }
  }

  lemma {:induction false} LeftIsSubsequence(s: seq<Event>, filter: bool, instance: int)
    ensures IsSubsequence(Left(s, filter, instance), s)
  {
    if s != [] {
      var init, last := s[..|s| - 1], s[|s| - 1];
      LeftIsSubsequence(init, filter, instance);
      var left := Left(init, filter, instance);
      if Matches(last, filter, instance) {
        assert Left(s, filter, instance) == left;
      } else {
        assert Left(s, filter, instance) == left + [last] && (left + [last])[..|left|] == left;
      }
    }
  }

  lemma {:induction false} LeftIsSorted(s: seq<Event>, filter: bool, instance: int)
    requires Sorted(s)
    ensures Sorted(Left(s, filter, instance))
  {
    if s != [] {
      var init, last := s[..|s| - 1], s[|s| - 1];
      LeftIsSorted(init, filter, instance);
      var left := Left(init, filter, instance);
      forall i | 0 <= i < |left| ensures left[i].at <= last.at {
        FlushRemovesMatching(init, filter, instance, left[i]);
        var k :| 0 <= k < |init| && init[k] == left[i];
        assert s[k] == left[i];
      }
    }
  }

  /** A step of a run of the list. */
  datatype Step = InsertStep(e: Event) | ShiftStep(now: int) | FlushStep(filter: bool, instance: int)

  /** The list, and the history: every event inserted, every event delivered. */
  datatype History = History(list: seq<Event>, inserted: multiset<Event>, delivered: multiset<Event>)

  function Do(h: History, step: Step): History {
    match step
    case InsertStep(e) => h.(list := Insert(h.list, e), inserted := h.inserted + multiset{e})
    case ShiftStep(now) =>
      if h.list != [] && h.list[0].at <= now
      then h.(list := h.list[1..], delivered := h.delivered + multiset{h.list[0]})
      else h
    case FlushStep(filter, instance) =>
      h.(list := Left(h.list, filter, instance), delivered := h.delivered + multiset(Removed(h.list, filter, instance)))
  }

  function DoAll(h: History, steps: seq<Step>): History {
    if steps == [] then h else Do(DoAll(h, steps[..|steps| - 1]), steps[|steps| - 1])
  }

  /** An event is pending from its insertion until its one delivery, and the list is sorted. */
  ghost predicate Accounted(h: History) {
    Sorted(h.list) && h.inserted == multiset(h.list) + h.delivered
  }

  lemma InsertAccounts(h: History, e: Event)
    requires Accounted(h)
    ensures Accounted(Do(h, InsertStep(e)))
  {
    InsertKeepsSorted(h.list, e);
  }

  lemma ShiftAccounts(h: History, now: int)
    requires Accounted(h)
    ensures Accounted(Do(h, ShiftStep(now)))
  {
    if h.list != [] {
      assert h.list == [h.list[0]] + h.list[1..];
    }
  }

  lemma FlushAccounts(h: History, filter: bool, instance: int)
    requires Accounted(h)
    ensures Accounted(Do(h, FlushStep(filter, instance)))
  {
    FlushKeepsOrder(h.list, filter, instance);
    FlushConserves(h.list, filter, instance);
  }

  lemma StepAccounts(h: History, step: Step)
    requires Accounted(h)
    ensures Accounted(Do(h, step))
  {
    match step
    case InsertStep(e) => InsertAccounts(h, e);
    case ShiftStep(now) => ShiftAccounts(h, now);
    case FlushStep(filter, instance) => FlushAccounts(h, filter, instance);
  }

  /** An alarm delivers an event only when its time has come, and whenever the earliest one's has. */
  lemma AlarmIsNotEarly(h: History, now: int, e: Event)
    requires Accounted(h)
    ensures Do(h, ShiftStep(now)).delivered[e] > h.delivered[e] ==> e.at <= now && forall f :: f in h.list ==> e.at <= f.at
    ensures Do(h, ShiftStep(now)) == h <==> forall f :: f in h.list ==> f.at > now
  {
    if h.list != [] {
      assert h.list[0] in h.list;
      assert |h.list[1..]| < |h.list|;
    }
  }

  /** In every run from an empty list, no event is delivered more often than it was inserted, and none is lost. */
  lemma {:induction false} DeliveredOnce(steps: seq<Step>, e: Event)
    ensures var h := DoAll(History([], multiset{}, multiset{}), steps);
      Accounted(h) && h.delivered[e] <= h.inserted[e] && (e in h.list <==> h.delivered[e] < h.inserted[e])
  {
    var none := History([], multiset{}, multiset{});
    if steps != [] {
      DeliveredOnce(steps[..|steps| - 1], e);
      StepAccounts(DoAll(none, steps[..|steps| - 1]), steps[|steps| - 1]);
    }
    var h := DoAll(none, steps);
    assert multiset(h.list)[e] > 0 <==> e in h.list;
  }
}
