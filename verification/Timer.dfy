/**
 * The timer thread around the list of events. Reaching get_sleep_time with an event that is due
 * would leave the mutex locked and hang the thread; whether that can happen depends on how
 * events are inserted.
 */
module Timer {
  import opened EventState

  /** Where the thread is: before reading the clock, delivering due events, deciding whether to sleep, asleep, gone, or hung. */
  datatype Phase = Reading | Shifting | Deciding | Sleeping | Gone | Hung

  /** `readings` are the clock readings that clients have taken and not yet used for an insertion. */
  datatype State = State(clock: int, currTime: int, phase: Phase, list: seq<Event>, readings: set<int>) {

    /** A client has computed when an event is due, from a reading of the clock and a positive delay. */
    predicate CanInsert(e: Event, reading: int, delay: int) {
      reading in readings && delay > 0 && e.at == reading + delay
    }

    /** InsertEvent; into an empty list it starts the thread. */
    function InsertEvent(e: Event): State {
      this.(list := Insert(list, e), phase := if list == [] && phase.Gone? then Reading else phase)
    }

    /** One turn of delivering: shift_event with the time read before. */
    function Shift(): State {
      if list != [] && list[0].at <= currTime then this.(list := list[1..]) else this.(phase := Deciding)
    }

    function SleepTime(): int
      requires list != []
    {
      list[0].at - currTime
    }

    function Decide(): State {
      if list == [] then this.(phase := Gone)
      else if SleepTime() > 0 then this.(phase := Sleeping)
      else this.(phase := Hung)
    }
  }

  datatype Step =
    | Tick(seconds: nat)
    | ReadStep
    | InsertStep(e: Event, reading: int, delay: int)
    | FlushStep(filter: bool, instance: int)
    | ClockStep
    | ShiftStep
    | DecideStep
    | WakeStep

  predicate Can(s: State, step: Step) {
    match step
    case InsertStep(e, reading, delay) => s.CanInsert(e, reading, delay)
    case ClockStep => s.phase.Reading?
    case ShiftStep => s.phase.Shifting?
    case DecideStep => s.phase.Deciding?
    case WakeStep => s.phase.Sleeping?
    case _ => true
  }

  function Do(s: State, step: Step): State {
    match step
    case Tick(seconds) => s.(clock := s.clock + seconds)
    case ReadStep => s.(readings := s.readings + {s.clock})
    case InsertStep(e, reading, delay) => s.InsertEvent(e).(readings := s.readings - {reading})
    case FlushStep(filter, instance) => s.(list := Left(s.list, filter, instance))
    case ClockStep => s.(currTime := s.clock, phase := Shifting)
    case ShiftStep => s.Shift()
    case DecideStep => s.Decide()
    case WakeStep => s.(phase := Reading)
  }

  /** No event is inserted that is already due while the thread decides. */
  predicate NotDue(s: State, step: Step) {
    step.InsertStep? && s.phase.Deciding? ==> step.e.at > s.currTime
  }

  /** The clock has been read and the event inserted in one step. */
  predicate AtOnce(s: State, step: Step) {
    step.InsertStep? ==> step.reading == s.clock
  }

  /** While the thread decides whether to sleep, no event is due by the time it read. */
  ghost predicate NoneDue(s: State) {
    && Sorted(s.list) && s.currTime <= s.clock && !s.phase.Hung?
    && (s.phase.Deciding? ==> forall e :: e in s.list ==> e.at > s.currTime)
  }

  /** Reading the clock and inserting at once is enough. */
  lemma AtOnceIsNotDue(s: State, step: Step)
    requires NoneDue(s) && Can(s, step) && AtOnce(s, step)
    ensures NotDue(s, step)
  {
  }

  lemma InsertHolds(s: seq<Event>, e: Event, f: Event)
    requires Sorted(s)
    ensures f in Insert(s, e) <==> f in s || f == e
    ensures Sorted(Insert(s, e))
  {
    InsertKeepsSorted(s, e);
    assert f in Insert(s, e) <==> f in multiset(Insert(s, e));
  }

  lemma StepNoneDue(s: State, step: Step)
    requires NoneDue(s) && Can(s, step) && NotDue(s, step)
    ensures NoneDue(Do(s, step))
  {
    match step
    case InsertStep(e, _, _) =>
      InsertHolds(s.list, e, e);
      forall f | f in Insert(s.list, e) ensures f in s.list || f == e {
        InsertHolds(s.list, e, f);
      }
    case FlushStep(filter, instance) =>
      FlushKeepsOrder(s.list, filter, instance);
      forall e | e in Left(s.list, filter, instance) ensures e in s.list {
        FlushRemovesMatching(s.list, filter, instance, e);
      }
    case DecideStep =>
      if s.list != [] { assert s.list[0] in s.list; }
    case _ =>
  }

  ghost predicate Run(run: seq<State>, steps: seq<Step>) {
    && |run| == |steps| + 1
    && forall k :: 0 <= k < |steps| ==> Can(run[k], steps[k]) && run[k + 1] == Do(run[k], steps[k])
  }

  /** If no event is inserted already due while the thread decides, it only ever sleeps for a positive time, and never hangs. */
  lemma {:induction false} NeverHangs(run: seq<State>, steps: seq<Step>, k: nat)
    requires Run(run, steps) && NoneDue(run[0]) && k < |run|
    requires forall n :: 0 <= n < |steps| ==> NotDue(run[n], steps[n])
    ensures !run[k].phase.Hung?
    ensures run[k].phase.Deciding? && run[k].list != [] ==> run[k].SleepTime() > 0
    ensures NoneDue(run[k])
  {
    if k > 0 {
      NeverHangs(run, steps, k - 1);
      StepNoneDue(run[k - 1], steps[k - 1]);
    }
    if run[k].list != [] {
      assert run[k].list[0] in run[k].list;
    }
  }

  /** So with every clock reading and its insertion in one step. */
  lemma {:induction false} NeverHangsAtOnce(run: seq<State>, steps: seq<Step>, k: nat)
    requires Run(run, steps) && NoneDue(run[0]) && k < |run|
    requires forall n :: 0 <= n < |steps| ==> AtOnce(run[n], steps[n])
    ensures NoneDue(run[k])
  {
    if k > 0 {
      NeverHangsAtOnce(run, steps, k - 1);
      AtOnceIsNotDue(run[k - 1], steps[k - 1]);
      StepNoneDue(run[k - 1], steps[k - 1]);
    }
  }

  /** Between steps k and l the thread makes no decision and no flush takes the event. */
  predicate Quiet(steps: seq<Step>, k: int, l: int, e: Event)
    requires 0 <= k && l <= |steps|
  {
    forall n :: k < n < l ==> steps[n] != DecideStep && !(steps[n].FlushStep? && Matches(e, steps[n].filter, steps[n].instance))
  }

  /** At step k an event already due is inserted while the thread decides; it decides at step l, with the event still there. */
  ghost predicate HangsAt(run: seq<State>, steps: seq<Step>, k: nat, l: nat)
    requires k < l < |steps| < |run|
  {
    && steps[k].InsertStep? && run[k].phase.Deciding? && steps[k].e.at <= run[k].currTime
    && steps[l] == DecideStep && Quiet(steps, k, l, steps[k].e)
  }

  lemma StepSorted(s: State, step: Step)
    requires Sorted(s.list) && Can(s, step)
    ensures Sorted(Do(s, step).list)
  {
    match step
    case InsertStep(e, _, _) => InsertKeepsSorted(s.list, e);
    case FlushStep(filter, instance) => FlushKeepsOrder(s.list, filter, instance);
    case _ =>
  }

  lemma {:induction false} RunSorted(run: seq<State>, steps: seq<Step>, k: nat)
    requires Run(run, steps) && Sorted(run[0].list) && k < |run|
    ensures Sorted(run[k].list)
  {
    if k > 0 {
      RunSorted(run, steps, k - 1);
      StepSorted(run[k - 1], steps[k - 1]);
    }
  }

  /** An event in the list stays there while the thread decides, but for a flush of it. */
  lemma StaysDue(s: State, step: Step, e: Event)
    requires s.phase.Deciding? && Sorted(s.list) && Can(s, step) && step != DecideStep
    requires e in s.list && !(step.FlushStep? && Matches(e, step.filter, step.instance))
    ensures Do(s, step).phase.Deciding? && Do(s, step).currTime == s.currTime && e in Do(s, step).list
  {
    match step
    case InsertStep(f, _, _) => InsertHolds(s.list, f, e);
    case FlushStep(filter, instance) => FlushRemovesMatching(s.list, filter, instance, e);
    case _ =>
  }

  lemma {:induction false} StillDue(run: seq<State>, steps: seq<Step>, k: nat, l: nat, n: nat)
    requires Run(run, steps) && Sorted(run[0].list) && k < n <= l < |steps| && HangsAt(run, steps, k, l)
    ensures run[n].phase.Deciding? && run[n].currTime == run[k].currTime && steps[k].e in run[n].list
  {
    RunSorted(run, steps, n - 1);
    if n == k + 1 {
      InsertHolds(run[k].list, steps[k].e, steps[k].e);
    } else {
      StillDue(run, steps, k, l, n - 1);
      StaysDue(run[n - 1], steps[n - 1], steps[k].e);
    }
  }

  /** Such an insertion hangs the thread. */
  lemma DueInsertionHangs(run: seq<State>, steps: seq<Step>, k: nat, l: nat)
    requires Run(run, steps) && Sorted(run[0].list) && k < l < |steps| && HangsAt(run, steps, k, l)
    ensures run[l + 1].phase.Hung?
  {
    StillDue(run, steps, k, l, l);
    RunSorted(run, steps, l);
    var i :| 0 <= i < |run[l].list| && run[l].list[i] == steps[k].e;
    assert run[l].list[0].at <= run[l].list[i].at;
  }

  /** An insertion of the event at step k explains that it is due now, at step n. */
  ghost predicate Explains(run: seq<State>, steps: seq<Step>, k: nat, n: nat, e: Event)
    requires k < n < |run| == |steps| + 1
  {
    && steps[k].InsertStep? && steps[k].e == e && run[k].phase.Deciding? && e.at <= run[k].currTime
    && Quiet(steps, k, n, e)
  }

  /** While the thread decides, an event is due only because it was inserted since it began to. */
  lemma {:induction false} DueIsExplained(run: seq<State>, steps: seq<Step>, n: nat, e: Event) returns (k: nat)
    requires Run(run, steps) && NoneDue(run[0]) && n < |run|
    requires run[n].phase.Deciding? && e in run[n].list && e.at <= run[n].currTime
    ensures k < n && Explains(run, steps, k, n, e)
  {
    var s, step := run[n - 1], steps[n - 1];
    RunSorted(run, steps, n - 1);
    ShiftLeavesNoneDue(s, e);
    if step.InsertStep? && step.e == e {
      k := n - 1;
    } else {
      BeforeStep(s, step, e);
      k := DueIsExplained(run, steps, n - 1, e);
    }
  }

  lemma ShiftLeavesNoneDue(s: State, e: Event)
    requires Sorted(s.list)
    ensures s.Shift().phase.Deciding? && e in s.list && !s.phase.Deciding? ==> e.at > s.currTime
  {
    if e in s.list {
      var i :| 0 <= i < |s.list| && s.list[i] == e;
      assert s.list[0].at <= s.list[i].at;
    }
  }

  lemma BeforeStep(s: State, step: Step, e: Event)
    requires Sorted(s.list) && Can(s, step) && Do(s, step).phase.Deciding? && e in Do(s, step).list
    requires !(step.InsertStep? && step.e == e) && step != Step.ShiftStep
    ensures s.phase.Deciding? && e in s.list && s.currTime == Do(s, step).currTime && step != DecideStep
    ensures !(step.FlushStep? && Matches(e, step.filter, step.instance))
  {
    match step
    case InsertStep(f, _, _) => InsertHolds(s.list, f, e);
    case FlushStep(filter, instance) => FlushRemovesMatching(s.list, filter, instance, e);
    case _ =>
  }

  /** The decision that hangs the thread, and the insertion to blame for it. */
  lemma {:induction false} HangIsExplained(run: seq<State>, steps: seq<Step>, n: nat) returns (k: nat, l: nat)
    requires Run(run, steps) && NoneDue(run[0]) && n < |run| && run[n].phase.Hung?
    ensures k < l < |steps| && HangsAt(run, steps, k, l)
  {
    if run[n - 1].phase.Hung? {
      k, l := HangIsExplained(run, steps, n - 1);
    } else {
      l := n - 1;
      var e := run[l].list[0];
      k := DueIsExplained(run, steps, l, e);
    }
  }

  /** A run hangs the thread if and only if it inserts an event already due while the thread decides, and no flush takes it back. */
  lemma HangsIffInsertedDue(run: seq<State>, steps: seq<Step>)
    requires Run(run, steps) && NoneDue(run[0])
    ensures (exists n :: 0 <= n < |run| && run[n].phase.Hung?)
      <==> exists k, l :: 0 <= k < l < |steps| && HangsAt(run, steps, k, l)
  {
    if n :| 0 <= n < |run| && run[n].phase.Hung? {
      var k, l := HangIsExplained(run, steps, n);
    }
    if k, l :| 0 <= k < l < |steps| && HangsAt(run, steps, k, l) {
      DueInsertionHangs(run, steps, k, l);
    }
  }

  /** It can: a client reads the clock, the thread reads it later and finds nothing due, and only then the client inserts. */
  lemma HangsWhenInsertedLate(start: int, e: Event) returns (run: seq<State>, steps: seq<Step>)
    requires e.at == start + 1
    ensures Run(run, steps) && NoneDue(run[0]) && run[0] == State(start, start, Reading, [], {})
    ensures steps == [ReadStep, Tick(1), ClockStep, Step.ShiftStep, Step.InsertStep(e, start, 1), DecideStep]
    ensures run[6].phase.Hung? && run[6].list == [e]
  {
    var s0 := State(start, start, Reading, [], {});
    steps := [ReadStep, Tick(1), ClockStep, Step.ShiftStep, Step.InsertStep(e, start, 1), DecideStep];
    var s1 := Do(s0, ReadStep);
    var s2 := Do(s1, Tick(1));
    var s3 := Do(s2, ClockStep);
    var s4 := Do(s3, Step.ShiftStep);
    var s5 := Do(s4, Step.InsertStep(e, start, 1));
    var s6 := Do(s5, DecideStep);
    assert s5.list == [e] && s6.phase.Hung?;
    run := [s0, s1, s2, s3, s4, s5, s6];
  }

  /**
   * In every run events that wait have a thread: it goes when it finds the list empty, and only
   * then, and the next event inserted starts it again.
   */
  lemma {:induction false} EventsHaveThread(run: seq<State>, steps: seq<Step>, k: nat)
    requires Run(run, steps) && (run[0].list != [] ==> !run[0].phase.Gone?) && k < |run|
    ensures run[k].list != [] ==> !run[k].phase.Gone?
    ensures k > 0 && steps[k - 1] == DecideStep ==> (run[k].phase.Gone? <==> run[k].list == [])
  {
    if k > 0 {
      EventsHaveThread(run, steps, k - 1);
    }
  }

  /** And that thread, when it has slept until the first event is due, delivers just that event next. */
  lemma DueEventIsDelivered(s: State)
    requires s.phase.Sleeping? && s.list != [] && s.list[0].at <= s.clock
    ensures var r := Do(Do(s, WakeStep), ClockStep);
      Can(s, WakeStep) && Can(Do(s, WakeStep), ClockStep) && Can(r, Step.ShiftStep) && Do(r, Step.ShiftStep).list == s.list[1..]
  {
    var r := Do(Do(s, WakeStep), ClockStep);
    assert r.phase == Shifting && r.currTime == s.clock;
  }
}
