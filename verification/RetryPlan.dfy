/** When a failed task is tried again: retry_task and schedule_update on a task's attributes. */
module RetryPlan {

  datatype Option<+T> = None | Some(value: T)

  /** One level of a retry schedule: wait this long, this many times. Both are read as plain integers. */
  datatype Level = Level(delay: int, times: int)

  /** The retry attributes of a task node; an absent schedule level reads as 0. */
  datatype Attributes = Attributes(
    schedule: Option<seq<Level>>,
    level: nat,
    delay: Option<int>,
    times: Option<int>,
    retval: Option<int>)

  /** What retry_task decides: retry after a delay, count an error, or neither. */
  datatype Outcome = Retry(after: int) | Error | Silent

  /** schedule_update: the next level's delay and times, zero past the last level. */
  function UpdateLevel(a: Attributes): (Attributes, int, int)
    requires a.schedule.Some?
  {
    var levels, next := a.schedule.value, a.level + 1;
    if next > |levels| then (a.(level := next), 0, 0)
    else
      var l := levels[next - 1];
      (a.(level := next, delay := Some(l.delay), times := Some(l.times)), l.delay, l.times)
  }

  /** retry_task for a task that returned retval. */
  function RetryTask(a: Attributes, retval: int): (Attributes, Outcome) {
    if a.schedule.Some? && a.level == 0 then
      var (b, delay, times) := UpdateLevel(a);
      AtLevel(b, delay, times, retval)
    else if a.delay.None? || a.times.None? then (a, Error)
    else AtLevel(a, a.delay.value, a.times.value, retval)
  }

  function AtLevel(a: Attributes, delay: int, times: int, retval: int): (Attributes, Outcome) {
    if a.schedule.Some? && times == 0 then
      var (b, d, n) := UpdateLevel(a);
      Decide(b, d, n, retval)
    else Decide(a, delay, times, retval)
  }

  function Decide(a: Attributes, delay: int, times: int, retval: int): (Attributes, Outcome) {
    if delay == 0 || times == 0 then (a, Error)
    else if a.retval.Some? && a.retval.value != retval then (a, Silent)
    else (a.(times := Some(times - 1)), Retry(delay))
  }

  /** Following these levels comes to one that is retried a negative number of times, and so for ever. */
  predicate Endless(levels: seq<Level>) {
    && levels != [] && levels[0].delay != 0 && levels[0].times != 0
    && (levels[0].times < 0 || Endless(levels[1..]))
  }

  /** Following a delay and a number of times, then these levels. */
  predicate EndlessFrom(delay: int, times: int, levels: seq<Level>) {
    if times == 0 then Endless(levels) else delay != 0 && (times < 0 || Endless(levels))
  }

  /** The levels still to come. */
  function LevelsAfter(a: Attributes): seq<Level> {
    if a.schedule.None? || a.level > |a.schedule.value| then [] else a.schedule.value[a.level..]
  }

  /** Whether a task that fails every time is retried for ever. */
  predicate RetriedForEver(a: Attributes, retval: int) {
    && (a.retval.Some? ==> a.retval.value == retval)
    && if a.schedule.Some? && a.level == 0 then
         a.schedule.value != [] && EndlessFrom(a.schedule.value[0].delay, a.schedule.value[0].times, a.schedule.value[1..])
       else a.delay.Some? && a.times.Some? && EndlessFrom(a.delay.value, a.times.value, LevelsAfter(a))
  }

  function LevelsLeft(a: Attributes): nat {
    |LevelsAfter(a)|
  }

  function TimesLeft(a: Attributes): nat {
    if a.times.Some? && a.times.value > 0 then a.times.value else 0
  }

  lemma FirstLevels(a: Attributes)
    requires a.schedule.Some? && a.level < |a.schedule.value|
    ensures LevelsAfter(a) == [a.schedule.value[a.level]] + LevelsAfter(UpdateLevel(a).0)
    ensures LevelsAfter(UpdateLevel(a).0) == LevelsAfter(a)[1..]
  {
  }

  /** A retry changes nothing about retrying for ever. */
  lemma RetryStays(a: Attributes, retval: int)
    requires RetryTask(a, retval).1.Retry?
    ensures RetriedForEver(RetryTask(a, retval).0, retval) <==> RetriedForEver(a, retval)
  {
    if a.schedule.Some? {
      var b := UpdateLevel(a).0;
      if a.level < |a.schedule.value| {
        FirstLevels(a);
      }
      if b.level < |a.schedule.value| {
        FirstLevels(b);
      }
    }
  }

  /** If it is not for ever, the levels left, or the retries left at this level, go down. */
  lemma RetriesRunOut(a: Attributes, retval: int)
    requires RetryTask(a, retval).1.Retry? && !RetriedForEver(a, retval)
    ensures var b := RetryTask(a, retval).0;
      LevelsLeft(b) < LevelsLeft(a) || (LevelsLeft(b) == LevelsLeft(a) && TimesLeft(b) < TimesLeft(a))
  {
    if a.schedule.Some? && a.level < |a.schedule.value| {
      FirstLevels(a);
    }
  }

  /** Everything that happens to a task that fails every time: the delays of its retries, and how it ends. */
  function FailingRun(a: Attributes, retval: int): (seq<int>, Outcome)
    requires !RetriedForEver(a, retval)
    decreases LevelsLeft(a), TimesLeft(a)
  {
    var (b, outcome) := RetryTask(a, retval);
    if outcome.Retry? then
      RetryStays(a, retval);
      RetriesRunOut(a, retval);
      var (delays, last) := FailingRun(b, retval);
      ([outcome.after] + delays, last)
    else ([], outcome)
  }

  /** How often such a task is executed. */
  function Executions(a: Attributes, retval: int): nat
    requires !RetriedForEver(a, retval)
  {
    1 + |FailingRun(a, retval).0|
  }

  /** A task that fails every time is retried at least n times. */
  predicate RetriedAtLeast(a: Attributes, retval: int, n: nat)
    decreases n
  {
    n == 0 || (RetryTask(a, retval).1.Retry? && RetriedAtLeast(RetryTask(a, retval).0, retval, n - 1))
  }

  lemma {:induction false} ForEverIsEveryNumber(a: Attributes, retval: int, n: nat)
    requires RetriedForEver(a, retval)
    ensures RetriedAtLeast(a, retval, n)
    decreases n
  {
    if n > 0 {
      ForEverIsRetried(a, retval);
      RetryStays(a, retval);
      ForEverIsEveryNumber(RetryTask(a, retval).0, retval, n - 1);
    }
  }

  lemma ForEverIsRetried(a: Attributes, retval: int)
    requires RetriedForEver(a, retval)
    ensures RetryTask(a, retval).1.Retry?
  {
  }

  lemma {:induction false} RunIsAllRetries(a: Attributes, retval: int)
    requires !RetriedForEver(a, retval)
    ensures !RetriedAtLeast(a, retval, |FailingRun(a, retval).0| + 1)
    decreases LevelsLeft(a), TimesLeft(a)
  {
    if RetryTask(a, retval).1.Retry? {
      RetryStays(a, retval);
      RetriesRunOut(a, retval);
      RunIsAllRetries(RetryTask(a, retval).0, retval);
    }
  }

  /** Retries end if and only if no level that is reached is to be retried a negative number of times. */
  lemma RetriesEndIff(a: Attributes, retval: int)
    ensures (forall n: nat :: RetriedAtLeast(a, retval, n)) <==> RetriedForEver(a, retval)
  {
    if RetriedForEver(a, retval) {
      forall n: nat ensures RetriedAtLeast(a, retval, n) {
        ForEverIsEveryNumber(a, retval, n);
      }
    } else {
      RunIsAllRetries(a, retval);
    }
  }

  /** n copies of a delay. */
  function Repeat(delay: int, n: nat): seq<int> {
    seq(n, _ => delay)
  }

  /** The delays a schedule asks for, up to its first level with nothing to wait or nothing to do. */
  function Plan(levels: seq<Level>): seq<int> {
    if levels == [] || levels[0].delay == 0 || levels[0].times <= 0 then []
    else Repeat(levels[0].delay, levels[0].times) + Plan(levels[1..])
  }

  /** From the start, a first level with nothing to do is passed over. */
  function WholePlan(levels: seq<Level>): seq<int> {
    if levels != [] && levels[0].times == 0 then Plan(levels[1..]) else Plan(levels)
  }

  function SumOfTimes(levels: seq<Level>): int {
    if levels == [] then 0 else levels[0].times + SumOfTimes(levels[1..])
  }

  /** The state between retries: inside some level of the schedule, with n of its retries left. */
  predicate InLevel(a: Attributes, levels: seq<Level>, n: nat) {
    && a.schedule == Some(levels) && a.retval == None && 0 < a.level <= |levels|
    && a.delay == Some(levels[a.level - 1].delay) && a.times == Some(n) && levels[a.level - 1].delay != 0
  }

  lemma MoreRepeats(delay: int, n: nat, plan: seq<int>)
    requires n > 0
    ensures Repeat(delay, n) + plan == [delay] + (Repeat(delay, n - 1) + plan)
  {
  }

  /** Inside a level: its retries, then the plan of the levels after it. */
  lemma {:induction false} RunFromLevel(a: Attributes, levels: seq<Level>, n: nat, retval: int)
    requires InLevel(a, levels, n) && !Endless(levels[a.level..])
    ensures !RetriedForEver(a, retval)
    ensures FailingRun(a, retval) == (Repeat(levels[a.level - 1].delay, n) + Plan(levels[a.level..]), Error)
    decreases |levels| - a.level, n
  {
    if n > 0 {
      RunFromLevel(RetryTask(a, retval).0, levels, n - 1, retval);
      MoreRepeats(levels[a.level - 1].delay, n, Plan(levels[a.level..]));
    } else {
      assert Repeat(levels[a.level - 1].delay, 0) + Plan(levels[a.level..]) == Plan(levels[a.level..]);
      var b := RetryTask(a, retval).0;
      if RetryTask(a, retval).1.Retry? {
        var l := levels[a.level];
        assert levels[a.level..][0] == l && levels[a.level..][1..] == levels[a.level + 1..];
        RunFromLevel(b, levels, l.times - 1, retval);
        MoreRepeats(l.delay, l.times, Plan(levels[a.level + 1..]));
      } else if a.level < |levels| {
        assert levels[a.level..][0] == levels[a.level];
      }
    }
  }

  /** Entering a level with something to do. */
  lemma EnterLevel(a: Attributes, b: Attributes, levels: seq<Level>, retval: int)
    requires 0 < b.level <= |levels| && levels[b.level - 1].delay != 0 && levels[b.level - 1].times > 0
    requires InLevel(b, levels, levels[b.level - 1].times - 1) && !Endless(levels[b.level..])
    requires RetryTask(a, retval) == (b, Retry(levels[b.level - 1].delay)) && !RetriedForEver(a, retval)
    ensures FailingRun(a, retval) == (Plan(levels[b.level - 1..]), Error)
  {
    var l := levels[b.level - 1];
    RunFromLevel(b, levels, l.times - 1, retval);
    assert levels[b.level - 1..][0] == l && levels[b.level - 1..][1..] == levels[b.level..];
    MoreRepeats(l.delay, l.times, Plan(levels[b.level..]));
  }

  /** A task failing every time under a schedule waits exactly the schedule's delays, then counts one error. */
  lemma ScheduleIsFollowed(a: Attributes, levels: seq<Level>, retval: int)
    requires a.schedule == Some(levels) && a.level == 0 && a.retval == None && !RetriedForEver(a, retval)
    ensures FailingRun(a, retval) == (WholePlan(levels), Error)
  {
    var (b, outcome) := RetryTask(a, retval);
    if outcome.Retry? {
      RetryStays(a, retval);
      assert levels[b.level - 1..][0] == levels[b.level - 1] && levels[b.level - 1..][1..] == levels[b.level..];
      EnterLevel(a, b, levels, retval);
      assert levels[0..] == levels;
    }
  }

  lemma {:induction false} PlanLength(levels: seq<Level>)
    requires forall i :: 0 <= i < |levels| ==> levels[i].delay != 0 && levels[i].times > 0
    ensures |Plan(levels)| == SumOfTimes(levels) && !Endless(levels)
  {
    if levels != [] {
      PlanLength(levels[1..]);
    }
  }

  /** With positive levels it is executed once, and once more for every retry of every level. */
  lemma ExecutedOncePlusAllRetries(a: Attributes, levels: seq<Level>, retval: int)
    requires a.schedule == Some(levels) && a.level == 0 && a.retval == None
    requires forall i :: 0 <= i < |levels| ==> levels[i].delay > 0 && levels[i].times > 0
    ensures !RetriedForEver(a, retval)
    ensures Executions(a, retval) == 1 + SumOfTimes(levels)
    ensures FailingRun(a, retval).1 == Error
  {
    PlanLength(levels);
    ScheduleIsFollowed(a, levels, retval);
  }

  /** Without a schedule the task's own delay and times rule; a negative number of times never runs out. */
  lemma OwnRetriesAreFollowed(a: Attributes, delay: int, times: int, retval: int)
    requires a.schedule == None && a.retval == None && a.delay == Some(delay) && a.times == Some(times)
    ensures RetriedForEver(a, retval) <==> delay != 0 && times < 0
    ensures !RetriedForEver(a, retval) ==> FailingRun(a, retval) == (if delay == 0 then [] else Repeat(delay, times), Error)
  {
    if delay != 0 && times >= 0 {
      OwnRun(a, delay, times, retval);
    }
  }

  lemma {:induction false} OwnRun(a: Attributes, delay: int, times: nat, retval: int)
    requires a.schedule == None && a.retval == None && a.delay == Some(delay) && a.times == Some(times) && delay != 0
    ensures FailingRun(a, retval) == (Repeat(delay, times), Error)
    decreases times
  {
    if times > 0 {
      OwnRun(a.(times := Some(times - 1)), delay, times - 1, retval);
      MoreRepeats(delay, times, []);
      assert Repeat(delay, times) + [] == Repeat(delay, times) && Repeat(delay, times - 1) + [] == Repeat(delay, times - 1);
    } else {
      assert Repeat(delay, times) == [];
    }
  }

  /** A task restricted to another return value is never retried; it is an error only if it would not have been retried anyway. */
  lemma OtherRetvalIsNotRetried(a: Attributes, retval: int)
    requires a.retval.Some? && a.retval.value != retval
    ensures !RetryTask(a, retval).1.Retry?
    ensures RetryTask(a, retval).1 == Error <==> !RetryTask(a.(retval := None), retval).1.Retry?
    ensures RetryTask(a, retval).1 == Silent <==> RetryTask(a.(retval := None), retval).1.Retry?
  {
  }

  /** A failure goes by without retry and without error in no other case. */
  lemma SilentIff(a: Attributes, retval: int)
    ensures RetryTask(a, retval).1 == Silent
      <==> a.retval.Some? && a.retval.value != retval && RetryTask(a.(retval := None), retval).1.Retry?
  {
  }
}
