/** The search as the program runs it: nested loops over the levels, then a recursive restart. */
module Schedules {
  import opened Calendar
  import opened Timetable
  import opened ScheduleText

  /** The n lowest fields are allowed. */
  predicate OnUpTo(t: Table, x: Clock, n: nat) {
    forall k :: 0 <= k < n && k <= MONTH ==> On(t, k, x[k])
  }

  /** The fields of the starting time from level n up are allowed. */
  predicate OnFrom(t: Table, now: Clock, n: nat) {
    forall k :: n <= k <= MONTH ==> On(t, k, now[k])
  }

  ghost predicate Least(t: Table, c: Clock, n: nat)
    requires n <= 5
  {
    forall x: Clock :: OnUpTo(t, x, n) ==> LexLe(c, x, n)
  }

  ghost predicate LeastFrom(t: Table, now: Clock, c: Clock, n: nat)
    requires n <= 5
  {
    LexLe(now, c, n) && forall x: Clock :: OnUpTo(t, x, n) && LexLe(now, x, n) ==> LexLe(c, x, n)
  }

  ghost predicate NoneFrom(t: Table, now: Clock, n: nat)
    requires n <= 5
  {
    forall x: Clock :: OnUpTo(t, x, n) ==> !LexLe(now, x, n)
  }

  /**
   * The n lowest fields of c are settled. If the rest of the starting time may stand, they are
   * the least from it on, or there are none and the next level must move; otherwise they are
   * at their minimum.
   */
  ghost predicate Settled(t: Table, now: Clock, c: Clock, n: nat, carry: int)
    requires n <= 5
  {
    && OnUpTo(t, c, n)
    && if OnFrom(t, now, n)
       then (carry == 0 && LeastFrom(t, now, c, n)) || (carry == 1 && Least(t, c, n) && NoneFrom(t, now, n))
       else carry == 0 && Least(t, c, n)
  }

  /** j is the first allowed value from start on, cyclically. */
  ghost predicate Picked(t: Table, level: int, start: int, j: int) {
    && On(t, level, j)
    && if start <= j then forall k :: start <= k < j ==> !On(t, level, k)
       else forall k :: k < j || start <= k ==> !On(t, level, k)
  }

  lemma SettleLevel(t: Table, now: Clock, c: Clock, n: nat, carry: int, d: Clock, carry': int)
    requires n <= MONTH && InRange(now) && Settled(t, now, c, n, carry)
    requires d[..n] == c[..n]
    requires if OnFrom(t, now, n + 1)
             then Picked(t, n, now[n] + carry, d[n]) && carry' == if d[n] < now[n] + carry then 1 else 0
             else Picked(t, n, 0, d[n]) && carry' == 0
    ensures Settled(t, now, d, n + 1, carry')
  {
    assert forall i :: 0 <= i < n ==> d[i] == d[..n][i] == c[..n][i] == c[i];
    assert OnFrom(t, now, n) <==> OnFrom(t, now, n + 1) && On(t, n, now[n]);
    forall x: Clock
      ensures LexLe(d, x, n) == LexLe(c, x, n) && LexLe(x, d, n) == LexLe(x, c, n)
    {
      SamePrefixes(d, c, x, n);
    }
    assert OnUpTo(t, d, n + 1);
    assert forall x: Clock :: OnUpTo(t, x, n + 1) ==> OnUpTo(t, x, n) && On(t, n, x[n]);
  }

  lemma SamePrefixes(a: Clock, b: Clock, x: Clock, n: nat)
    requires n <= 6 && forall i :: 0 <= i < n ==> a[i] == b[i]
    ensures LexLe(a, x, n) == LexLe(b, x, n) && LexLe(x, a, n) == LexLe(x, b, n)
  {
  }

  lemma SettledIsFirst(t: Table, now: Clock, c: Clock, carry: int)
    requires Settled(t, now, c, 5, carry)
    ensures IsFirst(t, now, c[YEAR := now[YEAR] + carry])
  {
    var d := c[YEAR := now[YEAR] + carry];
    assert OnFrom(t, now, 5);
    assert FieldsOn(t, d) by { assert forall k :: 0 <= k <= 4 ==> On(t, k, c[k]); }
    forall x: Clock
      ensures LexLe(d, x, 5) == LexLe(c, x, 5) && LexLe(x, d, 5) == LexLe(x, c, 5)
    {
      SamePrefixes(d, c, x, 5);
    }
    assert forall x: Clock :: FieldsOn(t, x) ==> OnUpTo(t, x, 5);
    assert forall a: Clock, b: Clock :: LexLe(a, b, 6) == (a[5] < b[5] || (a[5] == b[5] && LexLe(a, b, 5)));
  }

  lemma Cyclic(x: int, n: int)
    requires 0 < n && 0 <= x < 2 * n
    ensures x % n == if x < n then x else x - n
  {
  }

  /** The result of reading a whole description, given its first levels and what reading the rest gives. */
  ghost function Resumed(levels: seq<set<int>>, rest: Result<(seq<set<int>>, string)>): Result<(seq<set<int>>, string)> {
    match rest
    case Failure(e) => Failure(e)
    case Success((more, tail)) => Success((levels + more, tail))
  }

  lemma NothingRead(s: string)
    ensures ReadLevels(s, 0) == Resumed([], ReadLevels(s[0..], 0))
  {
    assert s[0..] == s;
    assert ReadLevels(s, 0).Success? ==> [] + ReadLevels(s, 0).value.0 == ReadLevels(s, 0).value.0;
  }

  lemma AllRead(s: string, levels: seq<set<int>>)
    ensures Resumed(levels, ReadLevels(s, 6)) == Success((levels, s))
  {
    assert levels + [] == levels;
  }

  lemma ResumeNext(s: string, level: int, levels: seq<set<int>>)
    requires 0 <= level <= WDAY && ReadLevel(s, level, {}).Success?
    ensures var (values, tail) := ReadLevel(s, level, {}).value;
      Resumed(levels, ReadLevels(s, level)) == Resumed(levels + [values], ReadLevels(SkipSemicolon(tail), level + 1))
  {
    var (values, tail) := ReadLevel(s, level, {}).value;
    var rest := ReadLevels(SkipSemicolon(tail), level + 1);
    if rest.Success? {
      assert levels + ([values] + rest.value.0) == levels + [values] + rest.value.0;
    }
  }

  /** The flags of the levels parsed so far are set, and the others are off. */
  ghost predicate HoldsLevels(t: seq<bool>, levels: seq<set<int>>) {
    |t| == SCHEDULE_LENGTH && forall k :: 0 <= k < SCHEDULE_LENGTH ==>
      t[k] == (LevelAt(k) < |levels| && FlagOf(levels, k))
  }

  lemma HeldTable(t: seq<bool>, levels: seq<set<int>>)
    requires |levels| == 6 && HoldsLevels(t, levels)
    ensures t == TableOf(levels)
  {
  }

  lemma MoreLevels(before: seq<bool>, after: seq<bool>, levels: seq<set<int>>, values: set<int>)
    requires HoldsLevels(before, levels) && |after| == SCHEDULE_LENGTH
    requires forall k :: 0 <= k < SCHEDULE_LENGTH ==>
      after[k] == if LevelAt(k) == |levels| then values == {} || k - LevelOffset(|levels|) in values else before[k]
    ensures HoldsLevels(after, levels + [values])
  {
  }

  class Schedule {
    const schedule: array<bool>

    ghost predicate Valid()
      reads schedule
    {
      schedule.Length == SCHEDULE_LENGTH && NonEmpty(schedule[..]) && Feasible(schedule[..])
    }

    /** The table before anything is parsed: every flag off. */
    constructor ()
      ensures fresh(schedule) && schedule.Length == SCHEDULE_LENGTH
      ensures HoldsLevels(schedule[..], [])
    {
      schedule := new bool[SCHEDULE_LENGTH](_ => false);
    }

    /** Reads one number of a level with strtol, and the comma after it. */
    static method ReadValue(description: string, at: nat, level: int) returns (r: Result<(int, nat)>)
      requires at < |description| && description[at] != ';'
      ensures r.Success? ==> 0 <= r.value.0 < LevelLength(level) && at < r.value.1 <= |description|
      ensures r.Failure? ==> forall values :: ReadLevel(description[at..], level, values) == Failure(r.error)
      ensures r.Success? ==> forall values ::
        ReadLevel(description[at..], level, values) == ReadLevel(description[r.value.1..], level, values + {r.value.0})
    {
      ghost var s := description[at..];
      assert !EndOfLevel(s);
      var (v, tail) := Strtol(description[at..]);
      StrtolSuffix(s);
      SuffixIndex(description, at, tail);
      var next := |description| - |tail|;
      if next == at {
        return Failure(NonNumeric);
      }
      if v < 0 || v >= LevelLength(level) {
        return Failure(OutOfRange);
      }
      next := if next < |description| && description[next] == ',' then next + 1 else next;
      assert description[next..] == SkipComma(tail);
      r := Success((v, next));
    }

    /** An empty level allows everything. */
    method FillLevel(level: int)
      requires schedule.Length == SCHEDULE_LENGTH && 0 <= level <= WDAY
      modifies schedule
      ensures forall k :: 0 <= k < SCHEDULE_LENGTH ==> schedule[k] == (LevelAt(k) == level || old(schedule[k]))
    {
      var offset, length := LevelOffset(level), LevelLength(level);
      for i := offset to offset + length
        invariant forall k :: 0 <= k < SCHEDULE_LENGTH ==>
          schedule[k] == ((LevelAt(k) == level && k < i) || old(schedule[k]))
      {
        schedule[i] := true;
      }
    }

    /** The numbers of one level, each setting its flag; `values` is the set of them. */
    method SetFlags(description: string, i: nat, level: int, minDay: int)
      returns (end: Result<nat>, emptyLevel: bool, minDay': int, ghost values: set<int>)
      requires schedule.Length == SCHEDULE_LENGTH && 0 <= level <= WDAY && i <= |description|
      requires forall k :: 0 <= k < SCHEDULE_LENGTH && LevelAt(k) == level ==> !schedule[k]
      requires level == DAY ==> minDay == 32
      modifies schedule
      ensures end.Failure? ==> ReadLevel(description[i..], level, {}) == Failure(end.error)
      ensures end.Success? ==> end.value <= |description|
      ensures end.Success? ==> ReadLevel(description[i..], level, {}) == Success((values, description[end.value..]))
      ensures emptyLevel <==> values == {}
      ensures forall k :: 0 <= k < SCHEDULE_LENGTH ==>
        schedule[k] == if LevelAt(k) == level then k - LevelOffset(level) in values else old(schedule[k])
      ensures if level == DAY then IsMinDay(values, minDay') else minDay' == minDay
    {
      var offset, length := LevelOffset(level), LevelLength(level);
      assert forall k :: 0 <= k < SCHEDULE_LENGTH ==> (LevelAt(k) == level <==> offset <= k < offset + length);
      var at := i;
      emptyLevel := true;
      minDay' := minDay;
      values := {};
      while at < |description| && description[at] != ';'
        invariant i <= at <= |description|
        invariant ReadLevel(description[i..], level, {}) == ReadLevel(description[at..], level, values)
        invariant forall k :: 0 <= k < SCHEDULE_LENGTH ==>
          schedule[k] == if offset <= k < offset + length then k - offset in values else old(schedule[k])
        invariant emptyLevel <==> values == {}
        invariant if level == DAY then IsMinDay(values, minDay') else minDay' == minDay
        decreases |description| - at
      {
        var value := ReadValue(description, at, level);
        if value.Failure? {
          return Failure(value.error), emptyLevel, minDay', values;
        }
        var v := value.value.0;
        schedule[offset + v] := true;
        emptyLevel := false;
        if level == DAY && v < minDay' {
          minDay' := v;
        }
        values := values + {v};
        at := value.value.1;
      }
      assert EndOfLevel(description[at..]);
      end := Success(at);
    }

    /** One turn of the parsing loop: sets the flags of one level and moves past it. */
    method ParseLevel(description: string, i: nat, level: int, minDay: int, ghost levels: seq<set<int>>)
      returns (end: Result<nat>, minDay': int, ghost values: set<int>)
      requires |levels| == level <= WDAY && i <= |description| && schedule.Length == SCHEDULE_LENGTH
      requires HoldsLevels(schedule[..], levels)
      requires level == DAY ==> minDay == 32
      modifies schedule
      ensures end.Failure? ==> ReadLevels(description[i..], level) == Failure(end.error)
      ensures end.Success? ==> end.value <= |description| && HoldsLevels(schedule[..], levels + [values])
      ensures end.Success? ==>
        Resumed(levels, ReadLevels(description[i..], level)) == Resumed(levels + [values], ReadLevels(description[end.value..], level + 1))
      ensures if level == DAY then IsMinDay(values, minDay') else minDay' == minDay
    {
      ghost var before := schedule[..];
      var emptyLevel;
      end, emptyLevel, minDay', values := SetFlags(description, i, level, minDay);
      if end.Failure? {
        return;
      }
      var at := end.value;
      if emptyLevel {
        FillLevel(level);
      }
      MoreLevels(before, schedule[..], levels, values);
      ResumeNext(description[i..], level, levels);
      end := Success(if at < |description| && description[at] == ';' then at + 1 else at);
      assert description[end.value..] == SkipSemicolon(description[at..]);
    }

    /** The parsing loop over the levels; returns min_day. */
    method ParseLevels(description: string) returns (r: Result<int>)
      requires schedule.Length == SCHEDULE_LENGTH && HoldsLevels(schedule[..], [])
      modifies schedule
      ensures match ReadLevels(description, 0)
        case Failure(e) => r == Failure(e)
        case Success((levels, tail)) =>
          if tail != [] then r == Failure(Garbage)
          else r.Success? && HoldsLevels(schedule[..], levels) && IsMinDay(levels[DAY], r.value)
    {
      var i, minDay := 0, 32;
      ghost var levels: seq<set<int>> := [];
      NothingRead(description);
      for level := 0 to 6
        invariant 0 <= i <= |description| && |levels| == level
        invariant ReadLevels(description, 0) == Resumed(levels, ReadLevels(description[i..], level))
        invariant HoldsLevels(schedule[..], levels)
        invariant if level <= DAY then minDay == 32 else IsMinDay(levels[DAY], minDay)
      {
        var end, min;
        ghost var values;
        end, min, values := ParseLevel(description, i, level, minDay, levels);
        if end.Failure? {
          return Failure(end.error);
        }
        levels := levels + [values];
        i, minDay := end.value, min;
      }
      AllRead(description[i..], levels);
      if i < |description| {
        return Failure(Garbage);
      }
      r := Success(minDay);
    }

    /** The two tests for days that none of the allowed months has. */
    method Refused(minDay: int) returns (refused: bool)
      requires schedule.Length == SCHEDULE_LENGTH
      ensures refused == RefusedByDays(schedule[..], minDay)
    {
      if minDay == 29 && !schedule[175] && !schedule[177] && !schedule[178] && !schedule[179] && !schedule[180] && !schedule[181]
        && !schedule[182] && !schedule[183] && !schedule[184] && !schedule[185] && !schedule[186]
      {
        return true;
      }
      if minDay == 30 && !schedule[175] && !schedule[177] && !schedule[179] && !schedule[181] && !schedule[182] && !schedule[184]
        && !schedule[186]
      {
        return true;
      }
      return false;
    }

    /**
     * The constructor Schedule(description), with its exceptions as failures: a description that
     * can be read is accepted if and only if some instant of the real calendar satisfies it.
     */
    static method Create(description: string) returns (r: Result<Schedule>)
      ensures match Parse(description)
        case Failure(e) => r == Failure(e)
        case Success(t) =>
          if Satisfiable(t) then r.Success? && fresh(r.value) && r.value.Valid() && r.value.schedule[..] == t
          else r == Failure(Impossible)
    {
      var s := new Schedule();
      var minDay := s.ParseLevels(description);
      if minDay.Failure? {
        return Failure(minDay.error);
      }
      ghost var levels := ReadLevels(description, 0).value.0;
      HeldTable(s.schedule[..], levels);
      ReadIsNonEmpty(description, levels, "");
      RefusedIffInfeasible(levels, minDay.value);
      SatisfiableIffFeasible(s.schedule[..]);
      var refused := s.Refused(minDay.value);
      if refused {
        return Failure(Impossible);
      }
      r := Success(s);
    }

    /** Whether every level above this one allows the starting time's value. */
    method NextLevelsValid(level: int, nowT: Clock) returns (valid: bool)
      requires Valid() && 0 <= level <= MONTH && InRange(nowT)
      ensures valid <==> OnFrom(schedule[..], nowT, level + 1)
    {
      var k := level + 1;
      while k <= MONTH
        invariant level < k <= 5
        invariant forall l :: level < l < k ==> On(schedule[..], l, nowT[l])
      {
        if !schedule[LevelOffset(k) + nowT[k]] {
          return false;
        }
        k := k + 1;
      }
      return true;
    }

    /** The first allowed value of one level: cyclically from the starting value, or from 0. */
    method PickInLevel(level: int, now: int, carry: int, valid: bool) returns (j: int)
      requires Valid() && 0 <= level <= MONTH && 0 <= now < LevelLength(level) && 0 <= carry <= 1
      ensures Picked(schedule[..], level, if valid then now + carry else 0, j)
    {
      var offset, length := LevelOffset(level), LevelLength(level);
      ghost var start := if valid then now + carry else 0;
      assert SomeOn(schedule[..], level);
      ghost var some :| On(schedule[..], level, some);
      var i := 0;
      while true
        invariant 0 <= i <= length
        invariant forall v :: On(schedule[..], level, v) ==> !(start <= v < start + i) && !(v < start + i - length)
        invariant On(schedule[..], level, some)
        decreases length - i
      {
        if i == length {
          assert false;
        }
        j := if valid then (now + i + carry) % length else i;
        Cyclic(start + i, length);
        if schedule[offset + j] {
          return;
        }
        i := i + 1;
      }
    }

    /** The loop over the levels: the first candidate from a starting time on. */
    method FirstCandidate(nowT: Clock) returns (firstT: Clock)
      requires Valid() && InRange(nowT)
      ensures firstT == First(schedule[..], nowT)
    {
      firstT := nowT;
      var nextLevelOffset := 0;
      for level := 0 to 5
        invariant Settled(schedule[..], nowT, firstT, level, nextLevelOffset)
      {
        var currentLevelOffset := nextLevelOffset;
        nextLevelOffset := 0;
        var valid := NextLevelsValid(level, nowT);
        var j := PickInLevel(level, nowT[level], currentLevelOffset, valid);
        ghost var before := firstT;
        firstT := firstT[level := j];
        if valid && j < nowT[level] + currentLevelOffset {
          nextLevelOffset := 1;
        }
        SettleLevel(schedule[..], nowT, before, level, currentLevelOffset, firstT, nextLevelOffset);
      }
      SettledIsFirst(schedule[..], nowT, firstT, nextLevelOffset);
      firstT := firstT[YEAR := nowT[YEAR] + nextLevelOffset];
      FirstIsUnique(schedule[..], nowT, firstT, First(schedule[..], nowT));
    }

    method WeekdayAllowed(firstT: Clock) returns (allowed: bool)
      requires Valid() && InRange(firstT)
      ensures allowed == WeekdayOn(schedule[..], firstT)
    {
      allowed := schedule[LevelOffset(WDAY) + Weekday(DayNumber(firstT))];
    }

    /**
     * get_next_time. The stop is any match that no restart passes over; it exists for every
     * satisfiable schedule and bounds the recursion.
     */
    method NextTimeFrom(now: int, ghost stop: int) returns (next: int)
      requires Valid() && now <= stop && Stop(schedule[..], stop)
      ensures next == NextTime(schedule[..], now)
      decreases stop - now
    {
      var nowT := BrokenDown(now);
      var candidate := FirstCandidate(nowT);
      TurnOfSearch(schedule[..], now, candidate, stop);

      var first := Instant(candidate);
      var firstT := BrokenDown(first);
      if firstT[DAY] != candidate[DAY] || firstT[MONTH] != candidate[MONTH] {
        next := NextTimeFrom(first, stop);
      } else {
        var weekdayAllowed := WeekdayAllowed(firstT);
        if !weekdayAllowed {
          first := Instant(NextMidnight(firstT));
          next := NextTimeFrom(first, stop);
        } else {
          next := first;
        }
      }
    }

    /** GetNextTime: strictly in the future, so its one-year fallback is never returned. */
    method GetNextTime(now: int) returns (next: int)
      requires Valid()
      ensures now < next && Matches(schedule[..], next) && next == NextTime(schedule[..], now + 1)
    {
      ghost var stop := StopFor(schedule[..], now + 1);
      next := NextTimeFrom(now + 1, stop);
      if next <= now {
        next := now + 86400 * 365;
      }
    }
  }
}
