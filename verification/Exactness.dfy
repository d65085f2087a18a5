/**
 * When the search is exact. The restart after an impossible February date resumes from the
 * date mktime made of it, and the restart after a wrong weekday keeps the candidate's second;
 * each can step over matching instants. Two conditions on the table say exactly when.
 */
module Exactness {
  import opened Calendar
  import opened Timetable

  predicate LastSecondOn(t: Table) {
    On(t, HOUR, 23) && On(t, MIN, 59) && On(t, SEC, 59)
  }

  /**
   * In such a February, `day` is the first allowed day past its end, an allowed early day of
   * March is jumped over, and some starting time in February has no candidate left in it.
   */
  predicate JumpsFrom(t: Table, leap: bool, day: int) {
    var length := MonthLength(leap, 1);
    && On(t, MONTH, 1) && On(t, MONTH, 2)
    && length <= day < 31 && On(t, DAY, day)
    && (forall k :: length <= k < day ==> !On(t, DAY, k))
    && (exists e :: 0 <= e < day - length && On(t, DAY, e))
    && !(On(t, DAY, length - 1) && LastSecondOn(t))
  }

  predicate SkipsDates(t: Table) {
    exists leap: bool, day :: 28 <= day < 31 && JumpsFrom(t, leap, day)
  }

  /** The month and day after a date. */
  function NextMonthDay(leap: bool, month: int, day: int): (int, int) {
    if day + 1 < MonthLength(leap, month) then (month, day + 1)
    else if month < 11 then (month + 1, 0)
    else (0, 0)
  }

  predicate BothDatesOn(t: Table, leap: bool, month: int, day: int) {
    && DateOn(t, leap, month, day)
    && On(t, MONTH, NextMonthDay(leap, month, day).0) && On(t, DAY, NextMonthDay(leap, month, day).1)
  }

  predicate ConsecutiveDates(t: Table) {
    exists leap: bool, month, day :: 0 <= month < 12 && 0 <= day < 31 && BothDatesOn(t, leap, month, day)
  }

  predicate TwoSeconds(t: Table) {
    exists a, b :: 0 <= a < b < 60 && On(t, SEC, a) && On(t, SEC, b)
  }

  predicate SomeWeekdayOff(t: Table) {
    exists w :: 0 <= w < 7 && !On(t, WDAY, w)
  }

  predicate SkipsSeconds(t: Table) {
    && On(t, HOUR, 0) && On(t, MIN, 0) && TwoSeconds(t)
    && SomeWeekdayOff(t) && ConsecutiveDates(t)
  }

  function NextDate(c: Clock): (n: Clock)
    requires Real(c)
    ensures Real(n)
  {
    var (m, d) := NextMonthDay(IsLeap(c[YEAR]), c[MONTH], c[DAY]);
    [0, 0, 0, d, m, if c[MONTH] == 11 && c[DAY] == 30 then c[YEAR] + 1 else c[YEAR]]
  }

  lemma NextDateFollows(c: Clock)
    requires Real(c)
    ensures DayNumber(NextDate(c)) == DayNumber(c) + 1
  {
    MonthGrows(IsLeap(c[YEAR]), c[MONTH]);
    YearGrows(c[YEAR]);
  }

  lemma SameDay(a: Clock, b: Clock)
    requires Real(a) && Real(b) && DayNumber(a) == DayNumber(b)
    ensures a[DAY] == b[DAY] && a[MONTH] == b[MONTH] && a[YEAR] == b[YEAR]
  {
    if a[DAY] != b[DAY] || a[MONTH] != b[MONTH] || a[YEAR] != b[YEAR] {
      if Le(a, b) { LaterDate(a, b); } else { LaterDate(b, a); }
    }
  }

  lemma WeekdayRestartIsExact(t: Table, now: int, u: int)
    requires NonEmpty(t) && now <= u && Matches(t, u)
    requires Real(First(t, BrokenDown(now))) && !WeekdayOn(t, First(t, BrokenDown(now)))
    requires u < Restart(First(t, BrokenDown(now)))
    ensures SkipsSeconds(t)
  {
    var c, x := First(t, BrokenDown(now)), BrokenDown(u);
    MatchesComeAfterFirst(t, now, u);
    WrongWeekdayIsOver(t, c, x);
    EarlyOnNextDay(c, x);
    NextDateFollows(c);
    SameDay(NextDate(c), x);
    assert BothDatesOn(t, IsLeap(c[YEAR]), c[MONTH], c[DAY]);
  }

  lemma EarlyOnNextDay(c: Clock, x: Clock)
    requires Real(c) && Real(x) && DayNumber(c) < DayNumber(x) && Instant(x) < Restart(c)
    ensures DayNumber(x) == DayNumber(c) + 1
    ensures x[HOUR] == 0 && x[MIN] == 0 && x[SEC] < c[SEC]
  {
    NextDay(c, 0);
    var days := DayNumber(x) - (DayNumber(c) + 1);
    assert days * 86400 + SecondsOfDay(x) < c[SEC];
  }

  lemma FebruaryRestartIsExact(t: Table, now: int, u: int)
    requires NonEmpty(t) && now <= u && Matches(t, u)
    requires !Real(First(t, BrokenDown(now)))
    requires u < Restart(First(t, BrokenDown(now)))
    ensures SkipsDates(t)
  {
    var c, x := First(t, BrokenDown(now)), BrokenDown(u);
    MatchesComeAfterFirst(t, now, u);
    FirstTimeIsLeast(t, now, x);
    LexLeTime(c, x);
    EarlyInMarch(c, x);
    JumpShape(t, BrokenDown(now), c, x[DAY]);
  }

  lemma EarlyInMarch(c: Clock, x: Clock)
    requires InRange(c) && !Real(c) && Real(x) && Le(c, x) && SecondsOfDay(c) <= SecondsOfDay(x)
    requires Instant(x) < Instant(c)
    ensures c[MONTH] == 1 && x[MONTH] == 2 && x[YEAR] == c[YEAR] && x[DAY] < Overflowed(c)[DAY]
  {
    if !(c[MONTH] == 1 && x[MONTH] == 2 && x[YEAR] == c[YEAR] && x[DAY] < Overflowed(c)[DAY]) {
      OverflowBefore(c, x);
      assert false;
    }
  }

  lemma JumpShape(t: Table, n: Clock, c: Clock, e: int)
    requires Real(n) && IsFirst(t, n, c) && !Real(c) && c[MONTH] == 1
    requires On(t, MONTH, 2) && On(t, DAY, e) && e < Overflowed(c)[DAY]
    ensures JumpsFrom(t, IsLeap(c[YEAR]), c[DAY])
  {
    var leap := IsLeap(c[YEAR]);
    var length := MonthLength(leap, 1);
    forall k | length <= k < c[DAY]
      ensures !On(t, DAY, k)
    {
      var y: Clock := [c[SEC], c[MIN], c[HOUR], k, 1, c[YEAR]];
      assert Le(n, y) && !Le(c, y);
    }
    var y: Clock := [59, 59, 23, length - 1, 1, c[YEAR]];
    assert Le(n, y) && !Le(c, y);
  }

  /** Without the two conditions, a restart passes over no match. */
  lemma RestartIsExact(t: Table, now: int)
    requires NonEmpty(t) && !SkipsDates(t) && !SkipsSeconds(t)
    requires !Accepts(t, First(t, BrokenDown(now)))
    ensures NoMatchIn(t, now, Restart(First(t, BrokenDown(now))))
  {
    var c := First(t, BrokenDown(now));
    forall u | now <= u < Restart(c)
      ensures !Matches(t, u)
    {
      if Matches(t, u) {
        if Real(c) { WeekdayRestartIsExact(t, now, u); } else { FebruaryRestartIsExact(t, now, u); }
      }
    }
  }

  lemma {:induction false} ExactWithout(t: Table, now: int, stop: int)
    requires NonEmpty(t) && Feasible(t) && !SkipsDates(t) && !SkipsSeconds(t)
    requires now <= stop && Stop(t, stop)
    ensures IsNext(t, now, NextTime(t, now))
    decreases stop - now
  {
    var c := First(t, BrokenDown(now));
    NextTimeUnfolds(t, now);
    if Accepts(t, c) {
      forall u | now <= u < Instant(c)
        ensures !Matches(t, u)
      {
        if Matches(t, u) {
          MatchesComeAfterFirst(t, now, u);
          InTimeOrder(c, BrokenDown(u));
        }
      }
    } else {
      RestartIsLater(t, now);
      RestartWithin(t, now, stop);
      RestartIsExact(t, now);
      ExactWithout(t, Restart(c), stop);
    }
  }

  /** A restart past a match makes the result late. */
  lemma SkippedMatch(t: Table, now: int, u: int)
    requires NonEmpty(t) && Feasible(t)
    requires !Accepts(t, First(t, BrokenDown(now)))
    requires now <= u < Restart(First(t, BrokenDown(now))) && Matches(t, u)
    ensures !IsNext(t, now, NextTime(t, now))
  {
    NextTimeUnfolds(t, now);
  }

  /** The candidate is a given one when it is allowed and nothing allowed comes before it. */
  lemma FirstIs(t: Table, now: Clock, c: Clock)
    requires NonEmpty(t) && InRange(now) && IsFirst(t, now, c)
    ensures First(t, now) == c
  {
    FirstIsUnique(t, now, First(t, now), c);
  }

  /** Some weekday is off and the one after it is on. */
  lemma WeekdayTurn(t: Table) returns (w: int)
    requires NonEmpty(t) && SomeWeekdayOff(t)
    ensures 0 <= w < 7 && !On(t, WDAY, w) && On(t, WDAY, if w == 6 then 0 else w + 1)
  {
    if !On(t, WDAY, 6) && On(t, WDAY, 0) {
      w := 6;
    } else if off :| 0 <= off < 6 && !On(t, WDAY, off) && On(t, WDAY, off + 1) {
      w := off;
    } else {
      assert SomeOn(t, WDAY);
      var v :| On(t, WDAY, v);
      var u :| 0 <= u < 7 && !On(t, WDAY, u);
      if u < v { StaysOff(t, u, v); } else { StaysOff(t, u, 6); StaysOff(t, 0, v); }
      assert false;
    }
  }

  lemma StaysOff(t: Table, u: int, v: int)
    requires 0 <= u <= v < 7 && !On(t, WDAY, u)
    requires forall k :: 0 <= k < 6 && !On(t, WDAY, k) ==> !On(t, WDAY, k + 1)
    ensures !On(t, WDAY, v)
    decreases v - u
  {
    if u < v {
      StaysOff(t, u + 1, v);
    }
  }

  /** Midnight and some seconds of a wrong weekday, whose next day matches at an earlier second. */
  lemma SecondsAreSkipped(t: Table) returns (now: int)
    requires NonEmpty(t) && Feasible(t) && SkipsSeconds(t)
    ensures !IsNext(t, now, NextTime(t, now))
  {
    var a, b :| 0 <= a < b < 60 && On(t, SEC, a) && On(t, SEC, b);
    var leap: bool, month, day :| 0 <= month < 12 && 0 <= day < 31 && BothDatesOn(t, leap, month, day);
    var w := WeekdayTurn(t);
    assert (w + 1) % 7 == if w == 6 then 0 else w + 1;
    var date := DateOnWeekday(leap, month, day, w, 0);
    var c := date[SEC := b];
    now := Instant(c);
    SameDate(c, date);
    SecondSkippedFrom(t, c, a);
  }

  lemma SameDate(a: Clock, b: Clock)
    requires InRange(a) && a[DAY..] == b[DAY..]
    ensures 0 <= b[MONTH] < 12 && DayNumber(a) == DayNumber(b)
  {
    assert a[DAY..][0] == b[DAY..][0] && a[DAY..][1] == b[DAY..][1] && a[DAY..][2] == b[DAY..][2];
  }

  lemma SecondSkippedFrom(t: Table, c: Clock, a: int)
    requires NonEmpty(t) && Feasible(t) && Real(c) && FieldsOn(t, c) && !WeekdayOn(t, c)
    requires c[HOUR] == 0 && c[MIN] == 0 && 0 <= a < c[SEC] && On(t, SEC, a)
    requires On(t, WDAY, (Weekday(DayNumber(c)) + 1) % 7)
    requires BothDatesOn(t, IsLeap(c[YEAR]), c[MONTH], c[DAY])
    ensures !IsNext(t, Instant(c), NextTime(t, Instant(c)))
  {
    RoundTrip(c);
    assert IsFirst(t, c, c);
    FirstIs(t, c, c);
    NextDay(c, 0);
    MatchNextDay(t, c, NextDate(c)[SEC := a]);
    SkippedMatch(t, Instant(c), Instant(NextDate(c)[SEC := a]));
  }

  lemma MatchNextDay(t: Table, c: Clock, x: Clock)
    requires Real(c) && 0 <= x[SEC] < 60 && x == NextDate(c)[SEC := x[SEC]] && FieldsOn(t, x)
    requires On(t, WDAY, (Weekday(DayNumber(c)) + 1) % 7)
    ensures Matches(t, Instant(x)) && Instant(x) == (DayNumber(c) + 1 - EPOCH_DAY) * 86400 + x[SEC]
  {
    NextDateFollows(c);
    NextWeekday(DayNumber(c));
    Midnight(t, NextDate(c), x);
  }

  lemma Midnight(t: Table, n: Clock, x: Clock)
    requires Real(n) && n[HOUR] == n[MIN] == 0 && 0 <= x[SEC] < 60 && x == n[SEC := x[SEC]] && FieldsOn(t, x)
    requires On(t, WDAY, Weekday(DayNumber(n)))
    ensures Matches(t, Instant(x)) && Instant(x) == (DayNumber(n) - EPOCH_DAY) * 86400 + x[SEC]
  {
    SameDate(x, n);
    RoundTrip(x);
  }

  lemma NextWeekday(day: int)
    ensures Weekday(day + 1) == (Weekday(day) + 1) % 7
  {
  }

  function LastOfFebruary(year: int, late: bool): Clock {
    var day := MonthLength(IsLeap(year), 1) - 1;
    if late then [59, 59, 23, day, 1, year] else [0, 0, 0, day, 1, year]
  }

  /** A moment of February with no candidate left in it, in a year whose early March matches. */
  lemma DatesAreSkipped(t: Table) returns (now: int)
    requires NonEmpty(t) && Feasible(t) && SkipsDates(t)
    ensures !IsNext(t, now, NextTime(t, now))
  {
    var leap: bool, day :| 28 <= day < 31 && JumpsFrom(t, leap, day);
    var length := MonthLength(leap, 1);
    var e :| 0 <= e < day - length && On(t, DAY, e);
    assert SomeOn(t, WDAY);
    var w :| On(t, WDAY, w);
    var march := DateOnWeekday(leap, 2, e, w, 0);
    now := DatesAreSkippedBefore(t, leap, day, march);
  }

  lemma DatesAreSkippedBefore(t: Table, leap: bool, day: int, march: Clock) returns (now: int)
    requires NonEmpty(t) && Feasible(t) && 28 <= day < 31 && JumpsFrom(t, leap, day)
    requires Real(march) && march[MONTH] == 2 && march[DAY] < day - MonthLength(leap, 1) && IsLeap(march[YEAR]) == leap
    requires On(t, DAY, march[DAY]) && WeekdayOn(t, march)
    ensures !IsNext(t, now, NextTime(t, now))
  {
    var length := MonthLength(leap, 1);
    var n := LastOfFebruary(march[YEAR], On(t, DAY, length - 1));
    now := Instant(n);
    RoundTrip(n);
    CandidateIsImpossible(t, n, First(t, n), leap, day);
    DateSkippedFrom(t, n, First(t, n), march);
  }

  lemma DateSkippedFrom(t: Table, n: Clock, c: Clock, march: Clock)
    requires NonEmpty(t) && Feasible(t) && Real(n) && Real(march) && IsFirst(t, n, c)
    requires !Real(c) && c[MONTH] == n[MONTH] == 1 && c[YEAR] == n[YEAR] == march[YEAR]
    requires march[DAY] < Overflowed(c)[DAY]
    requires march[MONTH] == 2 && On(t, MONTH, 2) && On(t, DAY, march[DAY]) && WeekdayOn(t, march)
    ensures !IsNext(t, Instant(n), NextTime(t, Instant(n)))
  {
    FirstIs(t, n, c);
    var x: Clock := [c[SEC], c[MIN], c[HOUR], march[DAY], 2, march[YEAR]];
    SameDate(x, march);
    RoundTrip(x);
    RoundTrip(n);
    InTimeOrder(n, x);
    Overflow(c);
    InTimeOrder(Overflowed(c), x);
    SkippedMatch(t, Instant(n), Instant(x));
  }

  lemma CandidateIsImpossible(t: Table, n: Clock, c: Clock, leap: bool, day: int)
    requires NonEmpty(t) && JumpsFrom(t, leap, day) && IsLeap(n[YEAR]) == leap
    requires n[MONTH] == 1 && n[DAY] == MonthLength(leap, 1) - 1
    requires On(t, DAY, n[DAY]) ==> n[HOUR] == 23 && n[MIN] == 59 && n[SEC] == 59
    requires IsFirst(t, n, c)
    ensures c[DAY] == day && c[MONTH] == 1 && c[YEAR] == n[YEAR]
  {
    var y := SomeFields(t, n[YEAR]);
    var z: Clock := [y[SEC], y[MIN], y[HOUR], day, 1, n[YEAR]];
    assert Le(n, z) && Le(c, z);
    assert c[YEAR] == n[YEAR] && c[MONTH] == 1;
    assert n[DAY] <= c[DAY] <= day;
  }

  /** The search returns the least matching instant from every starting time, or the table has one of the two defects. */
  lemma SearchIsExactIff(t: Table)
    requires NonEmpty(t) && Feasible(t)
    ensures (forall now :: IsNext(t, now, NextTime(t, now))) <==> !SkipsDates(t) && !SkipsSeconds(t)
  {
    if SkipsDates(t) {
      var now := DatesAreSkipped(t);
    } else if SkipsSeconds(t) {
      var now := SecondsAreSkipped(t);
    } else {
      forall now
        ensures IsNext(t, now, NextTime(t, now))
      {
        StopExists(t, now);
        var stop :| now <= stop && Stop(t, stop);
        ExactWithout(t, now, stop);
      }
    }
  }

  // The two defects on concrete schedules

  /** Days 1 and 30 of every month. */
  const FIRST_AND_30TH: Table := seq(SCHEDULE_LENGTH, k => k < 144 || 175 <= k || k == 144 || k == 173)

  /** Seconds 0 and 30 of every minute of Mondays. */
  const MONDAY_HALF_MINUTES: Table := seq(SCHEDULE_LENGTH, k => k == 0 || k == 30 || 60 <= k < 187 || k == 188)

  /** One turn of the search from a broken-down time. */
  lemma Turn(t: Table, n: Clock, c: Clock)
    requires NonEmpty(t) && Feasible(t) && Real(n) && IsFirst(t, n, c)
    ensures NextTime(t, Instant(n)) == if Accepts(t, c) then Instant(c) else NextTime(t, Restart(c))
  {
    RoundTrip(n);
    FirstIs(t, n, c);
    NextTimeUnfolds(t, Instant(n));
  }

  lemma AllLevelsOn(t: Table, x: Clock, weekday: int)
    requires FieldsOn(t, x) && On(t, WDAY, weekday) && x[DAY] < 28
    ensures NonEmpty(t) && Feasible(t)
  {
    assert SomeOn(t, SEC) && SomeOn(t, MIN) && SomeOn(t, HOUR) && SomeOn(t, DAY) && SomeOn(t, MONTH) && SomeOn(t, WDAY);
    assert DateOn(t, true, x[MONTH], x[DAY]);
  }

  ghost predicate OnlyFirstAnd30th(t: Table) {
    forall l, v :: On(t, l, v) <==> 0 <= l <= WDAY && 0 <= v < LevelLength(l) && (l == DAY ==> v == 0 || v == 29)
  }

  /** Days 1 and 30: from February 2nd of a common year, March 1st is jumped over; the answer is March 30th. */
  lemma MarchFirstIsJumped(year: int)
    requires !IsLeap(year)
    ensures NonEmpty(FIRST_AND_30TH) && Feasible(FIRST_AND_30TH)
    ensures Matches(FIRST_AND_30TH, Instant([0, 0, 0, 0, 2, year]))
    ensures NextTime(FIRST_AND_30TH, Instant([0, 0, 0, 1, 1, year])) == Instant([0, 0, 0, 29, 2, year])
  {
    var t := FIRST_AND_30TH;
    assert OnlyFirstAnd30th(t);
    AllLevelsOn(t, [0, 0, 0, 0, 0, 0], 0);
    MarchFirstIsJumpedIn(t, year);
  }

  lemma MarchFirstIsJumpedIn(t: Table, year: int)
    requires !IsLeap(year) && NonEmpty(t) && Feasible(t) && OnlyFirstAnd30th(t)
    ensures Matches(t, Instant([0, 0, 0, 0, 2, year]))
    ensures NextTime(t, Instant([0, 0, 0, 1, 1, year])) == Instant([0, 0, 0, 29, 2, year])
  {
    RoundTrip([0, 0, 0, 0, 2, year]);
    Day30IsFirst(t, [0, 0, 0, 1, 1, year]);
    Day30IsFirst(t, [0, 0, 0, 1, 2, year]);
    JumpedFrom(t, [0, 0, 0, 1, 1, year], [0, 0, 0, 29, 1, year], [0, 0, 0, 1, 2, year], [0, 0, 0, 29, 2, year]);
  }

  lemma Day30IsFirst(t: Table, n: Clock)
    requires OnlyFirstAnd30th(t) && 0 <= n[MONTH] < 12 && n[DAY] == 1 && n[HOUR] == n[MIN] == n[SEC] == 0
    ensures IsFirst(t, n, [0, 0, 0, 29, n[MONTH], n[YEAR]])
  {
  }

  lemma JumpedFrom(t: Table, n: Clock, c: Clock, m: Clock, r: Clock)
    requires NonEmpty(t) && Feasible(t)
    requires Real(n) && IsFirst(t, n, c) && !Real(c) && m == Overflowed(c)
    requires IsFirst(t, m, r) && Real(r) && WeekdayOn(t, r)
    ensures NextTime(t, Instant(n)) == Instant(r)
  {
    Turn(t, n, c);
    Overflow(c);
    Turn(t, m, r);
  }

  /** Seconds 0 and 30 on Mondays: from a Sunday 12:00:15, Monday 00:00:00 is passed over; the answer is 00:00:30. */
  lemma MondayMidnightIsPassed(sunday: Clock)
    requires Real(sunday) && Weekday(DayNumber(sunday)) == 0
    requires sunday[HOUR] == 12 && sunday[MIN] == 0 && sunday[SEC] == 15
    ensures NonEmpty(MONDAY_HALF_MINUTES) && Feasible(MONDAY_HALF_MINUTES)
    ensures Matches(MONDAY_HALF_MINUTES, Instant(NextDate(sunday)))
    ensures NextTime(MONDAY_HALF_MINUTES, Instant(sunday)) == Instant(NextDate(sunday)[SEC := 30])
  {
    var t := MONDAY_HALF_MINUTES;
    assert OnlyMondayHalfMinutes(t);
    AllLevelsOn(t, [0, 0, 0, 0, 0, 0], 1);
    PassedOnSunday(t, sunday);
  }

  lemma PassedOnSunday(t: Table, sunday: Clock)
    requires NonEmpty(t) && Feasible(t) && OnlyMondayHalfMinutes(t)
    requires Real(sunday) && Weekday(DayNumber(sunday)) == 0 && 0 < sunday[SEC] < 30
    ensures Matches(t, Instant(NextDate(sunday)))
    ensures NextTime(t, Instant(sunday)) == Instant(NextDate(sunday)[SEC := 30])
  {
    var c, m := sunday[SEC := 30], NextDate(sunday);
    SameDate(c, sunday);
    SecondThirtyIsFirst(t, sunday);
    NextDate30(sunday);
    MondayFollows(t, c, m);
    MondayFollows(t, c, m[SEC := 30]);
    SundayIsOff(t, c);
    PassedFrom(t, sunday, c, m[SEC := 30]);
  }

  lemma NextDate30(n: Clock)
    requires Real(n)
    ensures Real(n[SEC := 30]) && NextDate(n[SEC := 30]) == NextDate(n)
  {
  }

  lemma SundayIsOff(t: Table, c: Clock)
    requires OnlyMondayHalfMinutes(t) && Real(c) && Weekday(DayNumber(c)) == 0
    ensures !WeekdayOn(t, c)
    ensures Restart(c) == (DayNumber(c) + 1 - EPOCH_DAY) * 86400 + c[SEC]
  {
    NextDay(c, 0);
  }

  lemma MondayFollows(t: Table, c: Clock, x: Clock)
    requires OnlyMondayHalfMinutes(t) && Real(c) && Weekday(DayNumber(c)) == 0
    requires x == NextDate(c)[SEC := x[SEC]] && (x[SEC] == 0 || x[SEC] == 30)
    ensures Real(x) && FieldsOn(t, x) && Matches(t, Instant(x))
    ensures Instant(x) == (DayNumber(c) + 1 - EPOCH_DAY) * 86400 + x[SEC]
  {
    MatchNextDay(t, c, x);
  }

  ghost predicate OnlyMondayHalfMinutes(t: Table) {
    forall l, v :: On(t, l, v) <==>
      0 <= l <= WDAY && 0 <= v < LevelLength(l) && (l == SEC ==> v == 0 || v == 30) && (l == WDAY ==> v == 1)
  }

  lemma SecondThirtyIsFirst(t: Table, n: Clock)
    requires OnlyMondayHalfMinutes(t) && Real(n) && 0 < n[SEC] < 30
    ensures IsFirst(t, n, n[SEC := 30])
  {
  }

  lemma PassedFrom(t: Table, n: Clock, c: Clock, r: Clock)
    requires NonEmpty(t) && Feasible(t)
    requires Real(n) && IsFirst(t, n, c) && Real(c) && !WeekdayOn(t, c)
    requires Real(r) && Restart(c) == Instant(r) && FieldsOn(t, r) && Matches(t, Instant(r))
    ensures NextTime(t, Instant(n)) == Instant(r)
  {
    Turn(t, n, c);
    RestartsAt(t, r);
  }

  lemma RestartsAt(t: Table, r: Clock)
    requires NonEmpty(t) && Feasible(t) && Real(r) && FieldsOn(t, r) && Matches(t, Instant(r))
    ensures NextTime(t, Instant(r)) == Instant(r)
  {
    RoundTrip(r);
    assert IsFirst(t, r, r);
    Turn(t, r, r);
  }
}
