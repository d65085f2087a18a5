/**
 * What a schedule means, and the search for its next instant: the first candidate in the
 * calendar where every month has 31 days, and the two restarts taken when that candidate is
 * not a date or falls on a wrong weekday.
 */
module Timetable {
  import opened Calendar

  const WDAY := 5
  const SCHEDULE_LENGTH := 194

  /** The six levels of flags, one after the other. */
  type Table = t: seq<bool> | |t| == SCHEDULE_LENGTH witness seq(SCHEDULE_LENGTH, i => true)

  function LevelLength(level: int): int {
    if level == SEC then 60
    else if level == MIN then 60
    else if level == HOUR then 24
    else if level == DAY then 31
    else if level == MONTH then 12
    else if level == WDAY then 7
    else -1
  }

  function LevelOffset(level: int): int {
    if level == SEC then 0
    else if level == MIN then 60
    else if level == HOUR then 120
    else if level == DAY then 144
    else if level == MONTH then 175
    else if level == WDAY then 187
    else -1
  }

  predicate On(t: Table, level: int, v: int) {
    0 <= level <= WDAY && 0 <= v < LevelLength(level) && t[LevelOffset(level) + v]
  }

  ghost predicate SomeOn(t: Table, level: int) {
    exists v :: On(t, level, v)
  }

  /** Every level allows something. */
  ghost predicate NonEmpty(t: Table) {
    forall level :: 0 <= level <= WDAY ==> SomeOn(t, level)
  }

  /** Second, minute, hour, day and month are allowed. */
  predicate FieldsOn(t: Table, c: Clock) {
    On(t, SEC, c[SEC]) && On(t, MIN, c[MIN]) && On(t, HOUR, c[HOUR]) && On(t, DAY, c[DAY]) && On(t, MONTH, c[MONTH])
  }

  predicate WeekdayOn(t: Table, c: Clock)
    requires InRange(c)
  {
    On(t, WDAY, Weekday(DayNumber(c)))
  }

  predicate Matches(t: Table, u: int) {
    FieldsOn(t, BrokenDown(u)) && WeekdayOn(t, BrokenDown(u))
  }

  ghost predicate Satisfiable(t: Table) {
    exists u :: Matches(t, u)
  }

  ghost predicate NoMatchIn(t: Table, now: int, end: int) {
    forall u :: now <= u < end ==> !Matches(t, u)
  }

  /** r is the least instant from now on that matches. */
  ghost predicate IsNext(t: Table, now: int, r: int) {
    now <= r && Matches(t, r) && NoMatchIn(t, now, r)
  }

  /** c is the least allowed broken-down time from now on, whether or not its date exists. */
  ghost predicate IsFirst(t: Table, now: Clock, c: Clock) {
    && FieldsOn(t, c) && Le(now, c)
    && forall x: Clock :: FieldsOn(t, x) && Le(now, x) ==> Le(c, x)
  }

  function SecondsOfDay(c: Clock): int {
    c[HOUR] * 3600 + c[MIN] * 60 + c[SEC]
  }

  function DayRank(c: Clock): int {
    (c[YEAR] * 12 + c[MONTH]) * 31 + c[DAY]
  }

  /** The position of a broken-down time in the calendar of 31-day months. */
  function Rank(c: Clock): int {
    DayRank(c) * 86400 + SecondsOfDay(c)
  }

  lemma RankOrder(a: Clock, b: Clock)
    requires InRange(a) && InRange(b)
    ensures Le(a, b) ==> Rank(a) <= Rank(b)
    ensures !Le(a, b) ==> Rank(b) < Rank(a)
  {
    assert 0 <= SecondsOfDay(a) < 86400 && 0 <= SecondsOfDay(b) < 86400;
    if a[YEAR] < b[YEAR] || (a[YEAR] == b[YEAR] && (a[MONTH] < b[MONTH] || (a[MONTH] == b[MONTH] && a[DAY] < b[DAY]))) {
      assert DayRank(a) < DayRank(b);
    } else if a[YEAR] == b[YEAR] && a[MONTH] == b[MONTH] && a[DAY] == b[DAY] {
    } else {
      assert DayRank(b) < DayRank(a);
    }
  }

  lemma FirstExists(t: Table, now: Clock, x: Clock)
    requires InRange(now) && FieldsOn(t, x) && Le(now, x)
    ensures exists c :: IsFirst(t, now, c)
    decreases Rank(x) - Rank(now)
  {
    if y: Clock :| FieldsOn(t, y) && Le(now, y) && !Le(x, y) {
      RankOrder(x, y);
      RankOrder(now, y);
      FirstExists(t, now, y);
    } else {
      assert IsFirst(t, now, x);
    }
  }

  lemma FirstIsUnique(t: Table, now: Clock, c: Clock, d: Clock)
    requires IsFirst(t, now, c) && IsFirst(t, now, d)
    ensures c == d
  {
    assert Le(c, d) && Le(d, c);
    assert forall i :: 0 <= i < 6 ==> c[i] == d[i];
  }

  ghost function SomeFields(t: Table, year: int): (x: Clock)
    requires NonEmpty(t)
    ensures FieldsOn(t, x) && x[YEAR] == year
  {
    assert SomeOn(t, SEC) && SomeOn(t, MIN) && SomeOn(t, HOUR) && SomeOn(t, DAY) && SomeOn(t, MONTH);
    var s :| On(t, SEC, s);
    var m :| On(t, MIN, m);
    var h :| On(t, HOUR, h);
    var d :| On(t, DAY, d);
    var mo :| On(t, MONTH, mo);
    [s, m, h, d, mo, year]
  }

  ghost function First(t: Table, now: Clock): (c: Clock)
    requires NonEmpty(t) && InRange(now)
    ensures IsFirst(t, now, c)
  {
    var x := SomeFields(t, now[YEAR] + 1);
    FirstExists(t, now, x);
    var c :| IsFirst(t, now, c);
    c
  }

  /** The day after, at midnight plus the same seconds. */
  function NextMidnight(c: Clock): Clock {
    [c[SEC], 0, 0, c[DAY] + 1, c[MONTH], c[YEAR]]
  }

  /** Where the search resumes when candidate c is not a matching instant. */
  function Restart(c: Clock): int
    requires InRange(c)
  {
    if !Real(c) then Instant(c)
    else Instant(NextMidnight(c))
  }

  predicate Accepts(t: Table, c: Clock)
    requires InRange(c)
  {
    Real(c) && WeekdayOn(t, c)
  }

  /** The date mktime turns a date that does not exist into: early in the next month. */
  function Overflowed(c: Clock): (n: Clock)
    requires InRange(c) && !Real(c)
    ensures Real(n)
    ensures n[DAY] > 0 ==> c[MONTH] == 1
  {
    [c[SEC], c[MIN], c[HOUR], c[DAY] - MonthLength(IsLeap(c[YEAR]), c[MONTH]), c[MONTH] + 1, c[YEAR]]
  }

  lemma SameDayNumber(leap: bool, month: int, day: int)
    requires 0 <= month < 11
    ensures DaysBeforeMonth(leap, month + 1) + (day - MonthLength(leap, month)) == DaysBeforeMonth(leap, month) + day
  {
    MonthGrows(leap, month);
  }

  lemma OverflowDay(c: Clock, n: Clock)
    requires InRange(c) && !Real(c) && n == Overflowed(c)
    ensures DayNumber(n) == DayNumber(c)
  {
    SameDayNumber(IsLeap(c[YEAR]), c[MONTH], c[DAY]);
    assert n[YEAR] == c[YEAR] && n[MONTH] == c[MONTH] + 1;
    assert n[DAY] == c[DAY] - MonthLength(IsLeap(c[YEAR]), c[MONTH]);
  }

  lemma Overflow(c: Clock)
    requires InRange(c) && !Real(c)
    ensures BrokenDown(Instant(c)) == Overflowed(c) && Instant(Overflowed(c)) == Instant(c)
  {
    var n := Overflowed(c);
    OverflowDay(c, n);
    assert Instant(n) == Instant(c);
    RoundTrip(n);
  }

  /** The check the program makes on the output of mktime is the check that the date exists. */
  lemma InvalidDateTest(c: Clock)
    requires InRange(c)
    ensures var n := BrokenDown(Instant(c)); Real(c) <==> n[DAY] == c[DAY] && n[MONTH] == c[MONTH]
  {
    if Real(c) {
      RoundTrip(c);
    } else {
      Overflow(c);
    }
  }

  /** The day after a real date, at midnight plus some seconds. */
  lemma NextDay(c: Clock, u: int)
    requires Real(c)
    ensures var r := Restart(c);
      && r == (DayNumber(c) + 1 - EPOCH_DAY) * 86400 + c[SEC]
      && Instant(c) < r
      && (DayOf(u) > DayNumber(c) ==> (DayNumber(c) + 1 - EPOCH_DAY) * 86400 <= u)
  {
  }

  /** A restart moves forward. */
  lemma RestartIsLater(t: Table, now: int)
    requires NonEmpty(t) && !Accepts(t, First(t, BrokenDown(now)))
    ensures now < Restart(First(t, BrokenDown(now)))
  {
    var c := First(t, BrokenDown(now));
    if Real(c) {
      InTimeOrder(BrokenDown(now), c);
      NextDay(c, now);
    } else {
      var n := Overflowed(c);
      Overflow(c);
      assert Le(BrokenDown(now), n);
      InTimeOrder(BrokenDown(now), n);
      InTimeOrder(n, BrokenDown(now));
    }
  }

  /** Every match from now on is at or after the candidate. */
  lemma MatchesComeAfterFirst(t: Table, now: int, u: int)
    requires NonEmpty(t) && now <= u && Matches(t, u)
    ensures Le(First(t, BrokenDown(now)), BrokenDown(u))
  {
    InTimeOrder(BrokenDown(now), BrokenDown(u));
  }

  /** When the candidate's date is not the starting date, its time of day is the least allowed one. */
  lemma FirstTimeIsLeast(t: Table, now: int, x: Clock)
    requires NonEmpty(t) && FieldsOn(t, x)
    requires !Real(First(t, BrokenDown(now)))
    ensures var c := First(t, BrokenDown(now));
      LexLe(c, x, 3)
  {
    var n, c := BrokenDown(now), First(t, BrokenDown(now));
    var y: Clock := [x[SEC], x[MIN], x[HOUR], c[DAY], c[MONTH], c[YEAR]];
    assert Le(n, c) && (n[DAY] != c[DAY] || n[MONTH] != c[MONTH] || n[YEAR] != c[YEAR]);
    assert Le(n, y) && Le(c, y);
    assert LexLe(c, y, 6);
    assert LexLe(c, y, 5);
    assert LexLe(c, y, 4);
    assert LexLe(c, y, 3);
    SamePrefix(c, y, x, 3);
  }

  lemma SamePrefix(a: Clock, b: Clock, c: Clock, n: nat)
    requires n <= 6 && forall i :: 0 <= i < n ==> b[i] == c[i]
    ensures LexLe(a, b, n) == LexLe(a, c, n)
  {
  }

  /** Dates that a February 30 or 31 candidate could jump over. */
  predicate MayBeJumped(t: Table, c: Clock) {
    c[MONTH] == 2 && c[DAY] < 2 && On(t, MONTH, 1) && (On(t, DAY, 29) || On(t, DAY, 30))
  }

  /** A match that no restart passes over: it bounds the search. */
  ghost predicate Stop(t: Table, u: int) {
    && Matches(t, u)
    && !MayBeJumped(t, BrokenDown(u))
    && forall s :: On(t, SEC, s) ==> s <= BrokenDown(u)[SEC]
  }

  lemma RestartWithin(t: Table, now: int, stop: int)
    requires NonEmpty(t) && !Accepts(t, First(t, BrokenDown(now)))
    requires now <= stop && Stop(t, stop)
    ensures Restart(First(t, BrokenDown(now))) <= stop
  {
    var c := First(t, BrokenDown(now));
    MatchesComeAfterFirst(t, now, stop);
    if Real(c) {
      NextDayWithin(t, c, stop);
    } else {
      FirstTimeIsLeast(t, now, BrokenDown(stop));
      LexLeTime(c, BrokenDown(stop));
      OverflowBefore(c, BrokenDown(stop));
    }
  }

  lemma NextDayWithin(t: Table, c: Clock, stop: int)
    requires Real(c) && FieldsOn(t, c) && !WeekdayOn(t, c) && Stop(t, stop) && Le(c, BrokenDown(stop))
    ensures Restart(c) <= stop
  {
    var u := BrokenDown(stop);
    WrongWeekdayIsOver(t, c, u);
    assert c[SEC] <= u[SEC];
    LaterDaySeconds(DayNumber(c), u);
    NextDay(c, stop);
  }

  lemma LaterDaySeconds(day: int, u: Clock)
    requires Real(u) && day < DayNumber(u)
    ensures (day + 1 - EPOCH_DAY) * 86400 + u[SEC] <= Instant(u)
  {
  }

  /** No match falls on the date of a candidate with a wrong weekday. */
  lemma WrongWeekdayIsOver(t: Table, c: Clock, u: Clock)
    requires Real(c) && Real(u) && !WeekdayOn(t, c) && WeekdayOn(t, u) && Le(c, u)
    ensures DayNumber(c) < DayNumber(u)
  {
    assert DayNumber(c) != DayNumber(u);
    if c[DAY] != u[DAY] || c[MONTH] != u[MONTH] || c[YEAR] != u[YEAR] {
      LaterDate(c, u);
    }
  }

  lemma OverflowBefore(c: Clock, u: Clock)
    requires InRange(c) && !Real(c) && Real(u) && Le(c, u)
    requires SecondsOfDay(c) <= SecondsOfDay(u)
    requires u[MONTH] == 2 && c[MONTH] == 1 && u[YEAR] == c[YEAR] ==> Overflowed(c)[DAY] <= u[DAY]
    ensures Instant(c) <= Instant(u)
  {
    var n := Overflowed(c);
    Overflow(c);
    if n[DAY] != u[DAY] || n[MONTH] != u[MONTH] || n[YEAR] != u[YEAR] {
      LaterDate(n, u);
    }
  }

  lemma LexLeTime(a: Clock, b: Clock)
    requires LexLe(a, b, 3)
    ensures InRange(a) && InRange(b) ==> SecondsOfDay(a) <= SecondsOfDay(b)
  {
    assert LexLe(a, b, 1) == (a[0] < b[0] || (a[0] == b[0] && LexLe(a, b, 0)));
    assert LexLe(a, b, 2) == (a[1] < b[1] || (a[1] == b[1] && LexLe(a, b, 1)));
  }

  /** The program's search, which ends at or before any stop. */
  ghost function NextTimeBy(t: Table, now: int, stop: int): (r: int)
    requires NonEmpty(t) && now <= stop && Stop(t, stop)
    ensures now <= r <= stop && Matches(t, r)
    decreases stop - now
  {
    var c := First(t, BrokenDown(now));
    if Accepts(t, c) then
      RoundTrip(c);
      InTimeOrder(BrokenDown(now), c);
      MatchesComeAfterFirst(t, now, stop);
      InTimeOrder(c, BrokenDown(stop));
      Instant(c)
    else
      RestartIsLater(t, now);
      RestartWithin(t, now, stop);
      NextTimeBy(t, Restart(c), stop)
  }

  lemma {:induction false} AnyStopWillDo(t: Table, now: int, stop1: int, stop2: int)
    requires NonEmpty(t) && now <= stop1 && now <= stop2 && Stop(t, stop1) && Stop(t, stop2)
    ensures NextTimeBy(t, now, stop1) == NextTimeBy(t, now, stop2)
    decreases stop1 - now
  {
    var c := First(t, BrokenDown(now));
    if !Accepts(t, c) {
      RestartIsLater(t, now);
      RestartWithin(t, now, stop1);
      RestartWithin(t, now, stop2);
      AnyStopWillDo(t, Restart(c), stop1, stop2);
    }
  }

  /** Month and day are allowed and name a date of a common or a leap year. */
  predicate DateOn(t: Table, leap: bool, month: int, day: int) {
    On(t, MONTH, month) && On(t, DAY, day) && day < MonthLength(leap, month)
  }

  /** Some date of the Gregorian calendar is allowed. */
  predicate Feasible(t: Table) {
    exists leap: bool, month, day :: 0 <= month < 12 && 0 <= day < 31 && DateOn(t, leap, month, day)
  }

  /** A year of the wanted kind whose January 1st is on the wanted weekday, in 2000..2024. */
  function SampleYear(leap: bool, weekday: int): (y: int)
    requires 0 <= weekday < 7
    ensures IsLeap(y) == leap && Weekday(DaysBeforeYear(y)) == weekday
  {
    if leap then [2012, 2024, 2008, 2020, 2004, 2016, 2000][weekday]
    else [2006, 2001, 2002, 2003, 2009, 2010, 2005][weekday]
  }

  /** Every date of a common or leap year falls on every weekday, after any year. */
  lemma DateOnWeekday(leap: bool, month: int, day: int, weekday: int, after: int) returns (c: Clock)
    requires 0 <= month < 12 && 0 <= day < MonthLength(leap, month) && 0 <= weekday < 7
    ensures c[DAY] == day && c[MONTH] == month && after < c[YEAR] && c[SEC] == c[MIN] == c[HOUR] == 0
    ensures IsLeap(c[YEAR]) == leap && Real(c) && Weekday(DayNumber(c)) == weekday
  {
    var offset := DaysBeforeMonth(leap, month) + day;
    var first := (weekday - offset) % 7;
    var sample := SampleYear(leap, first);
    var k := if after < sample then 0 else after - sample + 1;
    Period(sample, k);
    c := [0, 0, 0, day, month, sample + 400 * k];
    WeekdayShift(DaysBeforeYear(c[YEAR]), offset, weekday);
  }

  lemma WeekdayShift(day: int, offset: int, weekday: int)
    requires 0 <= weekday < 7 && Weekday(day) == (weekday - offset) % 7
    ensures Weekday(day + offset) == weekday
  {
  }

  /** A date that is allowed and that no restart passes over. */
  lemma SafeDate(t: Table) returns (leap: bool, month: int, day: int)
    requires NonEmpty(t) && Feasible(t)
    ensures 0 <= month < 12 && 0 <= day < 31 && DateOn(t, leap, month, day)
    ensures month == 2 && day < 2 ==> !(On(t, MONTH, 1) && (On(t, DAY, 29) || On(t, DAY, 30)))
  {
    leap, month, day :| 0 <= month < 12 && 0 <= day < 31 && DateOn(t, leap, month, day);
    if month == 2 && On(t, DAY, 29) { day := 29; }
    else if month == 2 && On(t, DAY, 30) { day := 30; }
  }

  lemma LastOn(t: Table, level: int, from: int) returns (v: int)
    requires 0 <= level <= WDAY && On(t, level, from)
    ensures On(t, level, v) && forall s :: On(t, level, s) ==> s <= v
    decreases LevelLength(level) - from
  {
    if s :| On(t, level, s) && from < s {
      v := LastOn(t, level, s);
    } else {
      v := from;
    }
  }

  lemma StopExists(t: Table, now: int)
    requires NonEmpty(t) && Feasible(t)
    ensures exists stop :: now <= stop && Stop(t, stop)
  {
    var leap, month, day := SafeDate(t);
    var x := SomeFields(t, 0);
    assert SomeOn(t, WDAY);
    var w :| On(t, WDAY, w);
    var s := LastOn(t, SEC, x[SEC]);
    var date := DateOnWeekday(leap, month, day, w, BrokenDown(now)[YEAR]);
    StopOnDate(t, now, date, [s, x[MIN], x[HOUR], day, month, date[YEAR]]);
  }

  lemma StopOnDate(t: Table, now: int, date: Clock, c: Clock)
    requires NonEmpty(t) && Real(date) && WeekdayOn(t, date) && FieldsOn(t, c)
    requires c[DAY] == date[DAY] && c[MONTH] == date[MONTH] && c[YEAR] == date[YEAR] > BrokenDown(now)[YEAR]
    requires !MayBeJumped(t, c) && forall s :: On(t, SEC, s) ==> s <= c[SEC]
    ensures now <= Instant(c) && Stop(t, Instant(c))
  {
    assert DayNumber(c) == DayNumber(date);
    RoundTrip(c);
    InTimeOrder(BrokenDown(now), c);
  }

  /** The value the program's search returns; satisfiable schedules always have one. */
  ghost function NextTime(t: Table, now: int): (r: int)
    requires NonEmpty(t) && Feasible(t)
    ensures now <= r && Matches(t, r)
  {
    StopExists(t, now);
    var stop :| now <= stop && Stop(t, stop);
    NextTimeBy(t, now, stop)
  }

  lemma NextTimeIs(t: Table, now: int, stop: int)
    requires NonEmpty(t) && Feasible(t) && now <= stop && Stop(t, stop)
    ensures NextTime(t, now) == NextTimeBy(t, now, stop)
  {
    forall s | now <= s && Stop(t, s)
      ensures NextTimeBy(t, now, s) == NextTimeBy(t, now, stop)
    {
      AnyStopWillDo(t, now, s, stop);
    }
  }

  /** One turn of the search. */
  lemma NextTimeUnfolds(t: Table, now: int)
    requires NonEmpty(t) && Feasible(t)
    ensures var c := First(t, BrokenDown(now));
      NextTime(t, now) == if Accepts(t, c) then Instant(c) else NextTime(t, Restart(c))
  {
    var c := First(t, BrokenDown(now));
    StopExists(t, now);
    var stop :| now <= stop && Stop(t, stop);
    NextTimeIs(t, now, stop);
    if !Accepts(t, c) {
      RestartIsLater(t, now);
      RestartWithin(t, now, stop);
      NextTimeIs(t, Restart(c), stop);
    }
  }

  /** A table is satisfiable by a real instant exactly when some calendar date is allowed. */
  lemma SatisfiableIffFeasible(t: Table)
    requires NonEmpty(t)
    ensures Satisfiable(t) <==> Feasible(t)
  {
    if u :| Matches(t, u) {
      MatchIsDateOn(t, BrokenDown(u));
    }
    if Feasible(t) {
      StopExists(t, 0);
    }
  }

  lemma MatchIsDateOn(t: Table, c: Clock)
    requires Real(c) && FieldsOn(t, c)
    ensures Feasible(t)
  {
    assert DateOn(t, IsLeap(c[YEAR]), c[MONTH], c[DAY]);
  }

  lemma StopFor(t: Table, now: int) returns (stop: int)
    requires NonEmpty(t) && Feasible(t)
    ensures now <= stop && Stop(t, stop)
  {
    StopExists(t, now);
    stop :| now <= stop && Stop(t, stop);
  }

  /** What one turn of the search needs to know about its candidate. */
  lemma TurnOfSearch(t: Table, now: int, c: Clock, stop: int)
    requires NonEmpty(t) && Feasible(t) && now <= stop && Stop(t, stop) && c == First(t, BrokenDown(now))
    ensures NextTime(t, now) == if Accepts(t, c) then Instant(c) else NextTime(t, Restart(c))
    ensures !Accepts(t, c) ==> now < Restart(c) <= stop
    ensures var n := BrokenDown(Instant(c));
      if Real(c) then n == c else n[DAY] != c[DAY] || n[MONTH] != c[MONTH]
  {
    NextTimeUnfolds(t, now);
    if !Accepts(t, c) {
      RestartIsLater(t, now);
      RestartWithin(t, now, stop);
    }
    InvalidDateTest(c);
    if Real(c) {
      RoundTrip(c);
    }
  }
}
