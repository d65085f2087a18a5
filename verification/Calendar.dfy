/**
 * The C library's calendar, as the schedule search uses it: localtime_r and mktime over the
 * proleptic Gregorian calendar, in a zone whose offset never changes. An instant is a number
 * of seconds of local time since 1970-01-01 00:00:00.
 */
module Calendar {

  /** A broken-down time: second, minute, hour, day of month from 0, month from 0, year. */
  type Clock = c: seq<int> | |c| == 6 witness [0, 0, 0, 0, 0, 0]

  const SEC := 0
  const MIN := 1
  const HOUR := 2
  const DAY := 3
  const MONTH := 4
  const YEAR := 5

  /** 1970-01-01, counted in days from 0000-01-01. */
  const EPOCH_DAY := 719528

  predicate IsLeap(year: int) {
    year % 4 == 0 && (year % 100 != 0 || year % 400 == 0)
  }

  function YearLength(year: int): int {
    if IsLeap(year) then 366 else 365
  }

  function MonthLength(leap: bool, month: int): int {
    if month == 1 then (if leap then 29 else 28)
    else if month == 3 || month == 5 || month == 8 || month == 10 then 30
    else 31
  }

  function DaysBeforeYear(year: int): int {
    365 * year + (year + 3) / 4 - (year + 99) / 100 + (year + 399) / 400
  }

  function DaysBeforeMonth(leap: bool, month: int): int
    requires 0 <= month <= 12
  {
    [0, 31, 59, 90, 120, 151, 181, 212, 243, 273, 304, 334, 365][month] + if leap && 2 <= month then 1 else 0
  }

  /** The six fields are in the ranges of the 12 x 31 x 24 x 60 x 60 calendar. */
  predicate InRange(c: Clock) {
    && 0 <= c[SEC] < 60 && 0 <= c[MIN] < 60 && 0 <= c[HOUR] < 24
    && 0 <= c[DAY] < 31 && 0 <= c[MONTH] < 12
  }

  /** The date exists. */
  predicate Real(c: Clock) {
    InRange(c) && c[DAY] < MonthLength(IsLeap(c[YEAR]), c[MONTH])
  }

  /** Days from 0000-01-01; a day past the end of its month runs into the following months. */
  function DayNumber(c: Clock): int
    requires 0 <= c[MONTH] < 12
  {
    DaysBeforeYear(c[YEAR]) + DaysBeforeMonth(IsLeap(c[YEAR]), c[MONTH]) + c[DAY]
  }

  /** mktime: the instant of a broken-down time, overflowing days carried into later months. */
  function Instant(c: Clock): int
    requires 0 <= c[MONTH] < 12
  {
    (DayNumber(c) - EPOCH_DAY) * 86400 + c[HOUR] * 3600 + c[MIN] * 60 + c[SEC]
  }

  function DayOf(t: int): int {
    t / 86400 + EPOCH_DAY
  }

  /** tm_wday, with 0 for Sunday; 0000-01-01 was a Saturday. */
  function Weekday(day: int): int {
    (day + 6) % 7
  }

  function YearFrom(day: int, year: int): (y: int)
    requires DaysBeforeYear(year) <= day
    ensures DaysBeforeYear(y) <= day < DaysBeforeYear(y + 1)
    decreases day - DaysBeforeYear(year)
  {
    YearGrows(year);
    if day < DaysBeforeYear(year + 1) then year else YearFrom(day, year + 1)
  }

  function YearOf(day: int): (y: int)
    ensures DaysBeforeYear(y) <= day < DaysBeforeYear(y + 1)
  {
    Eras(day / 146097);
    YearFrom(day, 400 * (day / 146097))
  }

  function MonthFrom(leap: bool, dayOfYear: int, month: int): (m: int)
    requires 0 <= month < 12
    requires DaysBeforeMonth(leap, month) <= dayOfYear < DaysBeforeMonth(leap, 12)
    ensures 0 <= m < 12
    ensures DaysBeforeMonth(leap, m) <= dayOfYear < DaysBeforeMonth(leap, m + 1)
    decreases 12 - month
  {
    if dayOfYear < DaysBeforeMonth(leap, month + 1) then month else MonthFrom(leap, dayOfYear, month + 1)
  }

  /** The month and the day of the month, both from 0, of a day of the year. */
  function MonthDayOf(leap: bool, dayOfYear: int): (md: (int, int))
    requires 0 <= dayOfYear < DaysBeforeMonth(leap, 12)
    ensures 0 <= md.0 < 12 && 0 <= md.1 < MonthLength(leap, md.0)
    ensures DaysBeforeMonth(leap, md.0) + md.1 == dayOfYear
  {
    var m := MonthFrom(leap, dayOfYear, 0);
    MonthGrows(leap, m);
    (m, dayOfYear - DaysBeforeMonth(leap, m))
  }

  lemma MonthLengths(leap: bool, month: int)
    ensures 28 <= MonthLength(leap, month) <= 31
  {
  }

  /** The calendar date of a day number, at midnight. */
  function DateOf(day: int): (c: Clock)
    ensures Real(c) && c[HOUR] == c[MIN] == c[SEC] == 0
    ensures DayNumber(c) == day
  {
    var y := YearOf(day);
    YearGrows(y);
    var (m, d) := MonthDayOf(IsLeap(y), day - DaysBeforeYear(y));
    MonthLengths(IsLeap(y), m);
    [0, 0, 0, d, m, y]
  }

  /** Hours, minutes and seconds since midnight. */
  function TimeOf(s: int): (hms: (int, int, int))
    requires 0 <= s < 86400
    ensures 0 <= hms.0 < 24 && 0 <= hms.1 < 60 && 0 <= hms.2 < 60
    ensures s == hms.0 * 3600 + hms.1 * 60 + hms.2
  {
    (s / 3600, s % 3600 / 60, s % 60)
  }

  /** localtime_r. */
  function BrokenDown(t: int): (c: Clock)
    ensures Real(c)
    ensures Instant(c) == t
  {
    var date := DateOf(DayOf(t));
    var (h, m, s) := TimeOf(t % 86400);
    [s, m, h, date[DAY], date[MONTH], date[YEAR]]
  }

  lemma YearGrows(year: int)
    ensures DaysBeforeYear(year + 1) == DaysBeforeYear(year) + YearLength(year)
    ensures DaysBeforeMonth(IsLeap(year), 12) == YearLength(year)
  {
    var n4 := if year % 4 == 0 then 1 else 0;
    var n100 := if year % 100 == 0 then 1 else 0;
    var n400 := if year % 400 == 0 then 1 else 0;
    assert (year + 1 + 3) / 4 == (year + 3) / 4 + n4;
    assert (year + 1 + 99) / 100 == (year + 99) / 100 + n100;
    assert (year + 1 + 399) / 400 == (year + 399) / 400 + n400;
    assert YearLength(year) == 365 + n4 - n100 + n400 by {
      NestedMultiples(year);
    }
  }

  lemma MonthGrows(leap: bool, month: int)
    requires 0 <= month < 12
    ensures DaysBeforeMonth(leap, month + 1) == DaysBeforeMonth(leap, month) + MonthLength(leap, month)
  {
  }

  lemma NestedMultiples(year: int)
    ensures year % 400 == 0 ==> year % 100 == 0
    ensures year % 100 == 0 ==> year % 4 == 0
  {
  }

  lemma ShiftQuotient(x: int, n: int, k: int)
    requires n == 4 || n == 100 || n == 400
    ensures (x + n * k) / n == x / n + k
    ensures (x + n * k) % n == x % n
  {
  }

  /** The Gregorian calendar repeats every 400 years, which are 146097 days and 20871 whole weeks. */
  lemma Period(year: int, k: int)
    ensures DaysBeforeYear(year + 400 * k) == DaysBeforeYear(year) + 146097 * k
    ensures IsLeap(year + 400 * k) == IsLeap(year)
    ensures Weekday(DaysBeforeYear(year + 400 * k)) == Weekday(DaysBeforeYear(year))
  {
    var y := year + 400 * k;
    assert (y + 3) / 4 == (year + 3) / 4 + 100 * k by { ShiftQuotient(year + 3, 4, 100 * k); }
    assert (y + 99) / 100 == (year + 99) / 100 + 4 * k by { ShiftQuotient(year + 99, 100, 4 * k); }
    assert (y + 399) / 400 == (year + 399) / 400 + k by { ShiftQuotient(year + 399, 400, k); }
    assert DaysBeforeYear(y) == DaysBeforeYear(year) + 146097 * k;
    assert IsLeap(y) == IsLeap(year) by {
      ShiftQuotient(year, 4, 100 * k);
      ShiftQuotient(year, 100, 4 * k);
      ShiftQuotient(year, 400, k);
    }
    WholeWeeks(DaysBeforeYear(year), 20871 * k);
  }

  lemma Eras(k: int)
    ensures DaysBeforeYear(400 * k) == 146097 * k
  {
    var y := 400 * k;
    assert (y + 3) / 4 == 100 * k by { ShiftQuotient(3, 4, 100 * k); }
    assert (y + 99) / 100 == 4 * k by { ShiftQuotient(99, 100, 4 * k); }
    assert (y + 399) / 400 == k by { ShiftQuotient(399, 400, k); }
  }

  lemma WholeWeeks(day: int, weeks: int)
    ensures Weekday(day + 7 * weeks) == Weekday(day)
  {
  }

  lemma YearsApart(y1: int, y2: int)
    requires y1 < y2
    ensures DaysBeforeYear(y1 + 1) <= DaysBeforeYear(y2)
    decreases y2 - y1
  {
    if y1 + 1 < y2 {
      YearGrows(y2 - 1);
      YearsApart(y1, y2 - 1);
    }
  }

  /** Lexicographic order on the n lowest fields, the highest field first. */
  predicate LexLe(a: Clock, b: Clock, n: nat)
    requires n <= 6
  {
    n == 0 || a[n - 1] < b[n - 1] || (a[n - 1] == b[n - 1] && LexLe(a, b, n - 1))
  }

  /** LexLe over all six fields, written out. */
  predicate Le(a: Clock, b: Clock)
    ensures Le(a, b) == LexLe(a, b, 6)
  {
    assert LexLe(a, b, 1) == (a[0] <= b[0]) by { assert LexLe(a, b, 0); }
    assert LexLe(a, b, 4) == (a[3] < b[3] || (a[3] == b[3] && LexLe(a, b, 3)));
    assert LexLe(a, b, 2) == (a[1] < b[1] || (a[1] == b[1] && LexLe(a, b, 1)));
    || a[YEAR] < b[YEAR]
    || (a[YEAR] == b[YEAR] && (a[MONTH] < b[MONTH] || (a[MONTH] == b[MONTH] && DayLe(a, b))))
  }

  predicate DayLe(a: Clock, b: Clock) {
    || a[DAY] < b[DAY]
    || (a[DAY] == b[DAY] && (a[HOUR] < b[HOUR] || (a[HOUR] == b[HOUR] && (a[MIN] < b[MIN] || (a[MIN] == b[MIN] && a[SEC] <= b[SEC])))))
  }

  /** On real dates, field order is order in time. */
  lemma LaterDate(a: Clock, b: Clock)
    requires Real(a) && Real(b)
    requires a[YEAR] < b[YEAR] || (a[YEAR] == b[YEAR] && a[MONTH] < b[MONTH])
      || (a[YEAR] == b[YEAR] && a[MONTH] == b[MONTH] && a[DAY] < b[DAY])
    ensures DayNumber(a) < DayNumber(b)
  {
    if a[YEAR] < b[YEAR] {
      YearGrows(a[YEAR]);
      YearsApart(a[YEAR], b[YEAR]);
    } else if a[MONTH] < b[MONTH] {
      MonthsApart(IsLeap(a[YEAR]), a[MONTH], b[MONTH]);
    }
  }

  lemma MonthsApart(leap: bool, m1: int, m2: int)
    requires 0 <= m1 < m2 < 12
    ensures DaysBeforeMonth(leap, m1) + MonthLength(leap, m1) <= DaysBeforeMonth(leap, m2)
  {
  }

  lemma InTimeOrder(a: Clock, b: Clock)
    requires Real(a) && Real(b)
    ensures Le(a, b) <==> Instant(a) <= Instant(b)
  {
    if a[5] != b[5] || a[4] != b[4] || a[3] != b[3] {
      if Le(a, b) { LaterDate(a, b); } else { LaterDate(b, a); }
    }
  }

  /** Every real broken-down time is the localtime of its mktime. */
  lemma RoundTrip(c: Clock)
    requires Real(c)
    ensures BrokenDown(Instant(c)) == c
  {
    var b := BrokenDown(Instant(c));
    InTimeOrder(b, c);
    InTimeOrder(c, b);
    assert forall i :: 0 <= i < 6 ==> b[i] == c[i];
  }

  // The instants are those of POSIX

  /** Days since 1 January, by the rule that the five months from March on have 153 days, and so do the next five. */
  function DayOfYear(c: Clock): int {
    c[DAY] + if c[MONTH] < 2 then 31 * c[MONTH] else 59 + (if IsLeap(c[YEAR]) then 1 else 0) + (153 * (c[MONTH] - 2) + 2) / 5
  }

  lemma DaysInYear(c: Clock)
    requires 0 <= c[MONTH] < 12
    ensures DayNumber(c) == DaysBeforeYear(c[YEAR]) + DayOfYear(c)
  {
    var m := c[MONTH];
    assert m == 0 || m == 1 || m == 2 || m == 3 || m == 4 || m == 5 || m == 6 || m == 7 || m == 8 || m == 9 || m == 10 || m == 11;
  }

  /** mktime is the formula for Seconds Since the Epoch (section 4.16 of POSIX.1-2017), for every year and every day of a month. */
  lemma PosixInstant(c: Clock)
    requires 0 <= c[MONTH] < 12
    ensures var year := c[YEAR] - 1900;
      Instant(c) == c[SEC] + c[MIN] * 60 + c[HOUR] * 3600 + DayOfYear(c) * 86400 + (year - 70) * 31536000
        + (year - 69) / 4 * 86400 - (year - 1) / 100 * 86400 + (year + 299) / 400 * 86400
  {
    var y := c[YEAR];
    DaysInYear(c);
    assert (y + 3) / 4 == (y - 1969) / 4 + 493 by { ShiftQuotient(y - 1969, 4, 493); }
    assert (y + 99) / 100 == (y - 1901) / 100 + 20 by { ShiftQuotient(y - 1901, 100, 20); }
    assert (y + 399) / 400 == (y - 1601) / 400 + 5 by { ShiftQuotient(y - 1601, 400, 5); }
  }

  lemma Quotient(x: int, d: int, r: int)
    requires x == d * 86400 + r && 0 <= r < 86400
    ensures x / 86400 == d
  {
  }

  lemma SinceThursday(day: int)
    ensures Weekday(day) == (day - EPOCH_DAY + 4) % 7
  {
    WholeWeeks(day - EPOCH_DAY - 2, 102790);
  }

  /** tm_wday: 1 January 1970 was a Thursday. */
  lemma PosixWeekday(t: int)
    ensures Weekday(DayNumber(BrokenDown(t))) == (t / 86400 + 4) % 7
  {
    var c := BrokenDown(t);
    Quotient(t, DayNumber(c) - EPOCH_DAY, c[HOUR] * 3600 + c[MIN] * 60 + c[SEC]);
    SinceThursday(DayNumber(c));
  }
}
