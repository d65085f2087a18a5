/** The textual form of a schedule: six ';'-separated levels of numbers, an empty level meaning all. */
module ScheduleText {
  import opened Calendar
  import opened Timetable

  datatype ScheduleError = NonNumeric | OutOfRange | Garbage | Impossible

  datatype Result<+T> = Success(value: T) | Failure(error: ScheduleError)

  predicate IsSpace(c: char) {
    c == ' ' || '\U{09}' <= c <= '\U{0D}'
  }

  predicate IsDigit(c: char) {
    '0' <= c <= '9'
  }

  function DigitValue(c: char): int {
    c as int - '0' as int
  }

  function SkipSpaces(s: string): (tail: string)
    ensures |tail| <= |s|
  {
    if s != [] && IsSpace(s[0]) then SkipSpaces(s[1..]) else s
  }

  function ReadDigits(s: string, v: int): (r: (int, string))
    ensures |r.1| <= |s|
    ensures s != [] && IsDigit(s[0]) ==> |r.1| < |s|
  {
    if s != [] && IsDigit(s[0]) then ReadDigits(s[1..], 10 * v + DigitValue(s[0])) else (v, s)
  }

  /** strtol in base 10: the value and what follows it; the whole text when there is no number. */
  function Strtol(s: string): (r: (int, string))
    ensures r.1 == s || |r.1| < |s|
  {
    var a := SkipSpaces(s);
    var b := if a != [] && (a[0] == '-' || a[0] == '+') then a[1..] else a;
    if b == [] || !IsDigit(b[0]) then (0, s)
    else
      var (v, tail) := ReadDigits(b, 0);
      (if a[0] == '-' then -v else v, tail)
  }

  predicate EndOfLevel(s: string) {
    s == [] || s[0] == ';'
  }

  function SkipComma(s: string): string {
    if s != [] && s[0] == ',' then s[1..] else s
  }

  predicate Within(values: set<int>, level: int) {
    forall v :: v in values ==> 0 <= v < LevelLength(level)
  }

  /** The numbers up to the end of a level; commas between them are optional. */
  function ReadLevel(s: string, level: int, values: set<int>): (r: Result<(set<int>, string)>)
    ensures r.Success? ==> EndOfLevel(r.value.1) && |r.value.1| <= |s|
    decreases |s|
  {
    if EndOfLevel(s) then Success((values, s))
    else
      var (v, tail) := Strtol(s);
      if tail == s then Failure(NonNumeric)
      else if v < 0 || v >= LevelLength(level) then Failure(OutOfRange)
      else ReadLevel(SkipComma(tail), level, values + {v})
  }

  function SkipSemicolon(s: string): string {
    if s != [] && s[0] == ';' then s[1..] else s
  }

  /** Levels from this one on. */
  function ReadLevels(s: string, level: int): (r: Result<(seq<set<int>>, string)>)
    requires 0 <= level <= 6
    ensures r.Success? ==> |r.value.0| == 6 - level
    decreases 6 - level
  {
    if level > WDAY then Success(([], s))
    else match ReadLevel(s, level, {})
      case Failure(e) => Failure(e)
      case Success((values, tail)) =>
        match ReadLevels(SkipSemicolon(tail), level + 1)
        case Failure(e) => Failure(e)
        case Success((rest, end)) => Success(([values] + rest, end))
  }

  function LevelAt(k: int): (level: int)
    requires 0 <= k < SCHEDULE_LENGTH
    ensures 0 <= level <= WDAY && 0 <= k - LevelOffset(level) < LevelLength(level)
  {
    if k < 60 then SEC else if k < 120 then MIN else if k < 144 then HOUR
    else if k < 175 then DAY else if k < 187 then MONTH else WDAY
  }

  predicate FlagOf(levels: seq<set<int>>, k: int)
    requires 0 <= k < SCHEDULE_LENGTH && LevelAt(k) < |levels|
  {
    var values := levels[LevelAt(k)];
    values == {} || k - LevelOffset(LevelAt(k)) in values
  }

  function TableOf(levels: seq<set<int>>): Table
    requires |levels| == 6
  {
    seq(SCHEDULE_LENGTH, k requires 0 <= k < SCHEDULE_LENGTH => FlagOf(levels, k))
  }

  /** A description, read without judging whether a date can satisfy it. */
  function Parse(s: string): Result<Table> {
    match ReadLevels(s, 0)
    case Failure(e) => Failure(e)
    case Success((levels, tail)) => if tail != [] then Failure(Garbage) else Success(TableOf(levels))
  }

  lemma FlagsByLevel(levels: seq<set<int>>, level: int, v: int)
    requires |levels| == 6 && 0 <= level <= WDAY && 0 <= v < LevelLength(level)
    ensures On(TableOf(levels), level, v) <==> levels[level] == {} || v in levels[level]
  {
    assert LevelAt(LevelOffset(level) + v) == level;
  }

  lemma {:induction false} LevelInRange(s: string, level: int, values: set<int>)
    requires ReadLevel(s, level, values).Success? && Within(values, level)
    ensures Within(ReadLevel(s, level, values).value.0, level)
    decreases |s|
  {
    if !EndOfLevel(s) {
      var (v, tail) := Strtol(s);
      LevelInRange(SkipComma(tail), level, values + {v});
    }
  }

  lemma {:induction false} LevelsInRange(s: string, level: int, i: int, levels: seq<set<int>>, tail: string)
    requires 0 <= level <= i <= WDAY && ReadLevels(s, level) == Success((levels, tail))
    ensures Within(levels[i - level], i)
    decreases i - level
  {
    if level < i {
      LevelsInRange(SkipSemicolon(ReadLevel(s, level, {}).value.1), level + 1, i, levels[1..], tail);
    } else {
      LevelInRange(s, level, {});
    }
  }

  lemma LevelNonEmpty(levels: seq<set<int>>, level: int)
    requires |levels| == 6 && 0 <= level <= WDAY && Within(levels[level], level)
    ensures SomeOn(TableOf(levels), level)
  {
    EmptyOrInhabited(levels[level]);
    if v :| v in levels[level] {
      FlagsByLevel(levels, level, v);
    } else {
      FlagsByLevel(levels, level, 0);
    }
  }

  lemma EmptyOrInhabited(values: set<int>)
    ensures values == {} || exists v :: v in values
  {
    if forall v :: v !in values {
      var none: set<int> := {};
      assert forall v :: v in values <==> v in none;
      assert values == none;
    }
  }

  /** What parsing yields allows something at every level. */
  lemma ParsedIsNonEmpty(s: string)
    requires Parse(s).Success?
    ensures NonEmpty(Parse(s).value)
  {
    ReadIsNonEmpty(s, ReadLevels(s, 0).value.0, "");
  }

  lemma ReadIsNonEmpty(s: string, levels: seq<set<int>>, tail: string)
    requires ReadLevels(s, 0) == Success((levels, tail))
    ensures NonEmpty(TableOf(levels)) && Within(levels[DAY], DAY)
  {
    forall level | 0 <= level <= WDAY
      ensures SomeOn(TableOf(levels), level) && Within(levels[level], level)
    {
      LevelsInRange(s, 0, level, levels, tail);
      LevelNonEmpty(levels, level);
    }
  }

  // What remains to be read is always an end of the text

  predicate IsSuffix(tail: string, s: string) {
    |tail| <= |s| && tail == s[|s| - |tail|..]
  }

  lemma {:induction false} SpacesSuffix(s: string)
    ensures IsSuffix(SkipSpaces(s), s)
    decreases |s|
  {
    if s != [] && IsSpace(s[0]) {
      SpacesSuffix(s[1..]);
    }
  }

  lemma {:induction false} DigitsSuffix(s: string, v: int)
    ensures IsSuffix(ReadDigits(s, v).1, s)
    decreases |s|
  {
    if s != [] && IsDigit(s[0]) {
      DigitsSuffix(s[1..], 10 * v + DigitValue(s[0]));
    }
  }

  /** strtol leaves its end pointer inside the text. */
  lemma StrtolSuffix(s: string)
    ensures IsSuffix(Strtol(s).1, s)
  {
    var a := SkipSpaces(s);
    SpacesSuffix(s);
    if a != [] && (a[0] == '-' || a[0] == '+') {
      DigitsSuffix(a[1..], 0);
    } else {
      DigitsSuffix(a, 0);
    }
  }

  /** The same end, counted as an index into the whole text. */
  lemma SuffixIndex(text: string, i: nat, tail: string)
    requires i <= |text| && IsSuffix(tail, text[i..])
    ensures i <= |text| - |tail| && text[|text| - |tail|..] == tail
  {
  }

  // The feasibility test

  /** The listed days' least, or 32; min_day in the program. */
  predicate IsMinDay(days: set<int>, minDay: int) {
    (minDay == 32 || minDay in days) && forall d :: d in days ==> minDay <= d
  }

  /** The test that makes the constructor refuse a schedule, flag by flag. */
  predicate RefusedByDays(t: Table, minDay: int) {
    || (minDay == 29 && !t[175] && !t[177] && !t[178] && !t[179] && !t[180] && !t[181] && !t[182] && !t[183] && !t[184] && !t[185] && !t[186])
    || (minDay == 30 && !t[175] && !t[177] && !t[179] && !t[181] && !t[182] && !t[184] && !t[186])
  }

  /** The constructor's test refuses exactly the tables no calendar date can satisfy. */
  lemma RefusedIffInfeasible(levels: seq<set<int>>, minDay: int)
    requires |levels| == 6 && IsMinDay(levels[DAY], minDay) && NonEmpty(TableOf(levels))
    requires Within(levels[DAY], DAY)
    ensures RefusedByDays(TableOf(levels), minDay) <==> !Feasible(TableOf(levels))
  {
    var t := TableOf(levels);
    assert forall d :: On(t, DAY, d) ==> FlagOf(levels, 144 + d) && LevelAt(144 + d) == DAY;
    assert SomeOn(t, MONTH);
    var m :| On(t, MONTH, m);
    var least := if minDay == 32 then 0 else minDay;
    LeastDayOn(levels, minDay, least);
    if RefusedByDays(t, minDay) {
      forall leap: bool, month, day | 0 <= month < 12 && 0 <= day < 31
        ensures !DateOn(t, leap, month, day)
      {
        if On(t, DAY, day) {
          assert least <= day;
          assert On(t, MONTH, month) == t[175 + month];
        }
      }
    } else if least == 29 || least == 30 {
      var month :=
        if t[175] then 0 else if t[177] then 2 else if t[179] then 4 else if t[181] then 6
        else if t[182] then 7 else if t[184] then 9 else if t[186] then 11
        else if t[178] then 3 else if t[180] then 5 else if t[183] then 8 else 10;
      assert DateOn(t, false, month, least);
    } else {
      assert DateOn(t, true, m, least);
    }
  }

  lemma LeastDayOn(levels: seq<set<int>>, minDay: int, least: int)
    requires |levels| == 6 && IsMinDay(levels[DAY], minDay) && Within(levels[DAY], DAY)
    requires least == if minDay == 32 then 0 else minDay
    ensures On(TableOf(levels), DAY, least)
    ensures forall d :: On(TableOf(levels), DAY, d) ==> least <= d
  {
    EmptyOrInhabited(levels[DAY]);
    FlagsByLevel(levels, DAY, least);
    forall d | On(TableOf(levels), DAY, d)
      ensures least <= d
    {
      FlagsByLevel(levels, DAY, d);
    }
  }

  // Writing a table out

  function DigitChar(d: int): char
    requires 0 <= d < 10
  {
    ('0' as int + d) as char
  }

  function Decimal(v: int): string
    requires 0 <= v < 60
  {
    if v < 10 then [DigitChar(v)] else [DigitChar(v / 10), DigitChar(v % 10)]
  }

  /** The allowed values of a level from v on, each followed by a comma. */
  function WriteLevel(t: Table, level: int, v: int): string
    requires 0 <= level <= WDAY && 0 <= v <= LevelLength(level)
    decreases LevelLength(level) - v
  {
    if v == LevelLength(level) then ""
    else (if On(t, level, v) then Decimal(v) + "," else "") + WriteLevel(t, level, v + 1)
  }

  function WriteLevels(t: Table, level: int): string
    requires 0 <= level <= 6
    decreases 6 - level
  {
    if level > WDAY then "" else WriteLevel(t, level, 0) + ";" + WriteLevels(t, level + 1)
  }

  function Describe(t: Table): string {
    WriteLevels(t, 0)
  }

  lemma ReadDigit(d: int, tail: string, v: int)
    requires 0 <= d < 10
    ensures ReadDigits([DigitChar(d)] + tail, v) == ReadDigits(tail, 10 * v + d)
  {
    assert ([DigitChar(d)] + tail)[1..] == tail;
  }

  lemma ReadTwoDigits(d: int, e: int, tail: string)
    requires 0 <= d < 10 && 0 <= e < 10
    ensures ReadDigits([DigitChar(d), DigitChar(e)] + tail, 0) == ReadDigits(tail, 10 * d + e)
  {
    var rest := [DigitChar(e)] + tail;
    assert [DigitChar(d), DigitChar(e)] + tail == [DigitChar(d)] + rest;
    ReadDigit(d, rest, 0);
    ReadDigit(e, tail, d);
  }

  lemma ReadsDecimal(v: int, tail: string)
    requires 0 <= v < 60
    ensures ReadDigits(Decimal(v) + tail, 0) == ReadDigits(tail, v)
  {
    if v < 10 {
      ReadDigit(v, tail, 0);
    } else {
      ReadTwoDigits(v / 10, v % 10, tail);
    }
  }

  lemma StrtolReadsDecimal(v: int, tail: string)
    requires 0 <= v < 60 && tail != [] && tail[0] == ','
    ensures Strtol(Decimal(v) + tail) == (v, tail)
  {
    var s := Decimal(v) + tail;
    ReadsDecimal(v, tail);
    assert IsDigit(s[0]);
    StrtolOfDigits(s);
  }

  lemma StrtolOfDigits(s: string)
    requires s != [] && IsDigit(s[0])
    ensures Strtol(s) == ReadDigits(s, 0)
  {
    assert SkipSpaces(s) == s;
  }

  lemma ReadWritten(v: int, rest: string, level: int, values: set<int>)
    requires 0 <= level <= WDAY && 0 <= v < LevelLength(level)
    ensures ReadLevel(Decimal(v) + ("," + rest), level, values) == ReadLevel(rest, level, values + {v})
  {
    var after := "," + rest;
    StrtolReadsDecimal(v, after);
    assert SkipComma(after) == rest;
  }

  /** The set of allowed values of a level from v on. */
  function ValuesFrom(t: Table, level: int, v: int): set<int>
    requires 0 <= level <= WDAY
  {
    set w | v <= w < LevelLength(level) && On(t, level, w)
  }

  lemma ValuesStep(t: Table, level: int, v: int, values: set<int>)
    requires On(t, level, v)
    ensures values + {v} + ValuesFrom(t, level, v + 1) == values + ValuesFrom(t, level, v)
  {
  }

  lemma WriteNone(t: Table, level: int, v: int)
    requires 0 <= level <= WDAY && 0 <= v < LevelLength(level) && !On(t, level, v)
    ensures WriteLevel(t, level, v) == WriteLevel(t, level, v + 1)
    ensures ValuesFrom(t, level, v + 1) == ValuesFrom(t, level, v)
  {
  }

  lemma WriteOne(t: Table, level: int, v: int, tail: string)
    requires On(t, level, v)
    ensures WriteLevel(t, level, v) + tail == Decimal(v) + ("," + (WriteLevel(t, level, v + 1) + tail))
  {
  }

  lemma OneMoreReadBack(t: Table, level: int, v: int, values: set<int>, tail: string, rest: string)
    requires On(t, level, v) && rest == WriteLevel(t, level, v + 1) + tail
    requires ReadLevel(rest, level, values + {v}) == Success((values + {v} + ValuesFrom(t, level, v + 1), tail))
    ensures ReadLevel(WriteLevel(t, level, v) + tail, level, values) == Success((values + ValuesFrom(t, level, v), tail))
  {
    WriteOne(t, level, v, tail);
    ReadWritten(v, rest, level, values);
    ValuesStep(t, level, v, values);
  }

  lemma {:induction false} LevelIsReadBack(t: Table, level: int, v: int, values: set<int>, tail: string, s: string)
    requires 0 <= level <= WDAY && 0 <= v <= LevelLength(level) && EndOfLevel(tail)
    requires s == WriteLevel(t, level, v) + tail
    ensures ReadLevel(s, level, values) == Success((values + ValuesFrom(t, level, v), tail))
    decreases LevelLength(level) - v
  {
    if v == LevelLength(level) {
      assert s == tail && values + ValuesFrom(t, level, v) == values;
    } else {
      var rest := WriteLevel(t, level, v + 1) + tail;
      if On(t, level, v) {
        LevelIsReadBack(t, level, v + 1, values + {v}, tail, rest);
        OneMoreReadBack(t, level, v, values, tail, rest);
      } else {
        WriteNone(t, level, v);
        assert s == rest && ValuesFrom(t, level, v) == ValuesFrom(t, level, v + 1);
        LevelIsReadBack(t, level, v + 1, values, tail, rest);
      }
    }
  }

  function LevelSets(t: Table, level: int): (sets: seq<set<int>>)
    requires 0 <= level <= 6
    ensures |sets| == 6 - level
    ensures forall i :: level <= i < 6 ==> sets[i - level] == ValuesFrom(t, i, 0)
    decreases 6 - level
  {
    if level > WDAY then [] else [ValuesFrom(t, level, 0)] + LevelSets(t, level + 1)
  }

  lemma {:induction false} LevelsAreReadBack(t: Table, level: int)
    requires 0 <= level <= 6
    ensures ReadLevels(WriteLevels(t, level), level) == Success((LevelSets(t, level), ""))
    decreases 6 - level
  {
    if level <= WDAY {
      var tail := ";" + WriteLevels(t, level + 1);
      assert WriteLevels(t, level) == WriteLevel(t, level, 0) + tail;
      LevelIsReadBack(t, level, 0, {}, tail, WriteLevels(t, level));
      assert {} + ValuesFrom(t, level, 0) == ValuesFrom(t, level, 0);
      assert SkipSemicolon(tail) == WriteLevels(t, level + 1);
      LevelsAreReadBack(t, level + 1);
    }
  }

  /** Every table that allows something at each level has a description, and parsing it gives the table back. */
  lemma DescriptionsRoundTrip(t: Table)
    requires NonEmpty(t)
    ensures Parse(Describe(t)) == Success(t)
  {
    LevelsAreReadBack(t, 0);
    SetsGiveTable(t, LevelSets(t, 0));
  }

  lemma SetsGiveTable(t: Table, levels: seq<set<int>>)
    requires NonEmpty(t) && |levels| == 6 && forall i :: 0 <= i < 6 ==> levels[i] == ValuesFrom(t, i, 0)
    ensures TableOf(levels) == t
  {
    forall k | 0 <= k < SCHEDULE_LENGTH
      ensures FlagOf(levels, k) == t[k]
    {
      var level := LevelAt(k);
      assert SomeOn(t, level);
      var v :| On(t, level, v);
      assert v in levels[level];
    }
  }
}
