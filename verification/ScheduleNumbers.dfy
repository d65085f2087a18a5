/** How the numbers of a schedule may be written: what strtol makes of spaces, a sign and digits. */
module ScheduleNumbers {
  import opened Calendar
  import opened Timetable
  import opened ScheduleText

  const SPACES := " \t\n\U{0B}\U{0C}\r"
  const DIGITS := "0123456789"

  ghost predicate All(s: string, chars: string) {
    forall i :: 0 <= i < |s| ==> s[i] in chars
  }

  predicate Begins(s: string, chars: string) {
    s != [] && s[0] in chars
  }

  /** The number that digits write, its last digit counting one. */
  function ValueOf(digits: string): int {
    if digits == [] then 0 else 10 * ValueOf(digits[..|digits| - 1]) + (digits[|digits| - 1] as int - '0' as int)
  }

  function Signed(sign: string, digits: string): int {
    if sign == "-" then -ValueOf(digits) else ValueOf(digits)
  }

  lemma CharacterClasses(c: char)
    ensures IsSpace(c) <==> c in SPACES
    ensures IsDigit(c) <==> c in DIGITS
    ensures c in SPACES ==> c !in "+-" && c !in DIGITS && c != ';'
    ensures c in "+-" ==> c !in DIGITS && c != ';'
    ensures c in DIGITS ==> c != ';'
  {
    assert SPACES == [' ', '\t', '\n', '\U{0B}', '\U{0C}', '\r'];
    assert DIGITS == ['0', '1', '2', '3', '4', '5', '6', '7', '8', '9'];
  }

  lemma {:induction false} SpacesAreSkipped(spaces: string, rest: string)
    requires All(spaces, SPACES) && !Begins(rest, SPACES)
    ensures SkipSpaces(spaces + rest) == rest
    decreases |spaces|
  {
    if spaces == [] {
      assert spaces + rest == rest;
      if rest != [] { CharacterClasses(rest[0]); }
    } else {
      assert (spaces + rest)[1..] == spaces[1..] + rest;
      CharacterClasses(spaces[0]);
      SpacesAreSkipped(spaces[1..], rest);
    }
  }

  lemma {:induction false} DigitsAreRead(digits: string, rest: string)
    requires digits != [] && All(digits, DIGITS)
    ensures ReadDigits(digits + rest, 0) == ReadDigits(rest, ValueOf(digits))
    decreases |digits|
  {
    var init, last := digits[..|digits| - 1], digits[|digits| - 1];
    LastDigit(init, last, rest);
    assert digits == init + [last];
    if init != [] {
      DigitsAreRead(init, [last] + rest);
    }
  }

  lemma LastDigit(init: string, last: char, rest: string)
    requires last in DIGITS
    ensures init + [last] + rest == init + ([last] + rest)
    ensures init == [] ==> init + ([last] + rest) == [last] + rest
    ensures ReadDigits([last] + rest, ValueOf(init)) == ReadDigits(rest, ValueOf(init + [last]))
  {
    CharacterClasses(last);
    assert ([last] + rest)[1..] == rest && (init + [last])[..|init|] == init;
  }

  lemma ReadingEnds(rest: string, v: int)
    requires !Begins(rest, DIGITS)
    ensures ReadDigits(rest, v) == (v, rest)
  {
    if rest != [] {
      CharacterClasses(rest[0]);
    }
  }

  /** A sign or none, then what has no sign of its own. */
  lemma SignIsTaken(sign: string, b: string)
    requires sign in ["", "+", "-"] && (sign == "" ==> !Begins(b, "+-"))
    ensures var a := sign + b;
      && b == (if a != [] && (a[0] == '-' || a[0] == '+') then a[1..] else a)
      && (a != [] && a[0] == '-' <==> sign == "-")
  {
    assert sign == "" ==> sign + b == b;
    assert sign != "" ==> (sign + b)[1..] == b;
  }

  /** strtol skips the spaces, takes the sign, and stops behind the last digit. */
  lemma StrtolReadsNumber(spaces: string, sign: string, digits: string, rest: string)
    requires All(spaces, SPACES) && sign in ["", "+", "-"] && digits != [] && All(digits, DIGITS) && !Begins(rest, DIGITS)
    ensures Strtol(spaces + (sign + (digits + rest))) == (Signed(sign, digits), rest)
  {
    var b := digits + rest;
    CharacterClasses(digits[0]);
    assert b[0] == digits[0];
    SignIsTaken(sign, b);
    SpacesAreSkipped(spaces, sign + b);
    DigitsAreRead(digits, rest);
    ReadingEnds(rest, ValueOf(digits));
  }

  /** A level takes a number within its range however it is written, and refuses any other. */
  lemma NumberIsTaken(spaces: string, sign: string, digits: string, rest: string, level: int, values: set<int>)
    requires All(spaces, SPACES) && sign in ["", "+", "-"] && digits != [] && All(digits, DIGITS) && !Begins(rest, DIGITS)
    ensures var v := Signed(sign, digits);
      ReadLevel(spaces + (sign + (digits + rest)), level, values) ==
        if 0 <= v < LevelLength(level) then ReadLevel(if Begins(rest, ",") then rest[1..] else rest, level, values + {v})
        else Failure(OutOfRange)
  {
    var s := spaces + (sign + (digits + rest));
    StrtolReadsNumber(spaces, sign, digits, rest);
    assert s[0] == if spaces != "" then spaces[0] else if sign != "" then sign[0] else digits[0];
    CharacterClasses(s[0]);
  }

  /** Anything else but the end of the level is not numeric: a sign without digits included. */
  lemma OtherTextIsRefused(spaces: string, sign: string, rest: string, level: int, values: set<int>)
    requires All(spaces, SPACES) && sign in ["", "+", "-"] && !Begins(rest, DIGITS)
    requires sign == "" ==> !Begins(rest, SPACES) && !Begins(rest, "+-")
    requires !EndOfLevel(spaces + (sign + rest))
    ensures ReadLevel(spaces + (sign + rest), level, values) == Failure(NonNumeric)
  {
    SignIsTaken(sign, rest);
    if sign != "" {
      CharacterClasses(sign[0]);
      assert (sign + rest)[0] == sign[0];
    }
    SpacesAreSkipped(spaces, sign + rest);
    if rest != [] {
      CharacterClasses(rest[0]);
    }
  }

  // What follows the six levels

  lemma {:induction false} LevelsBefore(t: Table, level: int, x: string)
    requires 0 <= level <= 6
    ensures ReadLevels(WriteLevels(t, level) + x, level) == Success((LevelSets(t, level), x))
    decreases 6 - level
  {
    if level <= WDAY {
      var more := WriteLevels(t, level + 1) + x;
      var tail := ";" + more;
      LevelThen(t, level, x);
      LevelIsReadBack(t, level, 0, {}, tail, WriteLevels(t, level) + x);
      assert {} + ValuesFrom(t, level, 0) == ValuesFrom(t, level, 0);
      assert SkipSemicolon(tail) == more;
      LevelsBefore(t, level + 1, x);
    } else {
      assert WriteLevels(t, level) + x == x;
    }
  }

  lemma LevelThen(t: Table, level: int, x: string)
    requires 0 <= level <= WDAY
    ensures WriteLevels(t, level) + x == WriteLevel(t, level, 0) + (";" + (WriteLevels(t, level + 1) + x))
  {
  }

  /** Any text behind six levels is garbage. */
  lemma MoreTextIsGarbage(t: Table, x: string)
    requires x != ""
    ensures Parse(Describe(t) + x) == Failure(Garbage)
  {
    LevelsBefore(t, 0, x);
  }
}
