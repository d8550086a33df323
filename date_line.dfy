/**
 * The date of a session: the regular expression that picks the weekday, day
 * and month out of the date line, the `strptime` call that turns them into a
 * calendar date, and the `strftime` rendering with the ordinal suffix
 * (check_footy.py, `Class.date`, `Class.date_string`, `Class.get_day_suffix`).
 */
module DateLine {
  import opened Wrappers
  import opened Errors
  import opened Text
  import opened Calendar

  /**
   * The shape `^(\w+) (\d+)\w\w (\w+)` at the start of `line`: the weekday
   * group is [0, a), a space, the day digits [a + 1, b), two word characters
   * at b and b + 1, a space, and the month group [b + 3, e).
   */
  ghost predicate PatternAt(line: string, a: int, b: int, e: int) {
    && 0 < a && a + 1 < b && b + 3 < e <= |line|
    && WordCharsIn(line, 0, a) && line[a] == ' '
    && DigitsIn(line, a + 1, b)
    && IsWordChar(line[b]) && IsWordChar(line[b + 1]) && line[b + 2] == ' '
    && WordCharsIn(line, b + 3, e)
  }

  ghost predicate MatchesPattern(line: string) {
    exists a, b, e :: PatternAt(line, a, b, e)
  }

  /**
   * `re.match(r'^(\w+) (\d+)\w\w (\w+)', line).groups()`, or None when the
   * line does not start with that shape. Since digits are word characters,
   * `(\d+)\w\w` followed by a space is a whole run of word characters whose
   * last two are the ordinal characters; the last group is as long as it can be.
   */
  function MatchDateLine(line: string): (r: Option<(string, string, string)>)
    ensures r.Some? ==>
      && r.value.0 != [] && AllWordChars(r.value.0)
      && r.value.1 != [] && AllDigits(r.value.1)
      && r.value.2 != [] && AllWordChars(r.value.2)
      && |r.value.0| < |line| && line[..|r.value.0| + 1] == r.value.0 + " "
  {
    var a := WordRunFrom(line, 0);
    if a == 0 || a == |line| || line[a] != ' ' then None
    else
      var n := WordRunFrom(line, a + 1);
      if n < 3 || a + 1 + n == |line| || line[a + 1 + n] != ' ' then None
      else
        var b := a + n - 1;
        if !DigitsIn(line, a + 1, b) then None
        else
          var m := WordRunFrom(line, b + 3);
          if m == 0 then None
          else Some((line[..a], line[a + 1..b], line[b + 3..b + 3 + m]))
  }

  /**
   * What the match returns has the shape: the groups sit where the shape
   * puts them, and the month group cannot be extended by a word character.
   */
  lemma MatchDateLineSound(line: string)
    requires MatchDateLine(line).Some?
    ensures
      var r := MatchDateLine(line).value;
      var a := |r.0|;
      var b := a + 1 + |r.1|;
      var e := b + 3 + |r.2|;
      && PatternAt(line, a, b, e)
      && r == (line[..a], line[a + 1..b], line[b + 3..e])
      && (e == |line| || !IsWordChar(line[e]))
      && AllDigits(r.1)
  {
  }

  /** The match, read off the three runs of word characters it takes. */
  lemma MatchDateLineFromRuns(line: string, a: nat, b: nat, m: nat)
    requires 0 < a < |line| && WordRunFrom(line, 0) == a && line[a] == ' '
    requires a + 1 < b && b + 2 < |line| && WordRunFrom(line, a + 1) == b + 1 - a && line[b + 2] == ' '
    requires DigitsIn(line, a + 1, b)
    requires 0 < m && WordRunFrom(line, b + 3) == m
    ensures MatchDateLine(line) == Some((line[..a], line[a + 1..b], line[b + 3..b + 3 + m]))
  {
  }

  /** Where the shape occurs, the three runs of word characters end where it says. */
  lemma PatternRuns(line: string, a: int, b: int, e: int)
    requires PatternAt(line, a, b, e)
    ensures WordRunFrom(line, 0) == a
    ensures WordRunFrom(line, a + 1) == b + 1 - a
    ensures e <= b + 3 + WordRunFrom(line, b + 3)
  {
    WordRunFromIs(line, 0, a);
    assert WordCharsIn(line, a + 1, b + 2);
    WordRunFromIs(line, a + 1, b + 1 - a);
    WordRunFromAtLeast(line, b + 3, e - b - 3);
  }

  /**
   * Wherever the shape occurs at the start of the line, the match finds it,
   * and its groups are the weekday word, the digits before the two ordinal
   * characters, and the longest run of word characters after the second space.
   */
  lemma MatchDateLineExact(line: string, a: int, b: int, e: int)
    requires PatternAt(line, a, b, e)
    ensures e <= b + 3 + WordRunFrom(line, b + 3)
    ensures MatchDateLine(line) == Some(GroupsAt(line, a, b))
  {
    PatternRuns(line, a, b, e);
    MatchDateLineFromRuns(line, a, b, WordRunFrom(line, b + 3));
  }

  /** The match succeeds exactly on the lines that start with the shape. */
  lemma MatchDateLineIff(line: string)
    ensures MatchDateLine(line).Some? <==> MatchesPattern(line)
  {
    var r := MatchDateLine(line);
    if r.Some? {
      MatchDateLineSound(line);
      var a := |r.value.0|;
      var b := a + 1 + |r.value.1|;
      var e := b + 3 + |r.value.2|;
      assert PatternAt(line, a, b, e);
    }
    forall a, b, e | PatternAt(line, a, b, e) ensures r.Some? {
      MatchDateLineExact(line, a, b, e);
    }
  }

  /** The groups a match at [0, a), [a + 1, b) and from b + 3 on returns. */
  ghost function GroupsAt(line: string, a: int, b: int): (string, string, string)
    requires 0 < a && a + 1 < b && b + 3 <= |line|
  {
    (line[..a], line[a + 1..b], line[b + 3..b + 3 + WordRunFrom(line, b + 3)])
  }

  /** The groups depend only on the weekday and day text and on the text from the month on. */
  lemma GroupsAtAgree(line: string, line': string, a: int, b: int)
    requires 0 < a && a + 1 < b && b + 3 <= |line| && b + 3 <= |line'|
    requires line'[..a] == line[..a] && line'[a + 1..b] == line[a + 1..b]
    requires line'[b + 3..] == line[b + 3..]
    ensures GroupsAt(line', a, b) == GroupsAt(line, a, b)
  {
    WordRunFromSuffix(line, line', b + 3);
    var m := WordRunFrom(line, b + 3);
    assert line'[b + 3..b + 3 + m] == line'[b + 3..][..m];
    assert line[b + 3..b + 3 + m] == line[b + 3..][..m];
  }

  /** Replacing the ordinal characters by word characters keeps the shape and the other text. */
  lemma OrdinalReplaced(line: string, a: int, b: int, e: int, x: char, y: char)
    requires PatternAt(line, a, b, e)
    requires IsWordChar(x) && IsWordChar(y)
    ensures var line' := line[b := x][b + 1 := y];
      && PatternAt(line', a, b, e)
      && line'[..a] == line[..a] && line'[a + 1..b] == line[a + 1..b]
      && line'[b + 3..] == line[b + 3..]
  {
    var line' := line[b := x][b + 1 := y];
    assert line'[..a] == line[..a];
    assert line'[a + 1..b] == line[a + 1..b];
    assert line'[b + 3..] == line[b + 3..];
    assert WordCharsIn(line', 0, a);
    assert DigitsIn(line', a + 1, b);
    assert WordCharsIn(line', b + 3, e);
  }

  /**
   * The two ordinal characters are never looked at: replacing them by any
   * other word characters does not change the match.
   */
  lemma OrdinalCharsUnchecked(line: string, a: int, b: int, e: int, x: char, y: char)
    requires PatternAt(line, a, b, e)
    requires IsWordChar(x) && IsWordChar(y)
    ensures MatchDateLine(line[b := x][b + 1 := y]) == MatchDateLine(line)
  {
    var line' := line[b := x][b + 1 := y];
    OrdinalReplaced(line, a, b, e, x, y);
    MatchDateLineExact(line, a, b, e);
    MatchDateLineExact(line', a, b, e);
    GroupsAtAgree(line, line', a, b);
  }

  /** `s` is the abbreviation of weekday `w` (0 is Monday), ignoring case. */
  predicate NamesWeekday(s: string, w: int) {
    0 <= w < 7 && SameIgnoringCase(s, WEEKDAY_ABBRS[w])
  }

  /** `s` is the abbreviation of month `m` (1 is January), ignoring case. */
  predicate NamesMonth(s: string, m: int) {
    1 <= m <= 12 && SameIgnoringCase(s, MONTH_ABBRS[m - 1])
  }

  /**
   * `datetime.strptime(f'{dw} {dm} {mo} {year}', '%a %d %b %Y')`. None of the
   * three groups holds whitespace, so each directive must consume its whole
   * group: `%a` a weekday abbreviation and `%b` a month abbreviation (ASCII
   * case ignored; full names are refused), `%d` one or two digits,
   * `%Y` exactly four digits; the date must then exist. The weekday that was
   * read is not used for the result.
   */
  function Strptime(dw: string, dm: string, mo: string, year: int): (r: Result<Date, Error>)
    requires AllDigits(dm)
    ensures r.Ok? ==>
      && IsValid(r.value) && r.value.year == year && r.value.day == DigitsValue(dm)
      && NamesMonth(mo, r.value.month)
    ensures r.Ok? <==>
      && (exists w :: NamesWeekday(dw, w))
      && 1 <= |dm| <= 2
      && (exists m :: NamesMonth(mo, m) && IsValid(Date(year, m, DigitsValue(dm))))
      && 1000 <= year
    ensures r.Err? ==> r.error == BadDate
  {
    var weekday := IndexIgnoringCase(dw, WEEKDAY_ABBRS, 0);
    var month := IndexIgnoringCase(mo, MONTH_ABBRS, 0);
    if weekday.None? || !(1 <= |dm| <= 2) || month.None? || !(1000 <= year <= 9999) then
      assert month.Some? ==> IsValid(Date(year, month.value + 1, DigitsValue(dm))) ==> year <= 9999;
      Err(BadDate)
    else
      var d := Date(year, month.value + 1, DigitsValue(dm));
      assert NamesWeekday(dw, weekday.value);
      assert NamesMonth(mo, d.month);
      assert forall m :: NamesMonth(mo, m) ==> m == d.month by {
        forall m | NamesMonth(mo, m) ensures m == d.month {
          if m != d.month {
            MonthAbbreviationsDistinct(m - 1, month.value);
          }
        }
      }
      if IsValid(d) then Ok(d) else Err(BadDate)
  }

  /** Whichever weekday abbreviation the line names, the date read is the same. */
  lemma WeekdayTokenIgnored(dw1: string, dw2: string, w1: nat, w2: nat, dm: string, mo: string, year: int)
    requires AllDigits(dm)
    requires NamesWeekday(dw1, w1) && NamesWeekday(dw2, w2)
    ensures Strptime(dw1, dm, mo, year) == Strptime(dw2, dm, mo, year)
  {
    assert IndexIgnoringCase(dw1, WEEKDAY_ABBRS, 0).Some?;
    assert IndexIgnoringCase(dw2, WEEKDAY_ABBRS, 0).Some?;
  }

  /**
   * A month written out in full ("June") or any month word other than three
   * letters long is refused: where the shape ends its month run there, the
   * date line gives ValueError.
   */
  lemma MonthNameMustBeAbbreviated(line: string, a: int, b: int, e: int, year: int)
    requires PatternAt(line, a, b, e) && (e == |line| || !IsWordChar(line[e]))
    requires e - (b + 3) != 3
    ensures ParseDateLine(line, year) == Err(BadDate)
  {
    MatchDateLineExact(line, a, b, e);
    WordRunFromIs(line, b + 3, e - b - 3);
    var g := GroupsAt(line, a, b);
    ParseDateLineOfMatch(line, year, g.0, g.1, g.2);
    StrptimeNeedsThreeLetterMonth(g.0, g.1, g.2, year);
  }

  /** No month abbreviation, whatever its case, is other than three letters long. */
  lemma StrptimeNeedsThreeLetterMonth(dw: string, dm: string, mo: string, year: int)
    requires AllDigits(dm) && |mo| != 3
    ensures Strptime(dw, dm, mo, year) == Err(BadDate)
  {
    AbbreviationsAreWords();
  }

  /**
   * `Class.date` applied to its date line: None when the line does not have
   * the shape, the date in `year` when `strptime` accepts the groups, and
   * `strptime`'s ValueError otherwise.
   */
  function ParseDateLine(line: string, year: int): (r: Result<Option<Date>, Error>)
    ensures r == Ok(None) <==> !MatchesPattern(line)
    ensures r.Ok? && r.value.Some? ==> IsValid(r.value.value) && r.value.value.year == year
    ensures r.Err? ==> r.error == BadDate && MatchesPattern(line)
  {
    MatchDateLineIff(line);
    match MatchDateLine(line)
    case None => Ok(None)
    case Some((dw, dm, mo)) =>
      MatchDateLineSound(line);
      match Strptime(dw, dm, mo, year)
      case Ok(d) => Ok(Some(d))
      case Err(e) => Err(e)
  }

  /** `Class.get_day_suffix`: the suffix chosen from the last digit of the day alone. */
  function DaySuffix(day: int): (r: string)
    ensures r == "st" <==> day % 10 == 1
    ensures r == "nd" <==> day % 10 == 2
    ensures r == "rd" <==> day % 10 == 3
    ensures r == "th" <==> !(1 <= day % 10 <= 3)
    ensures |r| == 2 && AllWordChars(r)
  {
    var unit := day % 10;
    if unit == 1 then "st"
    else if unit == 2 then "nd"
    else if unit == 3 then "rd"
    else "th"
  }

  /** The naive rule gives the 11th, 12th and 13th the suffixes of the 1st, 2nd and 3rd. */
  lemma TeenDaysKeepUnitSuffix(day: int)
    requires 11 <= day % 100 <= 13
    ensures DaySuffix(day) == ["st", "nd", "rd"][day % 100 - 11]
  {
    var q := day / 100;
    assert day == 100 * q + day % 100;
    assert day % 10 == (day % 100) % 10 by {
      assert day == 10 * (10 * q) + day % 100;
    }
  }

  /**
   * `Class.date_string`: `date.strftime(f'%a %d{suffix} %b')`, the weekday
   * recomputed from the date, the day with two digits, the suffix and the month.
   */
  function DateString(d: Date): (r: string)
    requires IsValid(d)
    ensures |r| == 12 && Printable(r)
  {
    AbbreviationsAreWords();
    var r := WEEKDAY_ABBRS[Weekday(d)] + " " + TwoDigits(d.day) + DaySuffix(d.day) + " " + MONTH_ABBRS[d.month - 1];
    assert forall i :: 0 <= i < 12 ==> IsWordChar(r[i]) || r[i] == ' ' by {
      forall i | 0 <= i < 12 ensures IsWordChar(r[i]) || r[i] == ' ' {
        if i < 3 {
          assert r[i] == WEEKDAY_ABBRS[Weekday(d)][i];
        } else if 4 <= i < 6 {
          assert r[i] == TwoDigits(d.day)[i - 4];
        } else if 6 <= i < 8 {
          assert r[i] == DaySuffix(d.day)[i - 6];
        } else if 9 <= i {
          assert r[i] == MONTH_ABBRS[d.month - 1][i - 9];
        }
      }
    }
    r
  }

  /**
   * The fields of the rendering: the weekday abbreviation, a space, the day
   * with two digits, the naive suffix of that day, a space and the month
   * abbreviation.
   */
  lemma DateStringFields(d: Date)
    requires IsValid(d)
    ensures var r := DateString(d);
      && r[..3] == WEEKDAY_ABBRS[Weekday(d)] && r[3] == ' '
      && r[4..6] == TwoDigits(d.day) && r[6..8] == DaySuffix(d.day)
      && r[8] == ' ' && r[9..] == MONTH_ABBRS[d.month - 1]
  {
    var wd, dd, sx, mn := WEEKDAY_ABBRS[Weekday(d)], TwoDigits(d.day), DaySuffix(d.day), MONTH_ABBRS[d.month - 1];
    var r := DateString(d);
    assert r == wd + " " + dd + sx + " " + mn;
    assert r[..3] == wd;
    assert r[4..6] == dd;
    assert r[6..8] == sx;
    assert r[9..] == mn;
  }

  /** The rendered date keeps the naive suffix: 11 June 2025 renders as "Wed 11st Jun". */
  lemma EleventhRendered()
    ensures DateString(Date(2025, 6, 11)) == "Wed 11st Jun"
  {
    assert ToOrdinal(Date(2025, 6, 11)) == 739413;
    assert Weekday(Date(2025, 6, 11)) == 2;
    assert TwoDigits(11) == "11";
  }

  /** A line that starts with a rendered date has the shape, with the month run ending at 12. */
  lemma DateStringShape(d: Date, rest: string)
    requires IsValid(d)
    requires rest == [] || !IsWordChar(rest[0])
    ensures var line := DateString(d) + rest;
      && PatternAt(line, 3, 6, 12) && WordRunFrom(line, 9) == 3
      && line[..3] == WEEKDAY_ABBRS[Weekday(d)] && line[4..6] == TwoDigits(d.day)
      && line[9..12] == MONTH_ABBRS[d.month - 1]
  {
    AbbreviationsAreWords();
    var wd, dd, sx, mn := WEEKDAY_ABBRS[Weekday(d)], TwoDigits(d.day), DaySuffix(d.day), MONTH_ABBRS[d.month - 1];
    var line := DateString(d) + rest;
    assert line == wd + " " + dd + sx + " " + mn + rest;
    assert line[..3] == wd;
    assert line[4..6] == dd;
    assert line[6] == sx[0] && line[7] == sx[1];
    assert line[9..12] == mn;
    assert PatternAt(line, 3, 6, 12);
    WordRunFromIs(line, 9, 3);
  }

  /** The match on a rendered date returns its weekday, day and month text. */
  lemma DateStringMatch(d: Date, rest: string)
    requires IsValid(d)
    requires rest == [] || !IsWordChar(rest[0])
    ensures MatchDateLine(DateString(d) + rest) ==
      Some((WEEKDAY_ABBRS[Weekday(d)], TwoDigits(d.day), MONTH_ABBRS[d.month - 1]))
  {
    DateStringShape(d, rest);
    MatchDateLineExact(DateString(d) + rest, 3, 6, 12);
  }

  /**
   * Reading a rendered date back: a line that starts with `DateString(d)`
   * (and does not continue its month with a word character) parses, in any
   * year, to the same month and day in that year, or to ValueError when that
   * date does not exist there.
   */
  lemma DateStringReadBack(d: Date, rest: string, year: int)
    requires IsValid(d)
    requires rest == [] || !IsWordChar(rest[0])
    ensures ParseDateLine(DateString(d) + rest, year) ==
      if 1000 <= year && IsValid(Date(year, d.month, d.day))
      then Ok(Some(Date(year, d.month, d.day)))
      else Err(BadDate)
  {
    DateStringMatch(d, rest);
    ParseDateLineOfMatch(DateString(d) + rest, year, WEEKDAY_ABBRS[Weekday(d)], TwoDigits(d.day), MONTH_ABBRS[d.month - 1]);
    StrptimeRendered(d, year);
  }

  /** `Class.date` once the match has returned its groups. */
  lemma ParseDateLineOfMatch(line: string, year: int, dw: string, dm: string, mo: string)
    requires MatchDateLine(line) == Some((dw, dm, mo))
    ensures AllDigits(dm)
    ensures ParseDateLine(line, year) ==
      match Strptime(dw, dm, mo, year)
      case Ok(x) => Ok(Some(x))
      case Err(e) => Err(e)
  {
    MatchDateLineSound(line);
  }

  /** `strptime` on the parts of a rendered date. */
  lemma StrptimeRendered(d: Date, year: int)
    requires IsValid(d)
    ensures Strptime(WEEKDAY_ABBRS[Weekday(d)], TwoDigits(d.day), MONTH_ABBRS[d.month - 1], year) ==
      if 1000 <= year && IsValid(Date(year, d.month, d.day))
      then Ok(Date(year, d.month, d.day))
      else Err(BadDate)
  {
    AbbreviationsAreWords();
    assert IndexIgnoringCase(WEEKDAY_ABBRS[Weekday(d)], WEEKDAY_ABBRS, 0).Some?;
    MonthAbbreviationFound(d.month - 1, 0);
  }

  /** The weekday is written from the date, not copied: 3 June 2025 is a Tuesday. */
  lemma WeekdayRecomputed()
    ensures DateString(Date(2025, 6, 3)) == "Tue 03rd Jun"
  {
    assert ToOrdinal(Date(2025, 6, 3)) == 739405;
    assert Weekday(Date(2025, 6, 3)) == 1;
    assert TwoDigits(3) == "03";
  }

  /**
   * The rendering depends on the year through the weekday: the same day of
   * the same month renders differently a year later.
   */
  lemma NewYearShiftsWeekday()
    ensures DateString(Date(2025, 1, 2)) == "Thu 02nd Jan"
    ensures DateString(Date(2026, 1, 2)) == "Fri 02nd Jan"
  {
    assert ToOrdinal(Date(2025, 1, 2)) == 739253;
    assert Weekday(Date(2025, 1, 2)) == 3;
    assert ToOrdinal(Date(2026, 1, 2)) == 739618;
    assert Weekday(Date(2026, 1, 2)) == 4;
    assert TwoDigits(2) == "02";
  }

  /** The line "Thu 02nd Jan" reads as 2 January of whichever year the run is in. */
  lemma NewYearReadsLine()
    ensures ParseDateLine("Thu 02nd Jan", 2025) == Ok(Some(Date(2025, 1, 2)))
    ensures ParseDateLine("Thu 02nd Jan", 2026) == Ok(Some(Date(2026, 1, 2)))
  {
    var d := Date(2025, 1, 2);
    NewYearShiftsWeekday();
    assert DateString(d) + [] == "Thu 02nd Jan";
    DateStringReadBack(d, [], 2025);
    assert IsValid(Date(2026, 1, 2)) by {
      assert DaysInMonth(2026, 1) == 31;
    }
    DateStringReadBack(d, [], 2026);
  }

  /** Rendering and reading back in the date's own year gives the date again. */
  lemma DateStringRoundTrip(d: Date, rest: string)
    requires IsValid(d) && 1000 <= d.year
    requires rest == [] || !IsWordChar(rest[0])
    ensures ParseDateLine(DateString(d) + rest, d.year) == Ok(Some(d))
  {
    DateStringReadBack(d, rest, d.year);
  }

  /** The rendered date tells apart any two days of the year, but not the year. */
  lemma DateStringDeterminesDay(d1: Date, d2: Date)
    requires IsValid(d1) && IsValid(d2)
    ensures DateString(d1) == DateString(d2) ==> d1.month == d2.month && d1.day == d2.day
  {
    if DateString(d1) == DateString(d2) {
      DateStringReadBack(d1, [], 2000);
      DateStringReadBack(d2, [], 2000);
      assert DateString(d1) + [] == DateString(d1);
      assert DateString(d2) + [] == DateString(d2);
    }
  }
}
