/**
 * The proleptic Gregorian calendar as Python's `datetime` module reckons it:
 * leap years, month lengths, the ordinal day number (January 1 of year 1 is
 * day 1) and the weekday derived from it, and the English abbreviations that
 * `%a` and `%b` print and read.
 */
module Calendar {
  import opened Wrappers
  import opened Text

  datatype Date = Date(year: int, month: int, day: int)

  predicate IsLeap(year: int) {
    year % 4 == 0 && (year % 100 != 0 || year % 400 == 0)
  }

  function DaysInMonth(year: int, month: int): (n: int)
    requires 1 <= month <= 12
    ensures 28 <= n <= 31
    ensures n == 29 <==> month == 2 && IsLeap(year)
  {
    if month == 2 then (if IsLeap(year) then 29 else 28)
    else if month == 4 || month == 6 || month == 9 || month == 11 then 30
    else 31
  }

  /** A date `datetime.date` accepts: year 1 to 9999, a real month, a day the month has. */
  predicate IsValid(d: Date) {
    1 <= d.year <= 9999 && 1 <= d.month <= 12 && 1 <= d.day <= DaysInMonth(d.year, d.month)
  }

  function DaysBeforeYear(year: int): int
    requires year >= 1
  {
    var y := year - 1;
    y * 365 + y / 4 - y / 100 + y / 400
  }

  function DaysBeforeMonth(year: int, month: int): int
    requires 1 <= month <= 12
  {
    [0, 0, 31, 59, 90, 120, 151, 181, 212, 243, 273, 304, 334][month]
      + (if month > 2 && IsLeap(year) then 1 else 0)
  }

  /** `date.toordinal()`. */
  function ToOrdinal(d: Date): int
    requires IsValid(d)
  {
    DaysBeforeYear(d.year) + DaysBeforeMonth(d.year, d.month) + d.day
  }

  /** `date.weekday()`: 0 is Monday, 6 is Sunday. */
  function Weekday(d: Date): (w: nat)
    requires IsValid(d)
    ensures w < 7
  {
    (ToOrdinal(d) + 6) % 7
  }

  const WEEKDAY_ABBRS: seq<string> := ["Mon", "Tue", "Wed", "Thu", "Fri", "Sat", "Sun"]
  const MONTH_ABBRS: seq<string> :=
    ["Jan", "Feb", "Mar", "Apr", "May", "Jun", "Jul", "Aug", "Sep", "Oct", "Nov", "Dec"]

  lemma AbbreviationsAreWords()
    ensures |WEEKDAY_ABBRS| == 7 && |MONTH_ABBRS| == 12
    ensures forall w :: 0 <= w < 7 ==> |WEEKDAY_ABBRS[w]| == 3 && AllWordChars(WEEKDAY_ABBRS[w])
    ensures forall m :: 0 <= m < 12 ==> |MONTH_ABBRS[m]| == 3 && AllWordChars(MONTH_ABBRS[m])
  {
  }

  /** No two month abbreviations are equal, even ignoring case. */
  lemma MonthAbbreviationsDistinct(j: nat, k: nat)
    requires j < 12 && k < 12 && j != k
    ensures !SameIgnoringCase(MONTH_ABBRS[j], MONTH_ABBRS[k])
  {
    var a, b := MONTH_ABBRS[j], MONTH_ABBRS[k];
    assert Lower(a[0]) != Lower(b[0]) || Lower(a[1]) != Lower(b[1]) || Lower(a[2]) != Lower(b[2]);
  }

  /** `%b` read back: the abbreviation of month `m` is recognised as month `m`. */
  lemma {:induction false} MonthAbbreviationFound(m: nat, k: nat)
    requires k <= m < 12
    ensures IndexIgnoringCase(MONTH_ABBRS[m], MONTH_ABBRS, k) == Some(m)
    decreases m - k
  {
    if k < m {
      MonthAbbreviationsDistinct(m, k);
      MonthAbbreviationFound(m, k + 1);
    }
  }
}
