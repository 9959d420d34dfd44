/**
 * Calendar days as the source stores them: the "YYYY-MM-DD" prefix of
 * Date.prototype.toISOString(), and the time value new Date(s).getTime()
 * gives for such a string (UTC midnight of that day, in milliseconds).
 */
module Calendar {
  import opened Wrappers
  import opened Decimal

  datatype Date = Date(year: int, month: int, day: int)

  /** Leap years of the proleptic Gregorian calendar. */
  predicate IsLeapYear(y: int) {
    y % 4 == 0 && (y % 100 != 0 || y % 400 == 0)
  }

  function YearLength(y: int): int {
    if IsLeapYear(y) then 366 else 365
  }

  function DaysInMonth(y: int, m: int): (n: int)
    requires 1 <= m <= 12
    ensures 28 <= n <= 31
  {
    if m == 2 then (if IsLeapYear(y) then 29 else 28)
    else if m == 4 || m == 6 || m == 9 || m == 11 then 30
    else 31
  }

  /** A calendar day whose ISO text has a four-digit year. */
  predicate ValidDate(d: Date) {
    0 <= d.year <= 9999 && 1 <= d.month <= 12 && 1 <= d.day <= DaysInMonth(d.year, d.month)
  }

  type Day = d: Date | ValidDate(d) witness Date(1970, 1, 1)

  /** The order of the days themselves: year, then month, then day. */
  predicate Before(a: Date, b: Date) {
    a.year < b.year
    || (a.year == b.year && a.month < b.month)
    || (a.year == b.year && a.month == b.month && a.day < b.day)
  }

  /** Days from 0000-01-01 to 1 January of year y. */
  function YearStart(y: nat): nat {
    if y == 0 then 0 else YearStart(y - 1) + YearLength(y - 1)
  }

  /** Days from 1 January to the first of month m in year y. */
  function MonthStart(y: int, m: int): nat
    requires 1 <= m <= 12
  {
    [0, 31, 59, 90, 120, 151, 181, 212, 243, 273, 304, 334][m - 1]
      + (if m > 2 && IsLeapYear(y) then 1 else 0)
  }

  /** Days from 0000-01-01 to d. */
  function DayNumber(d: Day): nat {
    YearStart(d.year) + MonthStart(d.year, d.month) + d.day - 1
  }

  const MsPerDay: int := 86400000

  const Epoch: Day := Date(1970, 1, 1)

  /** new Date("YYYY-MM-DD").getTime(): milliseconds from the epoch to UTC midnight of d. */
  function TimeValue(d: Day): int {
    (DayNumber(d) - DayNumber(Epoch)) * MsPerDay
  }

  lemma MonthStartStep(y: int, m: int)
    requires 1 <= m <= 12
    ensures m < 12 ==> MonthStart(y, m) + DaysInMonth(y, m) == MonthStart(y, m + 1)
    ensures m == 12 ==> MonthStart(y, m) + DaysInMonth(y, m) == YearLength(y)
  {
  }

  lemma {:induction false} MonthStartBefore(y: int, m1: int, m2: int)
    requires 1 <= m1 < m2 <= 12
    ensures MonthStart(y, m1) + DaysInMonth(y, m1) <= MonthStart(y, m2)
    decreases m2
  {
    MonthStartStep(y, m2 - 1);
    if m1 < m2 - 1 {
      MonthStartBefore(y, m1, m2 - 1);
    }
  }

  lemma {:induction false} YearStartBefore(y1: nat, y2: nat)
    requires y1 < y2
    ensures YearStart(y1) + YearLength(y1) <= YearStart(y2)
    decreases y2
  {
    if y1 < y2 - 1 {
      YearStartBefore(y1, y2 - 1);
    }
  }

  /** A day later in the calendar has a larger day number. */
  lemma {:induction false} DayNumberIncreasing(a: Day, b: Day)
    requires Before(a, b)
    ensures DayNumber(a) < DayNumber(b)
  {
    if a.year < b.year {
      MonthStartStep(a.year, a.month);
      if a.month < 12 {
        MonthStartBefore(a.year, a.month, 12);
        MonthStartStep(a.year, 12);
      }
      YearStartBefore(a.year, b.year);
    } else if a.month < b.month {
      MonthStartBefore(a.year, a.month, b.month);
    }
  }

  /** getTime() orders ISO days exactly as the calendar does, and tells distinct days apart. */
  lemma TimeValueOrder(a: Day, b: Day)
    ensures TimeValue(a) < TimeValue(b) <==> Before(a, b)
    ensures TimeValue(a) == TimeValue(b) <==> a == b
  {
    if Before(a, b) {
      DayNumberIncreasing(a, b);
    } else if Before(b, a) {
      DayNumberIncreasing(b, a);
    }
  }

  /** The ISO text of d: "YYYY-MM-DD". */
  function DateText(d: Day): (s: string)
    ensures |s| == 10
  {
    PadText(d.year, 4) + "-" + PadText(d.month, 2) + "-" + PadText(d.day, 2)
  }

  /** Reads "YYYY-MM-DD" back as a valid day. */
  function ParseDate(s: string): Option<Day> {
    if |s| == 10 && s[4] == '-' && s[7] == '-'
       && AllDigits(s[..4]) && AllDigits(s[5..7]) && AllDigits(s[8..])
    then
      var d := Date(DigitsValue(s[..4]), DigitsValue(s[5..7]), DigitsValue(s[8..]));
      if ValidDate(d) then Some(d) else None
    else
      None
  }

  /** The stored text of a day determines the day. */
  lemma DateTextRoundTrip(d: Day)
    ensures ParseDate(DateText(d)) == Some(d)
  {
    var s := DateText(d);
    assert s[..4] == PadText(d.year, 4);
    assert s[5..7] == PadText(d.month, 2);
    assert s[8..] == PadText(d.day, 2);
    PadTextValue(d.year, 4);
    PadTextValue(d.month, 2);
    PadTextValue(d.day, 2);
  }

  /** The ISO text of a day holds only digits and '-'. */
  lemma DateTextChars(d: Day)
    ensures forall i :: 0 <= i < |DateText(d)| ==> IsDigit(DateText(d)[i]) || DateText(d)[i] == '-'
  {
  }
}
