/** The day indexer (utils/dateUtils.ts): the ordinal day of a date within
    its year, the length of that year under the Gregorian leap rule, and the
    `current/total` label. The source measures milliseconds from local
    midnight of "January 0" and corrects for the time-zone offset; for a
    valid local-midnight date that difference is a whole number of days, so
    it is stated here as calendar arithmetic. */
module DateUtils {
  import opened Types
  import opened Text

  /** A calendar date; `month` runs from 1 (January) to 12. */
  datatype Date = Date(year: int, month: int, day: int)

  /** The Gregorian leap rule. JavaScript's `%` truncates where Dafny's is
      Euclidean, but the two agree on whether the remainder is zero, so the
      rule reads the same for negative years. */
  function IsLeap(y: int): (leap: bool)
    ensures leap ==> y % 4 == 0
    ensures y % 100 != 0 ==> (leap <==> y % 4 == 0)
    ensures y % 100 == 0 ==> (leap <==> y % 400 == 0)
  {
    (y % 4 == 0 && y % 100 != 0) || y % 400 == 0
  }

  /** `totalDays`: 366 in a leap year, 365 otherwise. */
  function YearLength(y: int): (n: int)
    ensures n == 365 || n == 366
    ensures n == 366 <==> IsLeap(y)
  {
    if IsLeap(y) then 366 else 365
  }

  function DaysInMonth(y: int, m: int): (n: int)
    requires 1 <= m <= 12
    ensures 28 <= n <= 31
  {
    if m == 2 then (if IsLeap(y) then 29 else 28)
    else if m == 4 || m == 6 || m == 9 || m == 11 then 30
    else 31
  }

  predicate ValidDate(d: Date) {
    1 <= d.month <= 12 && 1 <= d.day <= DaysInMonth(d.year, d.month)
  }

  /** The number of days in the months before month `m` of year `y`. */
  function DaysBefore(y: int, m: int): (n: int)
    requires 1 <= m <= 13
    ensures n >= 0
  {
    if m == 1 then 0 else DaysBefore(y, m - 1) + DaysInMonth(y, m - 1)
  }

  /** The ordinal day: whole days from "January 0" to the date. Every valid
      date has an ordinal between 1 and the year's length. */
  function DayOfYear(d: Date): (n: int)
    requires ValidDate(d)
    ensures 1 <= n <= YearLength(d.year)
  {
    DaysBeforeGrows(d.year, d.month, 13);
    MonthsFillYear(d.year);
    DaysBefore(d.year, d.month) + d.day
  }

  /** The months of a year add up to its length. */
  lemma MonthsFillYear(y: int)
    ensures DaysBefore(y, 13) == YearLength(y)
  {
    var feb := DaysInMonth(y, 2);
    assert DaysBefore(y, 2) == 31;
    assert DaysBefore(y, 3) == 31 + feb;
    assert DaysBefore(y, 4) == 62 + feb;
    assert DaysBefore(y, 5) == 92 + feb;
    assert DaysBefore(y, 6) == 123 + feb;
    assert DaysBefore(y, 7) == 153 + feb;
    assert DaysBefore(y, 8) == 184 + feb;
    assert DaysBefore(y, 9) == 215 + feb;
    assert DaysBefore(y, 10) == 245 + feb;
    assert DaysBefore(y, 11) == 276 + feb;
    assert DaysBefore(y, 12) == 306 + feb;
    assert DaysBefore(y, 13) == 337 + feb;
  }

  /** Earlier months leave room for the whole of the later ones. */
  lemma {:induction false} DaysBeforeGrows(y: int, m: int, k: int)
    requires 1 <= m <= k <= 13
    ensures DaysBefore(y, m) <= DaysBefore(y, k)
    ensures m < k ==> DaysBefore(y, m) + DaysInMonth(y, m) <= DaysBefore(y, k)
    decreases k - m
  {
    if m < k {
      DaysBeforeGrows(y, m + 1, k);
    }
  }

  /** 1 January is day 1 and 31 December is the last day of the year. */
  lemma FirstAndLastDay(y: int)
    ensures DayOfYear(Date(y, 1, 1)) == 1
    ensures DayOfYear(Date(y, 12, 31)) == YearLength(y)
  {
    MonthsFillYear(y);
  }

  /** The calendar day after `d`. */
  function NextDay(d: Date): (n: Date)
    requires ValidDate(d)
    ensures ValidDate(n)
  {
    if d.day < DaysInMonth(d.year, d.month) then Date(d.year, d.month, d.day + 1)
    else if d.month < 12 then Date(d.year, d.month + 1, 1)
    else Date(d.year + 1, 1, 1)
  }

  /** The next day in the same year has the next ordinal; the day after
      31 December is day 1 of the following year. */
  lemma NextDayOrdinal(d: Date)
    requires ValidDate(d)
    ensures NextDay(d).year == d.year ==> DayOfYear(NextDay(d)) == DayOfYear(d) + 1
    ensures NextDay(d).year != d.year ==>
      DayOfYear(d) == YearLength(d.year) && DayOfYear(NextDay(d)) == 1
  {
    if d.month == 12 && d.day == 31 {
      MonthsFillYear(d.year);
    }
  }

  /** The date of ordinal day `n` of year `y`, searching from month `m` on:
      an independent reading of the ordinal, month by month. */
  function DateOfOrdinal(y: int, n: int, m: int): Date
    requires 1 <= m <= 12
    decreases 12 - m
  {
    if m == 12 || n <= DaysInMonth(y, m) then Date(y, m, n)
    else DateOfOrdinal(y, n - DaysInMonth(y, m), m + 1)
  }

  /** The ordinal of a valid date leads back to that date. */
  lemma {:induction false} DateOfOrdinalInverts(d: Date, m: int)
    requires ValidDate(d) && 1 <= m <= d.month
    ensures DateOfOrdinal(d.year, DayOfYear(d) - DaysBefore(d.year, m), m) == d
    decreases 12 - m
  {
    var n := DayOfYear(d) - DaysBefore(d.year, m);
    if m < d.month {
      DaysBeforeGrows(d.year, m, d.month);
      assert n > DaysInMonth(d.year, m);
      assert n - DaysInMonth(d.year, m) == DayOfYear(d) - DaysBefore(d.year, m + 1);
      DateOfOrdinalInverts(d, m + 1);
    } else {
      assert n == d.day;
    }
  }

  /** Every ordinal between 1 and the year's length is the ordinal of
      exactly the date `DateOfOrdinal` finds. */
  lemma {:induction false} DateOfOrdinalValid(y: int, n: int, m: int)
    requires 1 <= m <= 12
    requires 1 <= n <= YearLength(y) - DaysBefore(y, m)
    ensures ValidDate(DateOfOrdinal(y, n, m))
    ensures DayOfYear(DateOfOrdinal(y, n, m)) == DaysBefore(y, m) + n
    decreases 12 - m
  {
    MonthsFillYear(y);
    if m < 12 && n > DaysInMonth(y, m) {
      DateOfOrdinalValid(y, n - DaysInMonth(y, m), m + 1);
    }
  }

  /** Two valid dates of one year with the same ordinal are the same date. */
  lemma OrdinalInjective(a: Date, b: Date)
    requires ValidDate(a) && ValidDate(b) && a.year == b.year
    requires DayOfYear(a) == DayOfYear(b)
    ensures a == b
  {
    DateOfOrdinalInverts(a, 1);
    DateOfOrdinalInverts(b, 1);
  }

  /** What `getDayOfYearInfo` returns. The two `toLocaleDateString`
      renderings come from the platform's locale data and are parameters. */
  datatype DayInfo = DayInfo(
    current: int,
    total: int,
    formatted: string,
    dateString: string,
    fullDateString: string)

  function GetDayOfYearInfo(d: Date, dateLabel: string, fullDateLabel: string): (info: DayInfo)
    requires ValidDate(d)
    ensures 1 <= info.current <= info.total
    ensures info.total == 365 || info.total == 366
    ensures info.total == 366 <==> IsLeap(d.year)
    ensures info.dateString == dateLabel && info.fullDateString == fullDateLabel
  {
    var day := DayOfYear(d);
    var totalDays := YearLength(d.year);
    DayInfo(day, totalDays, NatToString(day) + "/" + NatToString(totalDays), dateLabel, fullDateLabel)
  }

  /** The label `formatted` splits at its one '/' into the decimal digits
      of `current` and of `total`. */
  lemma FormattedRoundTrip(d: Date, dateLabel: string, fullDateLabel: string)
    requires ValidDate(d)
    ensures var info := GetDayOfYearInfo(d, dateLabel, fullDateLabel);
      var parts := Split(info.formatted, '/');
      |parts| == 2 &&
      ParseDigits(parts[0]) == Some(info.current) &&
      ParseDigits(parts[1]) == Some(info.total)
  {
    var info := GetDayOfYearInfo(d, dateLabel, fullDateLabel);
    var a, b := NatToString(info.current), NatToString(info.total);
    DigitsExclude(a, '/');
    DigitsExclude(b, '/');
    assert info.formatted == a + ['/'] + b;
    SplitAtFirstSeparator(a, '/', b);
    SplitWithoutSeparator(b, '/');
    NatToStringRoundTrip(info.current);
    NatToStringRoundTrip(info.total);
  }

  /** The years 2000 and 2024 are leap years; 1900 and 2026 are not. */
  lemma LeapExamples()
    ensures IsLeap(2000) && IsLeap(2024) && !IsLeap(1900) && !IsLeap(2026)
    ensures YearLength(2000) == 366 && YearLength(1900) == 365
    ensures YearLength(2024) == 366 && YearLength(2026) == 365
  {
  }
}
