/** Proleptic Gregorian calendar dates with the semantics of Python's
    `datetime.date`: years 1..9999, lexicographic comparison, day arithmetic
    through the ordinal day number, and `strftime` text. */
module Dates {
  import opened Wrappers
  import opened Errors
  import Decimal

  datatype Date = Date(year: int, month: int, day: int)

  /** A date value as the database driver and `strptime` hand it over. */
  type CalendarDate = d: Date | Valid(d) witness Date(MinYear, 1, 1)

  /** A report period; `get_date_range` only ever returns ranges with start <= end. */
  datatype DateRange = DateRange(start: Date, end: Date)

  const MinYear := 1
  const MaxYear := 9999

  predicate IsLeapYear(y: int) {
    y % 4 == 0 && (y % 100 != 0 || y % 400 == 0)
  }

  function DaysInMonth(y: int, m: int): (n: int)
    requires 1 <= m <= 12
    ensures 28 <= n <= 31
  {
    if m == 2 then (if IsLeapYear(y) then 29 else 28)
    else if m == 4 || m == 6 || m == 9 || m == 11 then 30
    else 31
  }

  function YearLength(y: int): int {
    if IsLeapYear(y) then 366 else 365
  }

  /** A date `datetime.date` can represent. */
  predicate Valid(d: Date) {
    && MinYear <= d.year <= MaxYear
    && 1 <= d.month <= 12
    && 1 <= d.day <= DaysInMonth(d.year, d.month)
  }

  /** Python's `a < b` on dates. */
  predicate Before(a: Date, b: Date) {
    || a.year < b.year
    || (a.year == b.year && a.month < b.month)
    || (a.year == b.year && a.month == b.month && a.day < b.day)
  }

  /** Python's `a <= b` on dates. */
  predicate AtMost(a: Date, b: Date) {
    !Before(b, a)
  }

  function FirstOfMonth(d: Date): Date {
    Date(d.year, d.month, 1)
  }

  /** Months counted from a fixed origin: consecutive calendar months differ by one. */
  function MonthIndex(d: Date): int {
    d.year * 12 + (d.month - 1)
  }

  // ---------------------------------------------------------------------
  // Ordinal day numbers (`date.toordinal()`: 0001-01-01 is day 1)
  // ---------------------------------------------------------------------

  function DaysBeforeYear(y: int): nat
    requires y >= MinYear
    decreases y
  {
    if y == MinYear then 0 else DaysBeforeYear(y - 1) + YearLength(y - 1)
  }

  function DaysBeforeMonth(y: int, m: int): nat
    requires 1 <= m <= 12
    decreases m
  {
    if m == 1 then 0 else DaysBeforeMonth(y, m - 1) + DaysInMonth(y, m - 1)
  }

  function Ordinal(d: Date): int
    requires Valid(d)
  {
    DaysBeforeYear(d.year) + DaysBeforeMonth(d.year, d.month) + d.day
  }

  /** `d - timedelta(days=1)`, which raises OverflowError below 0001-01-01. */
  function PreviousDay(d: Date): (r: Result<Date, Error>)
    requires Valid(d)
    ensures r.Success? <==> d != Date(MinYear, 1, 1)
    ensures r.Failure? ==> r.error == OverflowError
    ensures r.Success? ==> Valid(r.value) && Before(r.value, d)
  {
    if d.day > 1 then Success(Date(d.year, d.month, d.day - 1))
    else if d.month > 1 then Success(Date(d.year, d.month - 1, DaysInMonth(d.year, d.month - 1)))
    else if d.year > MinYear then Success(Date(d.year - 1, 12, 31))
    else Failure(OverflowError)
  }

  lemma MonthsFillYear(y: int)
    ensures DaysBeforeMonth(y, 12) + DaysInMonth(y, 12) == YearLength(y)
  {
    assert DaysBeforeMonth(y, 3) == 31 + DaysInMonth(y, 2);
    assert DaysBeforeMonth(y, 7) == DaysBeforeMonth(y, 3) + 31 + 30 + 31 + 30;
    assert DaysBeforeMonth(y, 12) == DaysBeforeMonth(y, 7) + 31 + 31 + 30 + 31 + 30;
  }

  lemma {:induction false} MonthsPrecede(y: int, m: int, m': int)
    requires 1 <= m < m' <= 12
    ensures DaysBeforeMonth(y, m) + DaysInMonth(y, m) <= DaysBeforeMonth(y, m')
    decreases m'
  {
    if m' > m + 1 {
      MonthsPrecede(y, m, m' - 1);
    }
  }

  /** A valid date's position inside its year lies in 1..YearLength. */
  lemma DayOfYearBounds(d: Date)
    requires Valid(d)
    ensures 1 <= DaysBeforeMonth(d.year, d.month) + d.day <= YearLength(d.year)
  {
    MonthsFillYear(d.year);
    if d.month < 12 {
      MonthsPrecede(d.year, d.month, 12);
    }
  }

  lemma {:induction false} YearsPrecede(y: int, y': int)
    requires MinYear <= y < y'
    ensures DaysBeforeYear(y) + YearLength(y) <= DaysBeforeYear(y')
    decreases y'
  {
    if y' > y + 1 {
      YearsPrecede(y, y' - 1);
    }
  }

  /** Subtracting one day steps the ordinal day number back by exactly one. */
  lemma PreviousDayOrdinal(d: Date)
    requires Valid(d) && d != Date(MinYear, 1, 1)
    ensures Ordinal(PreviousDay(d).value) + 1 == Ordinal(d)
  {
    if d.day == 1 && d.month == 1 {
      MonthsFillYear(d.year - 1);
    }
  }

  /** Python's lexicographic date comparison agrees with the ordinal day order. */
  lemma BeforeIsOrdinalOrder(a: Date, b: Date)
    requires Valid(a) && Valid(b)
    ensures Before(a, b) <==> Ordinal(a) < Ordinal(b)
  {
    DayOfYearBounds(a);
    DayOfYearBounds(b);
    if a.year < b.year {
      YearsPrecede(a.year, b.year);
    } else if b.year < a.year {
      YearsPrecede(b.year, a.year);
    } else if a.month < b.month {
      MonthsPrecede(a.year, a.month, b.month);
    } else if b.month < a.month {
      MonthsPrecede(a.year, b.month, a.month);
    }
  }

  // ---------------------------------------------------------------------
  // Text
  // ---------------------------------------------------------------------

  /** `d.strftime('%Y%m%d')`. */
  function YmdText(d: Date): string
    requires Valid(d)
  {
    Decimal.Padded(d.year, 4) + Decimal.Padded(d.month, 2) + Decimal.Padded(d.day, 2)
  }

  /** `str(d)`, the ISO form `YYYY-MM-DD`. */
  function IsoText(d: Date): string
    requires Valid(d)
  {
    Decimal.Padded(d.year, 4) + "-" + Decimal.Padded(d.month, 2) + "-" + Decimal.Padded(d.day, 2)
  }

  /** Reads back an eight-digit `YYYYMMDD` field. */
  function ReadYmd(s: string): Date
    requires |s| == 8 && Decimal.AllDigits(s)
  {
    Date(Decimal.DigitsValue(s[..4]), Decimal.DigitsValue(s[4..6]), Decimal.DigitsValue(s[6..]))
  }

  /** Every valid date prints as exactly eight digits that read back as the same date. */
  lemma YmdRoundTrip(d: Date)
    requires Valid(d)
    ensures |YmdText(d)| == 8 && Decimal.AllDigits(YmdText(d))
    ensures ReadYmd(YmdText(d)) == d
  {
    var y, m, dd := Decimal.Padded(d.year, 4), Decimal.Padded(d.month, 2), Decimal.Padded(d.day, 2);
    Decimal.PaddedRoundTrip(d.year, 4);
    Decimal.PaddedRoundTrip(d.month, 2);
    Decimal.PaddedRoundTrip(d.day, 2);
    var s := YmdText(d);
    assert s[..4] == y && s[4..6] == m && s[6..] == dd;
  }
}
