/** The release-date constraint on films: a date is acceptable when it is on
    or after 28 December 1895. */
module ReleaseDates {

  /** A calendar date, compared as `java.time.LocalDate` compares dates:
      by year, then month, then day. */
  datatype Date = Date(year: int, month: int, day: int)

  /** A real calendar date of the proleptic Gregorian calendar. */
  predicate IsCalendarDate(d: Date) {
    1 <= d.month <= 12 && 1 <= d.day <= DaysInMonth(d.year, d.month)
  }

  predicate IsLeapYear(y: int) {
    y % 4 == 0 && (y % 100 != 0 || y % 400 == 0)
  }

  function DaysInMonth(y: int, m: int): (n: int)
    requires 1 <= m <= 12
    ensures 28 <= n <= 31
  {
    if m == 2 then (if IsLeapYear(y) then 29 else 28)
    else if m == 4 || m == 6 || m == 9 || m == 11 then 30
    else 31
  }

  /** `LocalDate.compareTo` on two dates: the difference of the years, or of
      the months when the years agree, or of the days when both agree. */
  function CompareDates(a: Date, b: Date): int {
    if a.year != b.year then a.year - b.year
    else if a.month != b.month then a.month - b.month
    else a.day - b.day
  }

  /** `a` is strictly earlier than `b`. */
  predicate IsBefore(a: Date, b: Date): (r: bool)
    ensures r <==> CompareDates(a, b) < 0
  {
    a.year < b.year
    || (a.year == b.year && a.month < b.month)
    || (a.year == b.year && a.month == b.month && a.day < b.day)
  }

  /** `LocalDate.isAfter`. */
  predicate IsAfter(a: Date, b: Date): (r: bool)
    ensures r <==> CompareDates(a, b) > 0
    ensures r ==> !IsBefore(a, b) && a != b
  {
    IsBefore(b, a)
  }

  /** `LocalDate.isEqual`. */
  predicate IsEqual(a: Date, b: Date): (r: bool)
    ensures r <==> CompareDates(a, b) == 0
  {
    a == b
  }

  const MinReleaseDate := Date(1895, 12, 28)

  /** `getMinReleaseDate`: the constant that `IsValid` compares against. */
  function GetMinReleaseDate(): (d: Date)
    ensures d == Date(1895, 12, 28)
    ensures IsCalendarDate(d)
    ensures forall v :: IsValid(v) <==> IsAfter(v, d) || IsEqual(v, d)
  {
    MinReleaseDate
  }

  /** `isValid`: after the minimum date, or equal to it. */
  predicate IsValid(value: Date): (r: bool)
    ensures r <==> CompareDates(value, MinReleaseDate) >= 0
  {
    IsAfter(value, MinReleaseDate) || IsEqual(value, MinReleaseDate)
  }

  /** `LocalDate.minusDays(1)` on a calendar date. */
  function PreviousDay(d: Date): (p: Date)
    requires IsCalendarDate(d)
    ensures IsCalendarDate(p)
    ensures IsBefore(p, d)
    ensures forall e :: IsCalendarDate(e) && IsBefore(e, d) ==> !IsBefore(p, e)
  {
    if d.day > 1 then Date(d.year, d.month, d.day - 1)
    else if d.month > 1 then Date(d.year, d.month - 1, DaysInMonth(d.year, d.month - 1))
    else Date(d.year - 1, 12, 31)
  }

  /** A date is valid exactly when it is not earlier than the minimum. */
  lemma ValidIffNotBeforeMinimum(d: Date)
    ensures IsValid(d) <==> !IsBefore(d, MinReleaseDate)
  {
  }

  /** The minimum itself is accepted, through the `isEqual` branch alone. */
  lemma MinimumIsValid()
    ensures IsValid(GetMinReleaseDate())
    ensures !IsAfter(GetMinReleaseDate(), MinReleaseDate)
  {
  }

  /** The day before the minimum, 27 December 1895, is rejected. */
  lemma DayBeforeMinimumIsInvalid()
    ensures PreviousDay(GetMinReleaseDate()) == Date(1895, 12, 27)
    ensures !IsValid(PreviousDay(GetMinReleaseDate()))
  {
  }

  /** Validity is upward closed: any date later than a valid date is valid. */
  lemma ValidIsUpwardClosed(d: Date, later: Date)
    requires IsValid(d)
    requires IsAfter(later, d)
    ensures IsValid(later)
  {
  }
}
