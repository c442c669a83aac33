/** Proleptic Gregorian calendar dates and times of day, as Python's `datetime.date`
    and `datetime.time` hold them, with the one piece of date arithmetic the
    formatter performs: adding one day. */
module Calendar {

  import opened Options

  datatype Date = Date(year: int, month: int, day: int)

  predicate IsLeap(y: int) {
    y % 4 == 0 && (y % 100 != 0 || y % 400 == 0)
  }

  function DaysInMonth(y: int, m: int): int {
    if m == 2 then (if IsLeap(y) then 29 else 28)
    else if m == 4 || m == 6 || m == 9 || m == 11 then 30
    else 31
  }

  /** A real calendar day whose year `%Y` prints with four digits. Pandas timestamps
      (years 1677 to 2262) all fall in this range. */
  predicate ValidDate(d: Date) {
    1000 <= d.year <= 9999 && 1 <= d.month <= 12 && 1 <= d.day <= DaysInMonth(d.year, d.month)
  }

  type CalendarDate = d: Date | ValidDate(d) witness Date(2000, 1, 1)

  /** The last day `datetime.date` can represent; adding a day to it overflows. */
  const LastDay: CalendarDate := Date(9999, 12, 31)

  /** What `pd.to_datetime(x).date()` gives for a cell: an exception, pandas' `NaT`
      (which `date()` returns unchanged), or a calendar day. */
  datatype DateRead = Fails | NaT | Day(value: CalendarDate)

  /** `date + timedelta(days=1)`: `None` where Python raises OverflowError. */
  function NextDay(d: CalendarDate): Option<CalendarDate> {
    if d.day < DaysInMonth(d.year, d.month) then Some(Date(d.year, d.month, d.day + 1))
    else if d.month < 12 then Some(Date(d.year, d.month + 1, 1))
    else if d.year < 9999 then Some(Date(d.year + 1, 1, 1))
    else None
  }

  function YearLength(y: int): int {
    if IsLeap(y) then 366 else 365
  }

  /** Days from 1000-01-01 to January 1st of `y`. */
  function DaysBeforeYear(y: int): nat
    decreases y
  {
    if y <= 1000 then 0 else DaysBeforeYear(y - 1) + YearLength(y - 1)
  }

  /** Days from January 1st of `y` to the first of month `m`. */
  function DaysBeforeMonth(y: int, m: int): int {
    var leap := if IsLeap(y) then 1 else 0;
    if m <= 1 then 0
    else if m == 2 then 31
    else if m == 3 then 59 + leap
    else if m == 4 then 90 + leap
    else if m == 5 then 120 + leap
    else if m == 6 then 151 + leap
    else if m == 7 then 181 + leap
    else if m == 8 then 212 + leap
    else if m == 9 then 243 + leap
    else if m == 10 then 273 + leap
    else if m == 11 then 304 + leap
    else 334 + leap
  }

  /** The ordinal of a date: how many days after 1000-01-01 it falls. */
  function DayNumber(d: CalendarDate): nat {
    DaysBeforeYear(d.year) + DaysBeforeMonth(d.year, d.month) + d.day - 1
  }

  /** Adding a day moves a date exactly one day forward, and fails only on the last
      representable day. */
  lemma NextDayAdvances(d: CalendarDate)
    ensures NextDay(d).None? <==> d == LastDay
    ensures NextDay(d).Some? ==> DayNumber(NextDay(d).value) == DayNumber(d) + 1
  {
    if d.day == DaysInMonth(d.year, d.month) && d.month == 12 && d.year < 9999 {
      assert DaysBeforeYear(d.year + 1) == DaysBeforeYear(d.year) + YearLength(d.year);
    }
  }

  /** Different dates have different ordinals, so an ordinal determines its date: the
      ordinal `Timestamps.FormatDateTimeDay` states pins the timestamp's day itself. */
  lemma DayNumberInjective(a: CalendarDate, b: CalendarDate)
    requires DayNumber(a) == DayNumber(b)
    ensures a == b
  {
    if a.year < b.year {
      YearsAdvance(a.year, b.year);
    } else if b.year < a.year {
      YearsAdvance(b.year, a.year);
    }
  }

  /** A later year starts at least a whole year (of 365 days or more) later. */
  lemma {:induction false} YearsAdvance(y: int, z: int)
    requires 1000 <= y < z
    ensures DaysBeforeYear(z) >= DaysBeforeYear(y) + 365 + (if IsLeap(y) then 1 else 0)
    decreases z - y
  {
    if z - 1 > y {
      YearsAdvance(y, z - 1);
    }
  }

  datatype Time = Time(hour: int, minute: int, second: int)

  /** A `datetime.time` value (microseconds are not modelled). */
  type TimeOfDay = t: Time | 0 <= t.hour < 24 && 0 <= t.minute < 60 && 0 <= t.second < 60
    witness Time(0, 0, 0)

  /** `a < b` on `datetime.time`: hour, then minute, then second. */
  predicate Before(a: TimeOfDay, b: TimeOfDay) {
    a.hour < b.hour
    || (a.hour == b.hour && (a.minute < b.minute || (a.minute == b.minute && a.second < b.second)))
  }

}
