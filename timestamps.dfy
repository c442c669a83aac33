/** `format_datetime` and its inner `to_time` (flight_formatter.py:11-35): a bare
    time of day plus the row's date becomes a `%m/%d/%Y %H:%M:%S` timestamp, moved to
    the next day when the anchor is late in the evening and the time is early in the
    morning. */
module Timestamps {
  import opened Options
  import opened Calendar
  import opened PyStrings
  import opened Cells

  /** What `to_time` makes of a cell: a time, `None` (any other type), or an
      exception (a string `strptime` rejects). */
  datatype TimeRead = Read(t: TimeOfDay) | NotATime | Unparsable

  function HourMinute(hs: string, ms: string): (r: Option<TimeOfDay>)
    ensures r.Some? ==> r.value.second == 0
  {
    if 1 <= |hs| <= 2 && 1 <= |ms| <= 2 && IsDigits(hs) && IsDigits(ms)
       && DigitsValue(hs) <= 23 && DigitsValue(ms) <= 59
    then Some(Time(DigitsValue(hs), DigitsValue(ms), 0))
    else None
  }

  /** `datetime.strptime(s, "%H:%M").time()`: one or two digits of hour (at most 23),
      a colon, one or two digits of minute (at most 59), and nothing else; `None`
      where strptime raises ValueError. */
  function ParseHourMinute(s: string): (r: Option<TimeOfDay>)
    ensures r.Some? ==> r.value.second == 0
    ensures |s| > 5 ==> r.None?
    ensures r.Some? ==> Contains(s, ":")
  {
    if |s| >= 2 && s[1] == ':' then
      (assert OccursAt(s, ":", 1); HourMinute(s[..1], s[2..]))
    else if |s| >= 3 && s[2] == ':' then
      (assert OccursAt(s, ":", 2); HourMinute(s[..2], s[3..]))
    else None
  }

  /** A time written as `HH:MM` parses back to itself. */
  lemma ParseHourMinuteRoundTrip(t: TimeOfDay)
    requires t.second == 0
    ensures ParseHourMinute(Pad2(t.hour) + ":" + Pad2(t.minute)) == Some(t)
  {
    var s := Pad2(t.hour) + ":" + Pad2(t.minute);
    assert s[..2] == Pad2(t.hour) && s[3..] == Pad2(t.minute);
    Pad2RoundTrip(t.hour);
    Pad2RoundTrip(t.minute);
  }

  /** `to_time`: strings are stripped and parsed as `%H:%M`, `time` values pass
      through, anything else is `None`. */
  function ToTime(c: Cell): (r: TimeRead)
    ensures r.Unparsable? ==> c.Text?
    ensures r.NotATime? <==> !c.Text? && !c.Clock?
    ensures r.Read? && c.Text? ==> r.t.second == 0
  {
    match c
    case Text(s) =>
      (match ParseHourMinute(Strip(s))
       case Some(t) => Read(t)
       case None => Unparsable)
    case Clock(t) => Read(t)
    case _ => NotATime
  }

  const Evening: TimeOfDay := Time(18, 0, 0)
  const SmallHours: TimeOfDay := Time(3, 0, 0)

  /** The single rollover rule: the anchor is a time at or after 18:00 and the raw
      time is before 03:00. */
  predicate Rolls(anchor: TimeRead, raw: TimeOfDay) {
    anchor.Read? && !Before(anchor.t, Evening) && Before(raw, SmallHours)
  }

  /** The rule in plain hours: only the hour fields decide it. */
  lemma RollsByHour(anchor: TimeRead, raw: TimeOfDay)
    ensures Rolls(anchor, raw) <==> anchor.Read? && anchor.t.hour >= 18 && raw.hour < 3
  {
  }

  /** `strftime("%m/%d/%Y")`. */
  function FormatDate(d: CalendarDate): (s: string)
    ensures |s| == 10
  {
    Pad2(d.month) + "/" + Pad2(d.day) + "/" + Pad4(d.year)
  }

  /** `strftime("%m/%d/%Y %H:%M:%S")` of `datetime.combine(d, t)`. */
  function FormatStamp(d: CalendarDate, t: TimeOfDay): (s: string)
    ensures |s| == 19
  {
    FormatDate(d) + " " + ClockText(t)
  }

  /** The year `%Y` prints for year 1: the C library's strftime on Linux does not pad
      it to four digits. */
  const NaTYear: string := "1"

  /** `datetime.combine(NaT, t).strftime("%m/%d/%Y %H:%M:%S")`: `NaT` is a `datetime`
      whose fields are 1-1-1, so the time lands on January 1st of year 1; adding a day
      to `NaT` leaves it `NaT`. */
  function NaTStamp(t: TimeOfDay): string {
    Pad2(1) + "/" + Pad2(1) + "/" + NaTYear + " " + ClockText(t)
  }

  /** The `try` block of `format_datetime` once the date and both times are read:
      `None` when the date does not parse, when either time is a string strptime
      rejects, when the raw time is not a time at all, or when the day cannot be
      advanced. */
  function Resolve(base: DateRead, rawTime: TimeRead, anchorTime: TimeRead): Option<string> {
    if base.Fails? then None
    else if rawTime.Unparsable? || anchorTime.Unparsable? then None
    // comparing None with a time, or calling .replace on None, raises
    else if rawTime.NotATime? then None
    else
      var t := rawTime.t.(second := 0);
      match base
      case NaT => Some(NaTStamp(t))
      case Day(b) =>
        var day := if Rolls(anchorTime, rawTime.t) then NextDay(b) else Some(b);
        match day
        case None => None
        case Some(d) => Some(FormatStamp(d, t))
  }

  /** `format_datetime(date, raw_time, base_time)`: `None` when either input is
      missing, otherwise what the `try` block gives. */
  function FormatDateTime(parse: Cell -> DateRead, date: Cell, raw: Cell, anchor: Cell)
    : (r: Option<string>)
    ensures date.Missing? || raw.Missing? ==> r.None?
    ensures parse(date).Fails? ==> r.None?
    ensures ToTime(raw).NotATime? ==> r.None?
    ensures ToTime(anchor).Unparsable? ==> r.None?
    ensures r.Some? && parse(date).Day? ==> |r.value| == 19
  {
    if date.Missing? || raw.Missing? then None
    else Resolve(parse(date), ToTime(raw), ToTime(anchor))
  }

  /** The `try` block succeeds exactly when the date parses, the raw time is a time,
      the anchor is not a malformed string, and a needed next day exists. */
  lemma ResolveSucceeds(base: DateRead, rawTime: TimeRead, anchorTime: TimeRead)
    ensures Resolve(base, rawTime, anchorTime).Some? <==>
      && !base.Fails? && rawTime.Read? && !anchorTime.Unparsable?
      && (base.Day? && Rolls(anchorTime, rawTime.t) ==> base.value != LastDay)
  {
    if base.Day? {
      NextDayAdvances(base.value);
    }
  }

  /** What a `%m/%d/%Y %H:%M:%S` string says, field by field. */
  datatype Fields = Fields(date: Date, hour: int, minute: int, second: int)

  function TwoDigits(s: string, i: nat): Option<int>
    requires i + 2 <= |s|
  {
    if IsDigits(s[i..i + 2]) then Some(DigitsValue(s[i..i + 2])) else None
  }

  /** Reads a `%m/%d/%Y %H:%M:%S` string back into its fields; the inverse of
      `FormatStamp`. */
  function ReadStamp(s: string): Option<Fields> {
    if |s| == 19 && s[2] == '/' && s[5] == '/' && s[10] == ' ' && s[13] == ':' && s[16] == ':'
       && IsDigits(s[6..10])
       && TwoDigits(s, 0).Some? && TwoDigits(s, 3).Some? && TwoDigits(s, 11).Some?
       && TwoDigits(s, 14).Some? && TwoDigits(s, 17).Some?
    then
      Some(Fields(Date(DigitsValue(s[6..10]), TwoDigits(s, 0).value, TwoDigits(s, 3).value),
                  TwoDigits(s, 11).value, TwoDigits(s, 14).value, TwoDigits(s, 17).value))
    else None
  }

  /** Reading a formatted timestamp gives back the date and the time of day. */
  lemma ReadFormatStamp(d: CalendarDate, t: TimeOfDay)
    ensures ReadStamp(FormatStamp(d, t)) == Some(Fields(d, t.hour, t.minute, t.second))
  {
    var s := FormatStamp(d, t);
    assert s[0..2] == Pad2(d.month);
    assert s[3..5] == Pad2(d.day);
    assert s[6..10] == Pad4(d.year);
    assert s[11..13] == Pad2(t.hour);
    assert s[14..16] == Pad2(t.minute);
    assert s[17..19] == Pad2(t.second);
    Pad2RoundTrip(d.month);
    Pad2RoundTrip(d.day);
    Pad4RoundTrip(d.year);
    Pad2RoundTrip(t.hour);
    Pad2RoundTrip(t.minute);
    Pad2RoundTrip(t.second);
  }

  /** A bare date followed by " 00:00:00" reads back as that date at midnight. */
  lemma ReadDateAtMidnight(d: CalendarDate)
    ensures ReadStamp(FormatDate(d) + " 00:00:00") == Some(Fields(d, 0, 0, 0))
  {
    var midnight: TimeOfDay := Time(0, 0, 0);
    assert Pad2(0) == "00";
    assert ClockText(midnight) == "00:00:00";
    assert FormatStamp(d, midnight) == FormatDate(d) + " 00:00:00";
    ReadFormatStamp(d, midnight);
  }

  /** `format_datetime` yields a timestamp exactly when the date and the raw time
      are present, the date parses (to a day or to `NaT`), the raw time is a time, the
      anchor is not a malformed string, and a needed next day exists. */
  lemma FormatDateTimeSucceeds(parse: Cell -> DateRead, date: Cell, raw: Cell, anchor: Cell)
    ensures
      FormatDateTime(parse, date, raw, anchor).Some? <==>
        && !date.Missing? && !raw.Missing? && !parse(date).Fails? && ToTime(raw).Read?
        && !ToTime(anchor).Unparsable?
        && (parse(date).Day? && Rolls(ToTime(anchor), ToTime(raw).t) ==> parse(date).value != LastDay)
  {
    ResolveSucceeds(parse(date), ToTime(raw), ToTime(anchor));
  }

  /** A date pandas reads as `NaT` gives the raw time on January 1st of year 1,
      whatever the anchor; that text sorts before every timestamp of a real day. */
  lemma FormatDateTimeNaT(parse: Cell -> DateRead, date: Cell, raw: Cell, anchor: Cell)
    requires FormatDateTime(parse, date, raw, anchor).Some? && parse(date).NaT?
    ensures ToTime(raw).Read?
    ensures FormatDateTime(parse, date, raw, anchor) == FormatDateTime(parse, date, raw, Missing)
    ensures FormatDateTime(parse, date, raw, anchor).value == NaTStamp(ToTime(raw).t.(second := 0))
    ensures forall d: CalendarDate, t: TimeOfDay ::
              StrLess(FormatDateTime(parse, date, raw, anchor).value, FormatStamp(d, t))
  {
    forall d: CalendarDate, t: TimeOfDay
      ensures StrLess(NaTStamp(ToTime(raw).t.(second := 0)), FormatStamp(d, t))
    {
      NaTStampFirst(ToTime(raw).t.(second := 0), d, t);
    }
  }

  /** The `NaT` stamp sorts before the stamp of every real day: its month and day are
      the least, and its one-digit year is followed by a space, which sorts before
      every digit. */
  lemma NaTStampFirst(u: TimeOfDay, d: CalendarDate, t: TimeOfDay)
    ensures StrLess(NaTStamp(u), FormatStamp(d, t))
  {
    var nrest := "/" + NaTYear + " " + ClockText(u);
    var rest := "/" + Pad4(d.year) + " " + ClockText(t);
    assert NaTStamp(u) == Pad2(1) + ("/" + (Pad2(1) + nrest));
    assert FormatStamp(d, t) == Pad2(d.month) + ("/" + (Pad2(d.day) + rest));
    YearAfterSlash(u, d.year, t);
    LeastMonthDay(d.month, d.day, nrest, rest);
  }

  /** January 1st comes first: "01/01" followed by anything sorts before any month
      and day followed by something greater. */
  lemma LeastMonthDay(m: nat, d: nat, ra: string, rb: string)
    requires 1 <= m < 100 && 1 <= d < 100 && StrLess(ra, rb)
    ensures StrLess(Pad2(1) + ("/" + (Pad2(1) + ra)), Pad2(m) + ("/" + (Pad2(d) + rb)))
  {
    Pad2Order(1, m, "/" + (Pad2(1) + ra), "/" + (Pad2(d) + rb));
    if m == 1 {
      StrLessCommonPrefix("/", Pad2(1) + ra, Pad2(d) + rb);
      Pad2Order(1, d, ra, rb);
    }
  }

  /** The one-digit year and its space sort before any four-digit year from 1000 on. */
  lemma YearAfterSlash(u: TimeOfDay, y: nat, t: TimeOfDay)
    requires 1000 <= y <= 9999
    ensures StrLess("/" + NaTYear + " " + ClockText(u), "/" + Pad4(y) + " " + ClockText(t))
  {
    var a, b := NaTYear + " " + ClockText(u), Pad4(y) + " " + ClockText(t);
    assert "/" + NaTYear + " " + ClockText(u) == "/" + a;
    assert "/" + Pad4(y) + " " + ClockText(t) == "/" + b;
    StrLessCommonPrefix("/", a, b);
    assert a[0] == '1' && a[1] == ' ';
    assert b[0] == DigitChar(y / 100 / 10) && b[1] == DigitChar(y / 100 % 10);
    if b[0] == '1' {
      assert a[1..][0] == ' ' && b[1..][0] == b[1];
    }
  }

  /** The day a timestamp of a real day lands on: the row's date, or the day after it
      when the rollover rule fires. (`FormatDateTimeNaT` covers a `NaT` date.) */
  lemma FormatDateTimeDay(parse: Cell -> DateRead, date: Cell, raw: Cell, anchor: Cell)
    returns (d: CalendarDate)
    requires FormatDateTime(parse, date, raw, anchor).Some? && parse(date).Day?
    ensures ToTime(raw).Read?
    ensures FormatDateTime(parse, date, raw, anchor).value == FormatStamp(d, ToTime(raw).t.(second := 0))
    ensures DayNumber(d) == DayNumber(parse(date).value) + (if Rolls(ToTime(anchor), ToTime(raw).t) then 1 else 0)
  {
    var base := parse(date).value;
    NextDayAdvances(base);
    d := if Rolls(ToTime(anchor), ToTime(raw).t) then NextDay(base).value else base;
  }

  /** The timestamp's date is the row's date, or the day after it exactly when the
      rollover rule fires; its hour and minute are the raw time's and its seconds
      are zero. (`FormatDateTimeNaT` covers a `NaT` date.) */
  lemma FormatDateTimeMeaning(parse: Cell -> DateRead, date: Cell, raw: Cell, anchor: Cell)
    requires FormatDateTime(parse, date, raw, anchor).Some? && parse(date).Day?
    ensures ToTime(raw).Read?
    ensures
      var r := FormatDateTime(parse, date, raw, anchor);
      && ReadStamp(r.value).Some?
      && var f := ReadStamp(r.value).value;
      && ValidDate(f.date)
      && DayNumber(f.date) == DayNumber(parse(date).value)
                               + (if Rolls(ToTime(anchor), ToTime(raw).t) then 1 else 0)
      && f.hour == ToTime(raw).t.hour && f.minute == ToTime(raw).t.minute && f.second == 0
  {
    var d := FormatDateTimeDay(parse, date, raw, anchor);
    ReadFormatStamp(d, ToTime(raw).t.(second := 0));
  }

  /** STA is built with no anchor, so its date is always the row's own date. */
  lemma UnanchoredNeverShifts(parse: Cell -> DateRead, date: Cell, raw: Cell)
    requires FormatDateTime(parse, date, raw, Missing).Some? && parse(date).Day?
    ensures ToTime(raw).Read?
    ensures ReadStamp(FormatDateTime(parse, date, raw, Missing).value)
            == Some(Fields(parse(date).value, ToTime(raw).t.hour, ToTime(raw).t.minute, 0))
  {
    var t := ToTime(raw).t.(second := 0);
    assert FormatDateTime(parse, date, raw, Missing) == Some(FormatStamp(parse(date).value, t));
    ReadFormatStamp(parse(date).value, t);
  }

  /** Two timestamps on the same day compare as strings exactly as their times compare. */
  lemma SameDayStampOrder(d: CalendarDate, a: TimeOfDay, b: TimeOfDay)
    ensures StrLess(FormatStamp(d, a), FormatStamp(d, b)) <==> Before(a, b)
  {
    var p := FormatDate(d) + " ";
    assert FormatStamp(d, a) == p + ClockText(a);
    assert FormatStamp(d, b) == p + ClockText(b);
    StrLessCommonPrefix(p, ClockText(a), ClockText(b));
    var ma, mb := ":" + Pad2(a.minute) + ":" + Pad2(a.second), ":" + Pad2(b.minute) + ":" + Pad2(b.second);
    assert ClockText(a) == Pad2(a.hour) + ma && ClockText(b) == Pad2(b.hour) + mb;
    Pad2Order(a.hour, b.hour, ma, mb);
    var sa, sb := ":" + Pad2(a.second), ":" + Pad2(b.second);
    assert ma == ":" + (Pad2(a.minute) + sa) && mb == ":" + (Pad2(b.minute) + sb);
    StrLessCommonPrefix(":", Pad2(a.minute) + sa, Pad2(b.minute) + sb);
    Pad2Order(a.minute, b.minute, sa, sb);
    StrLessCommonPrefix(":", Pad2(a.second), Pad2(b.second));
    assert Pad2(a.second) == Pad2(a.second) + [] && Pad2(b.second) == Pad2(b.second) + [];
    Pad2Order(a.second, b.second, [], []);
  }
}
