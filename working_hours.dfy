/** Times of day, the hours between two of them, and the attendance category
    those hours fall in. */
module WorkingHours {
  import opened Wrappers
  import opened Text

  /** A time of day as the hour, minute and second fields of `HH:MM:SS`. */
  datatype TimeOfDay = TimeOfDay(hour: nat, minute: nat, second: nat)

  /** Each field fits in two digits, so `HH:MM:SS` can show it. */
  predicate TwoDigitFields(t: TimeOfDay) {
    t.hour < 100 && t.minute < 100 && t.second < 100
  }

  function Seconds(t: TimeOfDay): nat {
    t.hour * 3600 + t.minute * 60 + t.second
  }

  predicate TimeShape(s: string) {
    && |s| == 8 && s[2] == ':' && s[5] == ':'
    && IsDigit(s[0]) && IsDigit(s[1]) && IsDigit(s[3]) && IsDigit(s[4]) && IsDigit(s[6]) && IsDigit(s[7])
  }

  /** `HH:MM:SS`, the text a punch stores as its timestamp (the time-of-day part
      of an ISO 8601 instant, without the fraction of a second). */
  function FormatTime(t: TimeOfDay): (s: string)
    requires TwoDigitFields(t)
    ensures TimeShape(s)
  {
    Pair(t.hour) + ":" + Pair(t.minute) + ":" + Pair(t.second)
  }

  /** The three colon-separated numbers of a `HH:MM:SS` timestamp; `None` for
      a missing timestamp. */
  function ParseTime(s: string): (t: Option<TimeOfDay>)
    ensures t.Some? <==> TimeShape(s)
    ensures t.Some? ==> TwoDigitFields(t.value)
  {
    if TimeShape(s) then
      Some(TimeOfDay(TwoDigits(s[0], s[1]), TwoDigits(s[3], s[4]), TwoDigits(s[6], s[7])))
    else None
  }

  lemma ParseFormattedTime(t: TimeOfDay)
    requires TwoDigitFields(t)
    ensures ParseTime(FormatTime(t)) == Some(t)
  {
  }

  lemma FormatParsedTime(s: string)
    requires TimeShape(s)
    ensures FormatTime(ParseTime(s).value) == s
  {
    PairOfDigits(s[0], s[1]);
    PairOfDigits(s[3], s[4]);
    PairOfDigits(s[6], s[7]);
    assert s == [s[0], s[1]] + ":" + [s[3], s[4]] + ":" + [s[6], s[7]];
  }

  /** Minutes since midnight, with the seconds as a fraction of a minute. */
  function MinutesSinceMidnight(t: TimeOfDay): real {
    (t.hour * 60 + t.minute) as real + t.second as real / 60.0
  }

  /** The hours from `inTime` to `outTime`: 0 when either is missing, and
      otherwise the exact difference, negative when `outTime` is the earlier
      time of day (there is no wrap-around at midnight). */
  function CalculateWorkingHours(inTime: Option<TimeOfDay>, outTime: Option<TimeOfDay>): (hours: real)
    ensures inTime.None? || outTime.None? ==> hours == 0.0
    ensures inTime.Some? && outTime.Some? ==>
      hours == (Seconds(outTime.value) as real - Seconds(inTime.value) as real) / 3600.0
  {
    if inTime.None? || outTime.None? then 0.0
    else
      var inMinutes := MinutesSinceMidnight(inTime.value);
      var outMinutes := MinutesSinceMidnight(outTime.value);
      (outMinutes - inMinutes) / 60.0
  }

  /** The sign of the hours is the order of the two times. */
  lemma HoursSign(inTime: TimeOfDay, outTime: TimeOfDay)
    ensures CalculateWorkingHours(Some(inTime), Some(outTime)) < 0.0 <==> Seconds(outTime) < Seconds(inTime)
    ensures CalculateWorkingHours(Some(inTime), Some(outTime)) == 0.0 <==> Seconds(outTime) == Seconds(inTime)
  {
  }

  /** Hours over consecutive intervals add up. */
  lemma HoursAdd(a: TimeOfDay, b: TimeOfDay, c: TimeOfDay)
    ensures CalculateWorkingHours(Some(a), Some(b)) + CalculateWorkingHours(Some(b), Some(c))
         == CalculateWorkingHours(Some(a), Some(c))
  {
  }

  /** The worked examples: a nine-to-five shift is 8 hours, nine to one is 4,
      a missing time gives 0, and a shift past midnight comes out negative. */
  lemma HoursExamples()
    ensures CalculateWorkingHours(ParseTime("09:00:00"), ParseTime("17:00:00")) == 8.0
    ensures CalculateWorkingHours(ParseTime("09:00:00"), ParseTime("13:00:00")) == 4.0
    ensures CalculateWorkingHours(ParseTime("09:30:00"), ParseTime("09:30:36")) == 0.01
    ensures CalculateWorkingHours(None, ParseTime("17:00:00")) == 0.0
    ensures CalculateWorkingHours(ParseTime("22:00:00"), ParseTime("02:00:00")) == -20.0
  {
  }

  datatype AttendanceStatus = Present | HalfDay | Absent

  /** At least 8 hours is a full day, at least 4 a half day, less is absent;
      each boundary belongs to the higher category. */
  function DetermineAttendanceStatus(hours: real): (status: AttendanceStatus)
    ensures status == Present <==> hours >= 8.0
    ensures status == HalfDay <==> 4.0 <= hours < 8.0
    ensures status == Absent <==> hours < 4.0
  {
    if hours >= 8.0 then Present
    else if hours >= 4.0 then HalfDay
    else Absent
  }

  /** The categories from the fewest hours to the most. */
  function Rank(status: AttendanceStatus): nat {
    match status
    case Absent => 0
    case HalfDay => 1
    case Present => 2
  }

  /** More hours never give a lower category. */
  lemma ClassificationMonotone(h1: real, h2: real)
    requires h1 <= h2
    ensures Rank(DetermineAttendanceStatus(h1)) <= Rank(DetermineAttendanceStatus(h2))
  {
  }

  lemma ClassificationExamples()
    ensures DetermineAttendanceStatus(8.0) == Present
    ensures DetermineAttendanceStatus(7.999) == HalfDay
    ensures DetermineAttendanceStatus(4.0) == HalfDay
    ensures DetermineAttendanceStatus(3.999) == Absent
    ensures DetermineAttendanceStatus(-20.0) == Absent
  {
  }
}
