/** The punch ledger's rows and the punch protocol on them: the latest record
    of an employee today decides the current state, and a punch appends the
    toggled state, with the hours and the attendance category on a clock-out. */
module PunchRecords {
  import opened Wrappers
  import opened Text
  import opened EmployeeIds
  import opened WorkingHours

  datatype PunchStatus = In | Out

  datatype Date = Date(year: nat, month: nat, day: nat)

  /** One row of `punch_records`: the state after the punch, when it happened,
      and on a clock-out the hours since the clock-in and their category. */
  datatype PunchRecord = PunchRecord(
    employeeId: string,
    status: PunchStatus,
    timestamp: TimeOfDay,
    date: Date,
    hoursWorked: Option<real>,
    attendanceStatus: Option<AttendanceStatus>)

  datatype Error = InvalidEmployeeId | InvalidEmployeeIdFormat | InvalidDateFormat | NoEmployeeIdsProvided

  /** `^\d{4}-\d{2}-\d{2}$`: the shape of a date and nothing more. */
  predicate DateShape(s: string) {
    && |s| == 10 && s[4] == '-' && s[7] == '-'
    && IsDigit(s[0]) && IsDigit(s[1]) && IsDigit(s[2]) && IsDigit(s[3])
    && IsDigit(s[5]) && IsDigit(s[6]) && IsDigit(s[8]) && IsDigit(s[9])
  }

  /** The calendar fields of a `YYYY-MM-DD` string, as the store reads it. */
  function ParseDate(s: string): (d: Date)
    requires DateShape(s)
    ensures PrintableDate(d)
  {
    Date(100 * TwoDigits(s[0], s[1]) + TwoDigits(s[2], s[3]), TwoDigits(s[5], s[6]), TwoDigits(s[8], s[9]))
  }

  predicate PrintableDate(d: Date) {
    d.year < 10000 && d.month < 100 && d.day < 100
  }

  /** `YYYY-MM-DD`. */
  function FormatDate(d: Date): (s: string)
    requires PrintableDate(d)
    ensures DateShape(s)
  {
    Pair(d.year / 100) + Pair(d.year % 100) + "-" + Pair(d.month) + "-" + Pair(d.day)
  }

  lemma ParseFormattedDate(d: Date)
    requires PrintableDate(d)
    ensures ParseDate(FormatDate(d)) == d
  {
  }

  lemma FormatParsedDate(s: string)
    requires DateShape(s)
    ensures FormatDate(ParseDate(s)) == s
  {
    var d := ParseDate(s);
    assert d.year / 100 == TwoDigits(s[0], s[1]) && d.year % 100 == TwoDigits(s[2], s[3]);
    PairOfDigits(s[0], s[1]);
    PairOfDigits(s[2], s[3]);
    PairOfDigits(s[5], s[6]);
    PairOfDigits(s[8], s[9]);
    assert s == [s[0], s[1]] + [s[2], s[3]] + "-" + [s[5], s[6]] + "-" + [s[8], s[9]];
  }

  /** Only the shape is checked: a month 13 passes. */
  /** A string has the shape of a date exactly when it is the printed form of
      some date with at most four year digits and two month and day digits. */
  lemma DateShapeIsPrintedDate(s: string)
    ensures DateShape(s) <==> exists d :: PrintableDate(d) && FormatDate(d) == s
  {
    if DateShape(s) {
      FormatParsedDate(s);
      assert PrintableDate(ParseDate(s)) && FormatDate(ParseDate(s)) == s;
    }
  }

  lemma DateShapeExamples()
    ensures DateShape("2024-01-31") && DateShape("2024-13-01")
    ensures !DateShape("2024-1-31") && !DateShape("2024/01/31") && !DateShape("24-01-31") && !DateShape("2024-01-31 ")
  {
  }

  predicate IsToday(r: PunchRecord, id: string, today: Date) {
    r.employeeId == id && r.date == today
  }

  predicate PunchedToday(records: seq<PunchRecord>, id: string, today: Date) {
    exists r :: r in records && IsToday(r, id, today)
  }

  /** The employee's record of `today` with the latest timestamp, the first
      row of `ORDER BY timestamp DESC LIMIT 1`; of records with equal
      timestamps the one appended last is taken. */
  function LatestToday(records: seq<PunchRecord>, id: string, today: Date): (latest: Option<PunchRecord>)
    ensures latest.Some? ==> latest.value in records && IsToday(latest.value, id, today)
    decreases |records|
  {
    if records == [] then None
    else
      var earlier := LatestToday(records[..|records| - 1], id, today);
      var last := records[|records| - 1];
      if !IsToday(last, id, today) then earlier
      else if earlier.Some? && Seconds(last.timestamp) < Seconds(earlier.value.timestamp) then earlier
      else Some(last)
  }

  /** `LatestToday` finds nothing exactly when the employee has not punched
      today, and otherwise one of today's records whose timestamp no other of
      today's records exceeds. */
  lemma {:induction false} LatestTodayIsLatest(records: seq<PunchRecord>, id: string, today: Date)
    ensures LatestToday(records, id, today).None? <==> !PunchedToday(records, id, today)
    ensures LatestToday(records, id, today).Some? ==>
      var latest := LatestToday(records, id, today).value;
      && latest in records && IsToday(latest, id, today)
      && forall r :: r in records && IsToday(r, id, today) ==> Seconds(r.timestamp) <= Seconds(latest.timestamp)
    decreases |records|
  {
    if records != [] {
      var init := records[..|records| - 1];
      assert records == init + [records[|records| - 1]];
      LatestTodayIsLatest(init, id, today);
    }
  }

  /** A record of today later than (or as late as) all of today's records
      becomes the latest one. */
  lemma LatestAfterAppend(records: seq<PunchRecord>, x: PunchRecord, id: string, today: Date)
    requires IsToday(x, id, today)
    requires forall r :: r in records && IsToday(r, id, today) ==> Seconds(r.timestamp) <= Seconds(x.timestamp)
    ensures LatestToday(records + [x], id, today) == Some(x)
  {
    assert (records + [x])[..|records|] == records;
    LatestTodayIsLatest(records, id, today);
  }

  /** A record of another employee or another day does not change the latest one. */
  lemma LatestAfterAppendOther(records: seq<PunchRecord>, x: PunchRecord, id: string, today: Date)
    requires !IsToday(x, id, today)
    ensures LatestToday(records + [x], id, today) == LatestToday(records, id, today)
  {
    assert (records + [x])[..|records|] == records;
  }

  /** The state the employee is in: that of the latest record today, and `Out`
      when there is none. */
  function CurrentState(records: seq<PunchRecord>, id: string, today: Date): (s: PunchStatus)
    ensures !PunchedToday(records, id, today) ==> s == Out
    ensures PunchedToday(records, id, today) ==>
      exists r :: r in records && IsToday(r, id, today) && r.status == s
        && forall q :: q in records && IsToday(q, id, today) ==> Seconds(q.timestamp) <= Seconds(r.timestamp)
  {
    LatestTodayIsLatest(records, id, today);
    match LatestToday(records, id, today)
    case None => Out
    case Some(latest) => latest.status
  }

  function Toggle(s: PunchStatus): (t: PunchStatus)
    ensures t != s
  {
    if s == In then Out else In
  }

  /** The record a punch of `id` at `now` on `today` appends. */
  function NextRecord(records: seq<PunchRecord>, id: string, now: TimeOfDay, today: Date): (r: PunchRecord)
    ensures r.employeeId == id && r.timestamp == now && r.date == today
    ensures r.status != CurrentState(records, id, today)
    ensures r.hoursWorked.Some? <==> r.status == Out
    ensures r.attendanceStatus.Some? <==> r.status == Out
    ensures r.status == Out ==>
      && LatestToday(records, id, today).Some?
      && r.hoursWorked == Some(CalculateWorkingHours(Some(LatestToday(records, id, today).value.timestamp), Some(now)))
      && r.attendanceStatus == Some(DetermineAttendanceStatus(r.hoursWorked.value))
  {
    var latest := LatestToday(records, id, today);
    var newStatus := Toggle(CurrentState(records, id, today));
    if newStatus == Out && latest.Some? then
      var hours := CalculateWorkingHours(Some(latest.value.timestamp), Some(now));
      PunchRecord(id, Out, now, today, Some(hours), Some(DetermineAttendanceStatus(hours)))
    else
      PunchRecord(id, newStatus, now, today, None, None)
  }

  /** A punch no earlier than the employee's other punches today becomes the
      latest record, so the state it reports is the new current state: the
      toggle of the state before it. */
  lemma PunchSetsState(records: seq<PunchRecord>, id: string, now: TimeOfDay, today: Date)
    requires forall r :: r in records && IsToday(r, id, today) ==> Seconds(r.timestamp) <= Seconds(now)
    ensures CurrentState(records + [NextRecord(records, id, now, today)], id, today)
         == Toggle(CurrentState(records, id, today))
  {
    LatestAfterAppend(records, NextRecord(records, id, now, today), id, today);
  }

  /** What every record a punch writes satisfies. */
  ghost predicate WellFormed(r: PunchRecord) {
    && ValidateEmployeeId(r.employeeId)
    && (r.hoursWorked.Some? <==> r.status == Out)
    && (r.attendanceStatus.Some? <==> r.status == Out)
    && (r.hoursWorked.Some? ==> r.attendanceStatus == Some(DetermineAttendanceStatus(r.hoursWorked.value)))
  }

  /** The ledger after `id` punches at each of `times` in turn on `today`. */
  function PunchSeries(records: seq<PunchRecord>, id: string, times: seq<TimeOfDay>, today: Date): (ledger: seq<PunchRecord>)
    decreases |times|
  {
    if times == [] then records
    else
      var before := PunchSeries(records, id, times[..|times| - 1], today);
      before + [NextRecord(before, id, times[|times| - 1], today)]
  }

  predicate StrictlyIncreasing(times: seq<TimeOfDay>) {
    forall i, j :: 0 <= i < j < |times| ==> Seconds(times[i]) < Seconds(times[j])
  }

  /** The `k`-th record of a day's punches: clock-ins at even positions, and at
      odd positions clock-outs carrying the hours since the previous punch. */
  function AlternatingRecord(id: string, times: seq<TimeOfDay>, today: Date, k: nat): PunchRecord
    requires k < |times|
  {
    if k % 2 == 0 then PunchRecord(id, In, times[k], today, None, None)
    else
      var hours := CalculateWorkingHours(Some(times[k - 1]), Some(times[k]));
      PunchRecord(id, Out, times[k], today, Some(hours), Some(DetermineAttendanceStatus(hours)))
  }

  /** Punches of an employee who has not punched today, at increasing times,
      append exactly one record each, leave the earlier records as they were,
      and alternate `In`, `Out`, `In`, ... starting with `In`; each `Out`
      carries the hours since the `In` before it. */
  lemma {:induction false} PunchesAlternate(records: seq<PunchRecord>, id: string, times: seq<TimeOfDay>, today: Date)
    requires !PunchedToday(records, id, today)
    requires StrictlyIncreasing(times)
    ensures var ledger := PunchSeries(records, id, times, today);
      && |ledger| == |records| + |times|
      && ledger[..|records|] == records
      && (forall k :: 0 <= k < |times| ==> ledger[|records| + k] == AlternatingRecord(id, times, today, k))
      && LatestToday(ledger, id, today) == (if times == [] then None else Some(AlternatingRecord(id, times, today, |times| - 1)))
    decreases |times|
  {
    if times == [] {
      LatestTodayIsLatest(records, id, today);
    } else {
      var earlierTimes := times[..|times| - 1];
      assert StrictlyIncreasing(earlierTimes);
      PunchesAlternate(records, id, earlierTimes, today);
      SeriesStep(records, id, times, earlierTimes, today, PunchSeries(records, id, earlierTimes, today));
    }
  }

  /** The inductive step of `PunchesAlternate`, from the ledger after all
      punches but the last to the ledger after the last. */
  lemma SeriesStep(records: seq<PunchRecord>, id: string, times: seq<TimeOfDay>, earlierTimes: seq<TimeOfDay>, today: Date, before: seq<PunchRecord>)
    requires |times| > 0 && StrictlyIncreasing(times) && earlierTimes == times[..|times| - 1]
    requires |before| == |records| + |times| - 1 && before[..|records|] == records
    requires forall k :: 0 <= k < |times| - 1 ==> before[|records| + k] == AlternatingRecord(id, earlierTimes, today, k)
    requires LatestToday(before, id, today)
      == (if |times| == 1 then None else Some(AlternatingRecord(id, earlierTimes, today, |times| - 2)))
    ensures var ledger := before + [NextRecord(before, id, times[|times| - 1], today)];
      && ledger[..|records|] == records
      && (forall k :: 0 <= k < |times| ==> ledger[|records| + k] == AlternatingRecord(id, times, today, k))
      && LatestToday(ledger, id, today) == Some(AlternatingRecord(id, times, today, |times| - 1))
  {
    var n := |times|;
    var x := NextRecord(before, id, times[n - 1], today);
    var ledger := before + [x];
    NextAlternatingRecord(before, id, times, today);
    assert ledger[..|records|] == before[..|records|];
    forall k | 0 <= k < n
      ensures ledger[|records| + k] == AlternatingRecord(id, times, today, k)
    {
      if k < n - 1 {
        assert ledger[|records| + k] == before[|records| + k];
        AlternatingPrefix(id, times, today, k, n - 1);
      }
    }
  }

  /** The first `m` punch times give the same first `m` records. */
  lemma AlternatingPrefix(id: string, times: seq<TimeOfDay>, today: Date, k: nat, m: nat)
    requires k < m <= |times|
    ensures AlternatingRecord(id, times[..m], today, k) == AlternatingRecord(id, times, today, k)
  {
    assert times[..m][k] == times[k];
    assert k > 0 ==> times[..m][k - 1] == times[k - 1];
  }

  /** The inductive step of `PunchesAlternate`: after the first `n - 1`
      punches, the `n`-th appends the `n`-th alternating record and that
      record becomes the latest one. */
  lemma NextAlternatingRecord(before: seq<PunchRecord>, id: string, times: seq<TimeOfDay>, today: Date)
    requires |times| > 0 && StrictlyIncreasing(times)
    requires LatestToday(before, id, today)
      == (if |times| == 1 then None else Some(AlternatingRecord(id, times[..|times| - 1], today, |times| - 2)))
    ensures NextRecord(before, id, times[|times| - 1], today) == AlternatingRecord(id, times, today, |times| - 1)
    ensures LatestToday(before + [NextRecord(before, id, times[|times| - 1], today)], id, today)
         == Some(AlternatingRecord(id, times, today, |times| - 1))
  {
    var n := |times|;
    var x := NextRecord(before, id, times[n - 1], today);
    if n > 1 {
      var previous := AlternatingRecord(id, times[..n - 1], today, n - 2);
      AlternatingPrefix(id, times, today, n - 2, n - 1);
      NextAfterAlternating(before, id, times, today);
      assert Seconds(previous.timestamp) < Seconds(times[n - 1]);
    }
    LatestTodayIsLatest(before, id, today);
    LatestAfterAppend(before, x, id, today);
  }

  /** The punch after the `k`-th alternating record of the day is the
      `k + 1`-st. */
  lemma NextAfterAlternating(before: seq<PunchRecord>, id: string, times: seq<TimeOfDay>, today: Date)
    requires |times| > 1
    requires LatestToday(before, id, today) == Some(AlternatingRecord(id, times, today, |times| - 2))
    ensures NextRecord(before, id, times[|times| - 1], today) == AlternatingRecord(id, times, today, |times| - 1)
  {
    var k := |times| - 2;
    if k % 2 == 0 {
      assert CurrentState(before, id, today) == In;
      assert (k + 1) % 2 == 1;
    } else {
      assert CurrentState(before, id, today) == Out;
      assert (k + 1) % 2 == 0;
    }
  }

  /** An employee with no punch today clocks in at 09:00:00 and out at
      17:00:00: the clock-out records 8 hours and a present day. */
  lemma NineToFive(records: seq<PunchRecord>, today: Date)
    requires !PunchedToday(records, "ATS0123", today)
    ensures PunchSeries(records, "ATS0123", [TimeOfDay(9, 0, 0), TimeOfDay(17, 0, 0)], today)
         == records + [PunchRecord("ATS0123", In, TimeOfDay(9, 0, 0), today, None, None),
                       PunchRecord("ATS0123", Out, TimeOfDay(17, 0, 0), today, Some(8.0), Some(Present))]
  {
    var times := [TimeOfDay(9, 0, 0), TimeOfDay(17, 0, 0)];
    PunchesAlternate(records, "ATS0123", times, today);
    var ledger := PunchSeries(records, "ATS0123", times, today);
    assert ledger[|records|] == AlternatingRecord("ATS0123", times, today, 0);
    assert ledger[|records| + 1] == AlternatingRecord("ATS0123", times, today, 1);
    assert ledger == ledger[..|records|] + [ledger[|records|], ledger[|records| + 1]];
  }
}
