/** The `punch_records` table and the four request handlers that read and
    change it. The clock is a parameter: `now` is the time of day a punch
    happens and `today` the date it is filed under. */
module Ledger {
  import opened Wrappers
  import opened Text
  import opened EmployeeIds
  import opened WorkingHours
  import opened PunchRecords
  import opened RecordQueries

  /** What the status lookup answers: the current state and, when the
      employee has punched today, the time of the latest punch. */
  datatype StatusReply = StatusReply(status: PunchStatus, timestamp: Option<TimeOfDay>)

  /** What a deletion answers: how many rows went, and the rows themselves. */
  datatype DeleteReport = DeleteReport(count: nat, deletedRecords: seq<PunchRecord>)

  class PunchLedger {
    var records: seq<PunchRecord>

    /** Every row was written by a punch. This is a row invariant that the
        empty ledger has and that `Punch` and `DeleteByIds` preserve; a ledger
        opened on an existing table has it only if that table's rows do. */
    ghost predicate Valid()
      reads this
    {
      forall r :: r in records ==> WellFormed(r)
    }

    /** A ledger over an existing table. */
    constructor (stored: seq<PunchRecord>)
      ensures records == stored
    {
      records := stored;
    }

    /** A ledger over an empty table. */
    constructor Empty()
      ensures records == [] && Valid()
    {
      records := [];
    }

    /** `POST /api/punch`: refuses a malformed identifier without touching the
        ledger; otherwise toggles the employee's state of today, filling in the
        hours and the attendance category on a clock-out, and appends exactly
        that one record. */
    method Punch(employeeId: string, now: TimeOfDay, today: Date) returns (result: Result<PunchRecord, Error>)
      modifies this
      ensures !ValidateEmployeeId(employeeId) ==> result == Failure(InvalidEmployeeId) && records == old(records)
      ensures ValidateEmployeeId(employeeId) ==>
        && result == Success(NextRecord(old(records), employeeId, now, today))
        && records == old(records) + [result.value]
      ensures old(Valid()) ==> Valid()
    {
      if !ValidateEmployeeId(employeeId) {
        return Failure(InvalidEmployeeId);
      }
      var latest := LatestToday(records, employeeId, today);
      var currentStatus := if latest.Some? then latest.value.status else Out;
      var newStatus := if currentStatus == In then Out else In;
      var hoursWorked: Option<real> := None;
      var attendanceStatus: Option<AttendanceStatus> := None;
      if newStatus == Out && latest.Some? {
        var hours := CalculateWorkingHours(Some(latest.value.timestamp), Some(now));
        hoursWorked := Some(hours);
        attendanceStatus := Some(DetermineAttendanceStatus(hours));
      }
      var inserted := PunchRecord(employeeId, newStatus, now, today, hoursWorked, attendanceStatus);
      records := records + [inserted];
      result := Success(inserted);
    }

    /** `GET /api/status/:employeeId`: refuses a malformed identifier;
        otherwise the state of the latest punch today and its time, or `Out`
        and no time when the employee has not punched today. */
    method Status(employeeId: string, today: Date) returns (result: Result<StatusReply, Error>)
      ensures !ValidateEmployeeId(employeeId) <==> result == Failure(InvalidEmployeeId)
      ensures ValidateEmployeeId(employeeId) ==> result.Success?
      ensures result.Success? ==> result.value.status == CurrentState(records, employeeId, today)
      ensures result.Success? ==> (result.value.timestamp.None? <==> !PunchedToday(records, employeeId, today))
      ensures result.Success? && result.value.timestamp.None? ==> result.value.status == Out
      ensures result.Success? && result.value.timestamp.Some? ==>
        && (exists r :: r in records && IsToday(r, employeeId, today)
                        && r.timestamp == result.value.timestamp.value && r.status == result.value.status)
        && forall r :: r in records && IsToday(r, employeeId, today) ==>
             Seconds(r.timestamp) <= Seconds(result.value.timestamp.value)
    {
      if !ValidateEmployeeId(employeeId) {
        return Failure(InvalidEmployeeId);
      }
      var latest := LatestToday(records, employeeId, today);
      LatestTodayIsLatest(records, employeeId, today);
      if latest.None? {
        return Success(StatusReply(Out, None));
      }
      result := Success(StatusReply(latest.value.status, Some(latest.value.timestamp)));
    }

    /** `GET /api/records`: checks the filters that are given (the identifier
        filter first), assembles the `WHERE` conditions one by one, and
        answers the selected rows newest first. */
    method ListRecords(employeeIdFilter: Option<string>, dateFilter: Option<string>) returns (result: Result<seq<PunchRecord>, Error>)
      ensures result == Listing(records, employeeIdFilter, dateFilter)
    {
      var conditions: seq<Condition> := [];
      if Given(employeeIdFilter) {
        var pattern := employeeIdFilter.value;
        if !ValidateEmployeeId(pattern) && !IsWord(pattern) {
          return Failure(InvalidEmployeeIdFormat);
        }
        conditions := conditions + [EmployeeIdLike(pattern)];
      }
      if Given(dateFilter) {
        var date := dateFilter.value;
        if !DateShape(date) {
          return Failure(InvalidDateFormat);
        }
        conditions := conditions + [DateEquals(ParseDate(date))];
      }
      var rows := Sequences.Filter(records, (r: PunchRecord) => SatisfiesAll(r, conditions));
      assert conditions == (if Given(employeeIdFilter) then [EmployeeIdLike(employeeIdFilter.value)] else [])
                         + (if Given(dateFilter) then [DateEquals(ParseDate(dateFilter.value))] else []);
      forall r: PunchRecord
        ensures SatisfiesAll(r, conditions) == Matches(r, employeeIdFilter, dateFilter)
      {
        if Given(employeeIdFilter) {
          assert conditions[0] == EmployeeIdLike(employeeIdFilter.value);
        }
        if Given(dateFilter) {
          assert conditions[|conditions| - 1] == DateEquals(ParseDate(dateFilter.value));
        }
      }
      Sequences.FilterExtensional(records, (r: PunchRecord) => SatisfiesAll(r, conditions), MatchesFilters(employeeIdFilter, dateFilter));
      result := Success(SortNewestFirst(rows));
    }

    /** `DELETE /api/records`: refuses a missing or empty list; otherwise
        removes every record, of any date, whose identifier is listed, answering
        how many went and which. */
    method DeleteByIds(employeeIds: Option<seq<string>>) returns (result: Result<DeleteReport, Error>)
      modifies this
      ensures employeeIds.None? || employeeIds.value == [] ==>
        result == Failure(NoEmployeeIdsProvided) && records == old(records)
      ensures employeeIds.Some? && employeeIds.value != [] ==>
        && records == Kept(old(records), employeeIds.value)
        && result == Success(DeleteReport(|old(records)| - |records|, Removed(old(records), employeeIds.value)))
      ensures old(Valid()) ==> Valid()
    {
      if employeeIds.None? || employeeIds.value == [] {
        return Failure(NoEmployeeIdsProvided);
      }
      var ids := employeeIds.value;
      var deleted := Removed(records, ids);
      DeletePartition(records, ids);
      records := Kept(records, ids);
      result := Success(DeleteReport(|deleted|, deleted));
    }
  }
}
