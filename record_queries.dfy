/** Listing and deleting punch records: the `WHERE`, `ORDER BY` and
    `DELETE ... RETURNING` semantics of the record queries, over the ledger
    as a sequence. */
module RecordQueries {
  import opened Wrappers
  import opened Text
  import opened EmployeeIds
  import opened WorkingHours
  import opened PunchRecords
  import opened Sequences

  /** A query parameter takes part only when it is present and not empty
      (JavaScript's truthiness test). */
  predicate Given(f: Option<string>) {
    f.Some? && f.value != ""
  }

  /** `pattern` matches `s` at offset `k` as the body of an ILIKE pattern:
      `_` stands for any one character, every other character for itself up
      to ASCII case. */
  predicate LikeAt(s: string, pattern: string, k: int)
    requires 0 <= k <= |s| - |pattern|
  {
    forall j :: 0 <= j < |pattern| ==> pattern[j] == '_' || ToLower(pattern[j]) == ToLower(s[k + j])
  }

  /** `s ILIKE '%' || pattern || '%'` for a pattern without `%` or `\`, as
      every accepted identifier filter is. */
  predicate IlikeContains(s: string, pattern: string) {
    exists k :: 0 <= k <= |s| - |pattern| && LikeAt(s, pattern, k)
  }

  predicate OccursAt(part: string, whole: string, k: int)
    requires 0 <= k <= |whole| - |part|
  {
    whole[k..k + |part|] == part
  }

  predicate IsSubstring(part: string, whole: string) {
    exists k :: 0 <= k <= |whole| - |part| && OccursAt(part, whole, k)
  }

  /** Without `_` the identifier filter is a case-insensitive substring test. */
  lemma IlikeIsCaseInsensitiveSubstring(s: string, pattern: string)
    requires '_' !in pattern
    ensures IlikeContains(s, pattern) <==> IsSubstring(Lower(pattern), Lower(s))
  {
    if IlikeContains(s, pattern) {
      var k :| 0 <= k <= |s| - |pattern| && LikeAt(s, pattern, k);
      assert OccursAt(Lower(pattern), Lower(s), k);
    }
    if IsSubstring(Lower(pattern), Lower(s)) {
      var k :| 0 <= k <= |s| - |pattern| && OccursAt(Lower(pattern), Lower(s), k);
      forall j | 0 <= j < |pattern|
        ensures pattern[j] == '_' || ToLower(pattern[j]) == ToLower(s[k + j])
      {
        assert Lower(s)[k..k + |pattern|][j] == Lower(pattern)[j];
      }
      assert LikeAt(s, pattern, k);
    }
  }

  lemma IlikeExamples()
    ensures IlikeContains("ATS0123", "ats01") && IlikeContains("ATS0123", "0123") && IlikeContains("ATS0123", "ATS0123")
    ensures IlikeContains("ATS0123", "ATS_1")
    ensures !IlikeContains("ATS0123", "ATS0124") && !IlikeContains("ATS0123", "ATS01234")
  {
    assert LikeAt("ATS0123", "ats01", 0);
    assert LikeAt("ATS0123", "0123", 3);
    assert LikeAt("ATS0123", "ATS0123", 0);
    assert LikeAt("ATS0123", "ATS_1", 0);
    assert !LikeAt("ATS0123", "ATS0124", 0) by {
      assert "ATS0124"[6] == '4' && "ATS0123"[6] == '3';
    }
  }

  /** The record satisfies every filter that is given, combined with AND. */
  predicate Matches(r: PunchRecord, idFilter: Option<string>, dateFilter: Option<string>) {
    && (Given(idFilter) ==> IlikeContains(r.employeeId, idFilter.value))
    && (Given(dateFilter) ==> DateShape(dateFilter.value) && r.date == ParseDate(dateFilter.value))
  }

  function MatchesFilters(idFilter: Option<string>, dateFilter: Option<string>): PunchRecord -> bool {
    (r: PunchRecord) => Matches(r, idFilter, dateFilter)
  }

  /** The rows the `WHERE` clause selects. */
  function Selected(records: seq<PunchRecord>, idFilter: Option<string>, dateFilter: Option<string>): (rows: seq<PunchRecord>)
    ensures forall r :: r in rows <==> r in records && Matches(r, idFilter, dateFilter)
  {
    FilterMembers(records, MatchesFilters(idFilter, dateFilter));
    Filter(records, MatchesFilters(idFilter, dateFilter))
  }

  /** One condition of the `WHERE` clause the listing assembles. */
  datatype Condition = EmployeeIdLike(pattern: string) | DateEquals(date: Date)

  predicate Satisfies(r: PunchRecord, c: Condition) {
    match c
    case EmployeeIdLike(pattern) => IlikeContains(r.employeeId, pattern)
    case DateEquals(date) => r.date == date
  }

  predicate SatisfiesAll(r: PunchRecord, conditions: seq<Condition>) {
    forall i :: 0 <= i < |conditions| ==> Satisfies(r, conditions[i])
  }

  predicate DateBefore(a: Date, b: Date) {
    || a.year < b.year
    || (a.year == b.year && a.month < b.month)
    || (a.year == b.year && a.month == b.month && a.day < b.day)
  }

  /** `a` may come before `b` under `ORDER BY date DESC, timestamp DESC`. */
  predicate NewerOrSame(a: PunchRecord, b: PunchRecord) {
    DateBefore(b.date, a.date) || (a.date == b.date && Seconds(a.timestamp) >= Seconds(b.timestamp))
  }

  predicate SortedNewestFirst(s: seq<PunchRecord>) {
    forall i, j :: 0 <= i < j < |s| ==> NewerOrSame(s[i], s[j])
  }

  /** In a list sorted newest first, the head is as new as every element. */
  lemma HeadIsNewest(s: seq<PunchRecord>, y: PunchRecord)
    requires SortedNewestFirst(s) && s != [] && y in s
    ensures NewerOrSame(s[0], y)
  {
    var j :| 0 <= j < |s| && s[j] == y;
    if j == 0 {
      assert s[0] == y;
    }
  }

  /** Either of two records may come first or both may. */
  lemma NewerOrSameTotal(a: PunchRecord, b: PunchRecord)
    ensures NewerOrSame(a, b) || NewerOrSame(b, a)
  {
  }

  /** A head as new as every element of a sorted tail gives a sorted list. */
  lemma ConsSorted(head: PunchRecord, tail: seq<PunchRecord>)
    requires SortedNewestFirst(tail)
    requires forall y :: y in tail ==> NewerOrSame(head, y)
    ensures SortedNewestFirst([head] + tail)
  {
    forall i, j | 0 <= i < j < |tail| + 1
      ensures NewerOrSame(([head] + tail)[i], ([head] + tail)[j])
    {
      if i == 0 {
        assert ([head] + tail)[j] == tail[j - 1];
        assert tail[j - 1] in tail;
      } else {
        assert ([head] + tail)[i] == tail[i - 1] && ([head] + tail)[j] == tail[j - 1];
      }
    }
  }

  /** Inserts `x` into a list sorted newest first, before the first element
      it is as new as. */
  function Insert(x: PunchRecord, s: seq<PunchRecord>): (r: seq<PunchRecord>)
    requires SortedNewestFirst(s)
    ensures SortedNewestFirst(r)
    ensures multiset(r) == multiset(s) + multiset{x}
  {
    if s == [] then [x]
    else if NewerOrSame(x, s[0]) then
      InsertFirst(x, s);
      [x] + s
    else
      var rest := Insert(x, s[1..]);
      InsertLater(x, s, rest);
      [s[0]] + rest
  }

  lemma InsertFirst(x: PunchRecord, s: seq<PunchRecord>)
    requires SortedNewestFirst(s) && s != [] && NewerOrSame(x, s[0])
    ensures SortedNewestFirst([x] + s)
  {
    forall y | y in s ensures NewerOrSame(x, y) {
      HeadIsNewest(s, y);
    }
    ConsSorted(x, s);
  }

  lemma InsertLater(x: PunchRecord, s: seq<PunchRecord>, rest: seq<PunchRecord>)
    requires SortedNewestFirst(s) && s != [] && !NewerOrSame(x, s[0])
    requires SortedNewestFirst(rest) && multiset(rest) == multiset(s[1..]) + multiset{x}
    ensures SortedNewestFirst([s[0]] + rest)
    ensures multiset([s[0]] + rest) == multiset(s) + multiset{x}
  {
    assert s == [s[0]] + s[1..];
    forall y | y in rest ensures NewerOrSame(s[0], y) {
      assert y in multiset(rest);
      if y == x {
        NewerOrSameTotal(x, s[0]);
      } else {
        assert y in s[1..];
        HeadIsNewest(s, y);
      }
    }
    ConsSorted(s[0], rest);
  }

  /** The rows in `ORDER BY date DESC, timestamp DESC` order. */
  function SortNewestFirst(s: seq<PunchRecord>): (r: seq<PunchRecord>)
    ensures SortedNewestFirst(r)
    ensures multiset(r) == multiset(s)
  {
    if s == [] then []
    else
      assert s == [s[0]] + s[1..];
      Insert(s[0], SortNewestFirst(s[1..]))
  }

  /** The answer to a listing request: an error for a malformed filter (the
      identifier filter is checked first), otherwise the selected rows, newest
      first. */
  function Listing(records: seq<PunchRecord>, idFilter: Option<string>, dateFilter: Option<string>): (result: Result<seq<PunchRecord>, Error>)
    ensures result.Failure? <==> (Given(idFilter) && !IsWord(idFilter.value)) || (Given(dateFilter) && !DateShape(dateFilter.value))
    ensures Given(idFilter) && !IsWord(idFilter.value) ==> result == Failure(InvalidEmployeeIdFormat)
    ensures (!Given(idFilter) || IsWord(idFilter.value)) && Given(dateFilter) && !DateShape(dateFilter.value) ==>
      result == Failure(InvalidDateFormat)
    ensures result.Success? ==>
      SortedNewestFirst(result.value) && multiset(result.value) == multiset(Selected(records, idFilter, dateFilter))
  {
    if Given(idFilter) && !ValidateEmployeeId(idFilter.value) && !IsWord(idFilter.value) then
      Failure(InvalidEmployeeIdFormat)
    else if Given(dateFilter) && !DateShape(dateFilter.value) then
      Failure(InvalidDateFormat)
    else
      Success(SortNewestFirst(Selected(records, idFilter, dateFilter)))
  }

  /** Every listed record is in the ledger and satisfies every given filter. */
  lemma ListingSound(records: seq<PunchRecord>, idFilter: Option<string>, dateFilter: Option<string>, r: PunchRecord)
    requires Listing(records, idFilter, dateFilter).Success?
    requires r in Listing(records, idFilter, dateFilter).value
    ensures r in records
    ensures Given(idFilter) ==> IlikeContains(r.employeeId, idFilter.value)
    ensures Given(dateFilter) ==> r.date == ParseDate(dateFilter.value)
  {
    assert r in multiset(Listing(records, idFilter, dateFilter).value);
    FilterMembership(records, MatchesFilters(idFilter, dateFilter), r);
  }

  /** Every record of the ledger that satisfies the given filters is listed,
      as often as it occurs in the ledger. */
  lemma ListingComplete(records: seq<PunchRecord>, idFilter: Option<string>, dateFilter: Option<string>, r: PunchRecord)
    requires Listing(records, idFilter, dateFilter).Success?
    requires r in records && Matches(r, idFilter, dateFilter)
    ensures multiset(Listing(records, idFilter, dateFilter).value)[r] == multiset(records)[r]
  {
    var p := MatchesFilters(idFilter, dateFilter);
    var q := (x: PunchRecord) => !Matches(x, idFilter, dateFilter);
    FilterPartition(records, p, q);
    FilterMembership(records, q, r);
    assert multiset(Filter(records, q))[r] == 0;
  }

  /** Without filters the listing is the whole ledger, newest first. */
  lemma ListingUnfiltered(records: seq<PunchRecord>, idFilter: Option<string>, dateFilter: Option<string>)
    requires !Given(idFilter) && !Given(dateFilter)
    ensures Listing(records, idFilter, dateFilter).Success?
    ensures multiset(Listing(records, idFilter, dateFilter).value) == multiset(records)
  {
    FilterEverything(records, MatchesFilters(idFilter, dateFilter));
  }

  /** An identifier filter is accepted exactly when it is a word; a valid
      identifier is one. */
  lemma ListingIdFilterAccepted(records: seq<PunchRecord>, filter: string)
    requires filter != ""
    ensures Listing(records, Some(filter), None).Success? <==> IsWord(filter)
    ensures ValidateEmployeeId(filter) ==> Listing(records, Some(filter), None).Success?
  {
  }

  /** Only the shape of the date filter is checked: `2024-13-01` is accepted,
      `2024-1-01` is refused. */
  lemma ListingDateShapeOnly(records: seq<PunchRecord>)
    ensures Listing(records, None, Some("2024-13-01")).Success?
    ensures Listing(records, None, Some("2024-1-01")) == Failure(InvalidDateFormat)
    ensures Listing(records, Some("ATS 01"), Some("2024-1-01")) == Failure(InvalidEmployeeIdFormat)
  {
    assert DateShape("2024-13-01") && !DateShape("2024-1-01");
    assert !IsWord("ATS 01") by {
      assert !IsWordChar("ATS 01"[3]);
    }
  }

  function Unlisted(ids: seq<string>): PunchRecord -> bool {
    (r: PunchRecord) => r.employeeId !in ids
  }

  function Listed(ids: seq<string>): PunchRecord -> bool {
    (r: PunchRecord) => r.employeeId in ids
  }

  /** The rows `DELETE ... WHERE employee_id = ANY(ids)` leaves. */
  function Kept(records: seq<PunchRecord>, ids: seq<string>): (kept: seq<PunchRecord>)
    ensures forall r :: r in kept <==> r in records && r.employeeId !in ids
  {
    FilterMembers(records, Unlisted(ids));
    Filter(records, Unlisted(ids))
  }

  /** The rows it removes and returns. */
  function Removed(records: seq<PunchRecord>, ids: seq<string>): (removed: seq<PunchRecord>)
    ensures forall r :: r in removed <==> r in records && r.employeeId in ids
  {
    FilterMembers(records, Listed(ids));
    Filter(records, Listed(ids))
  }

  /** Deleting splits the ledger exactly: the kept rows are those whose
      identifier is not listed, the removed rows those whose identifier is,
      across all dates, and together they are the old ledger. */
  lemma DeletePartition(records: seq<PunchRecord>, ids: seq<string>)
    ensures forall r :: r in Kept(records, ids) <==> r in records && r.employeeId !in ids
    ensures forall r :: r in Removed(records, ids) <==> r in records && r.employeeId in ids
    ensures multiset(Kept(records, ids)) + multiset(Removed(records, ids)) == multiset(records)
    ensures |Removed(records, ids)| == |records| - |Kept(records, ids)|
  {
    var keep := Unlisted(ids);
    var drop := Listed(ids);
    FilterPartition(records, drop, keep);
  }

  /** After its records are deleted an employee is clocked out. */
  lemma DeleteResetsState(records: seq<PunchRecord>, ids: seq<string>, id: string, today: Date)
    requires id in ids
    ensures LatestToday(Kept(records, ids), id, today) == None
    ensures CurrentState(Kept(records, ids), id, today) == Out
  {
    DeletePartition(records, ids);
    LatestTodayIsLatest(Kept(records, ids), id, today);
  }

  /** Deleting other employees' records leaves an employee's state as it was. */
  lemma {:induction false} DeleteKeepsOthers(records: seq<PunchRecord>, ids: seq<string>, id: string, today: Date)
    requires id !in ids
    ensures LatestToday(Kept(records, ids), id, today) == LatestToday(records, id, today)
    decreases |records|
  {
    if records != [] {
      var init := records[..|records| - 1];
      var last := records[|records| - 1];
      assert records == init + [last];
      FilterAppend(init, last, Unlisted(ids));
      DeleteKeepsOthers(init, ids, id, today);
      if last.employeeId in ids {
        assert Kept(records, ids) == Kept(init, ids);
        LatestAfterAppendOther(init, last, id, today);
      } else {
        assert Kept(records, ids) == Kept(init, ids) + [last];
        assert Kept(records, ids)[..|Kept(records, ids)| - 1] == Kept(init, ids);
      }
    }
  }
}
