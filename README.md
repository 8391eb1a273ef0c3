# Employee attendance punches, modelled in Dafny

The service records clock-in and clock-out punches of employees and derives each
day's attendance. Its business logic is in `Backend/server.js`:

- three pure rules: the employee identifier format (`ATS0` and three digits, not
  `000`), the hours between two `HH:MM:SS` times, and the classification of
  those hours as present, half-day or absent;
- four request handlers over the `punch_records` table:
  - punch: toggle the employee's state for today and append a record, with hours and a category on a clock-out;
  - status lookup: the latest state of today, `out` by default;
  - record listing: filter, check the filter shapes, sort newest first;
  - bulk deletion: remove by employee identifier, across all dates.

The model keeps that split:

| file | module | what it holds |
|---|---|---|
| `wrappers.dfy` | `Wrappers` | `Option` and `Result` |
| `text.dfy` | `Text` | character classes of `\d` and `\w`, ASCII lower-casing, two-digit numerals |
| `sequences.dfy` | `Sequences` | `Filter`, the in-memory `WHERE`, with its membership, partition and append lemmas |
| `employee_ids.dfy` | `EmployeeIds` | `validateEmployeeId` |
| `working_hours.dfy` | `WorkingHours` | times of day, `HH:MM:SS` text, `calculateWorkingHours`, `determineAttendanceStatus` |
| `punch_records.dfy` | `PunchRecords` | the record type, dates, the latest-record lookup, the record a punch appends, series of punches |
| `record_queries.dfy` | `RecordQueries` | the listing query (ILIKE, date equality, ordering) and the delete partition |
| `ledger.dfy` | `Ledger` | class `PunchLedger`: the table as a `seq` field and the four handlers as methods |

The table is the field `records` of `PunchLedger`. `Punch` and `DeleteByIds`
reassign it. `Status` and `ListRecords` only read it. The clock is a parameter:
`now` is the time of day of a punch and `today` the date it is filed under.
Hours are exact `real`s, (out seconds − in seconds) / 3600.

The SQL queries are modelled by what they select:
- `LatestToday` is `ORDER BY timestamp DESC LIMIT 1` over the employee's rows of today.
- `Selected` plus `SortNewestFirst` are the listing's `WHERE` and `ORDER BY date DESC, timestamp DESC`.
- `Kept` and `Removed` are `DELETE ... WHERE employee_id = ANY($1) RETURNING *`.

Two consequences of `Backend/server.js` that the model makes explicit:
- Only the shape `dddd-dd-dd` of the date filter is checked (`Backend/server.js:144`), so `2024-13-01` passes the check (`ListingDateShapeOnly`). The database's date cast then fails the query, and the request ends in the `Server error` branch (`Backend/server.js:157`, `159-162`). That branch is not modelled (see "Left out").
- A day's records alternate in, out, in, … only when the punches come at increasing times. `PunchesAlternate` proves it under that condition.

## Model

| member | source | states |
|---|---|---|
| `EmployeeIds.ValidateEmployeeId` | Backend/server.js:22-25 | the regex `^ATS0(?!000)\d{3}$`, matched piece by piece, holds exactly for strings of length 7 that read `ATS0` then three ASCII digits not all `0` |
| `EmployeeIds.EmployeeIdExamples` | Backend/server.js:23 | `ATS0001`, `ATS0123`, `ATS0999` are accepted; `ATS0000`, `ATS01`, `ATS01234`, `XTS0123`, lower case, surrounding spaces and letters in the suffix are refused |
| `Text.IsWordExamples` | Backend/server.js:136 | `IsWord`, the regex `^\w+$`: `ATS0123`, `ats_01`, `A` and `_` are words; the empty string, a space, a hyphen, a trailing newline and `%` are not |
| `EmployeeIds.ValidIdIsWord` | Backend/server.js:136 | every valid identifier also matches `^\w+$` |
| `WorkingHours.FormatTime` | Backend/server.js:65 | the timestamp text is always of the `HH:MM:SS` shape |
| `WorkingHours.ParseTime` | Backend/server.js:31-32 | a string yields three fields exactly when it has the `HH:MM:SS` shape, and each field is below 100 |
| `WorkingHours.ParseFormattedTime` | Backend/server.js:31-32 | reading a formatted timestamp gives back the time of day |
| `WorkingHours.FormatParsedTime` | Backend/server.js:31-32 | formatting the fields read from a `HH:MM:SS` string gives back the string |
| `WorkingHours.CalculateWorkingHours` | Backend/server.js:28-39 | 0 when either time is missing, otherwise exactly (out seconds − in seconds) / 3600, computed the source's way through minutes since midnight |
| `WorkingHours.HoursSign` | Backend/server.js:37-38 | the hours are negative exactly when the out-time is the earlier time of day (no midnight wrap-around), and zero exactly when the times are equal |
| `WorkingHours.HoursAdd` | Backend/server.js:34-38 | hours over two consecutive intervals add up to the hours over the whole |
| `WorkingHours.HoursExamples` | Backend/server.js:28-39 | 09:00:00→17:00:00 is 8, 09:00:00→13:00:00 is 4, a missing in-time gives 0, 22:00:00→02:00:00 is −20 |
| `WorkingHours.DetermineAttendanceStatus` | Backend/server.js:42-46 | present iff hours ≥ 8, half-day iff 4 ≤ hours < 8, absent iff hours < 4 |
| `WorkingHours.ClassificationMonotone` | Backend/server.js:42-46 | more hours never give a lower category |
| `WorkingHours.ClassificationExamples` | Backend/server.js:43-45 | 8 is present, 7.999 and 4 are half-day, 3.999 and −20 are absent |
| `PunchRecords.ParseDate` | Backend/server.js:147-148 | a `dddd-dd-dd` filter reads as a year below 10000 and a month and day below 100 |
| `PunchRecords.FormatDate` | Backend/server.js:144 | every such date prints in the shape the filter check demands |
| `PunchRecords.ParseFormattedDate` | Backend/server.js:144-148 | reading a printed date gives back the date |
| `PunchRecords.FormatParsedDate` | Backend/server.js:144-148 | printing the date read from a `dddd-dd-dd` string gives back the string |
| `PunchRecords.DateShapeIsPrintedDate` | Backend/server.js:144 | `DateShape`, the regex `^\d{4}-\d{2}-\d{2}$`, holds exactly for the printed forms of dates with at most four year digits and two month and day digits |
| `PunchRecords.DateShapeExamples` | Backend/server.js:144 | `2024-01-31` and `2024-13-01` pass the shape check; `2024-1-31`, `2024/01/31`, `24-01-31` and a trailing space do not |
| `PunchRecords.LatestToday` | Backend/server.js:104-107 | whatever the lookup (the same query as at lines 57-60) finds is one of the table's records, of that employee and of today |
| `PunchRecords.LatestTodayIsLatest` | Backend/server.js:57-60 | the lookup finds nothing exactly when the employee has no record today, and otherwise one of today's records whose timestamp no other record of today exceeds |
| `PunchRecords.LatestAfterAppend` | Backend/server.js:57-60 | a record of today no earlier than the others becomes the latest one |
| `PunchRecords.LatestAfterAppendOther` | Backend/server.js:58 | a record of another employee or another date does not change the lookup |
| `PunchRecords.CurrentState` | Backend/server.js:109-116 | `out` when the employee has no record today; otherwise the state of one of today's records whose timestamp no other record of today exceeds (the punch at line 62 reads the state the same way) |
| `PunchRecords.Toggle` | Backend/server.js:63 | the new state always differs from the current one |
| `PunchRecords.NextRecord` | Backend/server.js:62-79 | the appended record has the employee's id, `now` and `today`; its state differs from the current state, which is `out` when nothing was found; hours and category are present iff the new state is `out`; then the previous record exists (the `rows.length > 0` guard is implied) and they equal the hours from its timestamp to `now` and their classification |
| `PunchRecords.PunchSetsState` | Backend/server.js:57-79 | after a punch no earlier than today's others, the current state is the toggle of the state before |
| `PunchRecords.PunchesAlternate` | Backend/server.js:57-79 | for an employee with no record today, punches at increasing times append exactly one record each and keep earlier records; they go in, out, in, … starting with `in`; each `out` carries the hours since the `in` before it and their category |
| `PunchRecords.NineToFive` | Backend/server.js:49-93 | punches of `ATS0123` at 09:00:00 and 17:00:00 append an `in` without hours, then an `out` with 8 hours, present |
| `RecordQueries.IlikeIsCaseInsensitiveSubstring` | Backend/server.js:139-140 | for a filter without `_`, the ILIKE `%filter%` test is exactly "the lower-cased filter is a substring of the lower-cased identifier" |
| `RecordQueries.IlikeExamples` | Backend/server.js:139-140 | `ats01`, `0123`, the whole id and `ATS_1` match `ATS0123`; `ATS0124` and a longer filter do not |
| `RecordQueries.Insert` | Backend/server.js:155 | inserting into a list sorted newest first keeps it sorted and adds exactly that one record |
| `RecordQueries.SortNewestFirst` | Backend/server.js:155 | the result is ordered by date descending, then timestamp descending, and is a permutation of the input |
| `RecordQueries.Selected` | Backend/server.js:139-152 | a row is selected exactly when it is in the table and `Matches` every given filter: it contains the identifier filter (ILIKE) and has the filter's date |
| `RecordQueries.Listing` | Backend/server.js:135-158 | an error exactly when a given identifier filter is not a word (checked first) or a given date filter lacks the `dddd-dd-dd` shape; otherwise the rows satisfying every given filter, as a permutation, newest first |
| `RecordQueries.ListingSound` | Backend/server.js:139-152 | every listed row is in the table, contains the identifier filter (ILIKE) and has the filter's date |
| `RecordQueries.ListingComplete` | Backend/server.js:139-152 | every row satisfying the given filters is listed as often as it occurs in the table |
| `RecordQueries.ListingUnfiltered` | Backend/server.js:151-157 | with no filter given (absent or empty) every row of the table is listed |
| `RecordQueries.ListingIdFilterAccepted` | Backend/server.js:135-138 | an identifier filter is accepted iff it is a word, and every valid identifier is accepted |
| `RecordQueries.ListingDateShapeOnly` | Backend/server.js:136-146 | `2024-13-01` is accepted, `2024-1-01` is refused as a date, and a bad identifier filter is reported before a bad date |
| `RecordQueries.Kept` | Backend/server.js:174-177 | a row is kept exactly when it is in the table and its identifier is not listed |
| `RecordQueries.Removed` | Backend/server.js:174-177 | a row is removed and returned exactly when it is in the table and its identifier is listed, whatever its date |
| `RecordQueries.DeletePartition` | Backend/server.js:174-177 | the kept rows are exactly the table's rows whose identifier is not listed, the removed rows exactly those whose identifier is (any date); together they are the old table, and the removed count is the old length minus the new |
| `RecordQueries.DeleteResetsState` | Backend/server.js:174-177 | after deletion a listed employee has no record today and is clocked out |
| `RecordQueries.DeleteKeepsOthers` | Backend/server.js:174-177 | deletion leaves the latest record of every unlisted employee unchanged |
| `Ledger.PunchLedger.Punch` | Backend/server.js:49-93 | an invalid identifier is refused and the table is unchanged; otherwise exactly the `NextRecord` is appended and returned, every earlier row is kept as it was, and a table of well-formed rows stays so |
| `Ledger.PunchLedger.Status` | Backend/server.js:96-121 | refused exactly when the identifier is invalid, and answered whenever it is valid; the answer is the current state, with no timestamp iff the employee has not punched today (then `out`), and else the timestamp and state of one of today's records no other of today's records is later than |
| `Ledger.PunchLedger.ListRecords` | Backend/server.js:124-163 | building the `WHERE` conditions one by one answers exactly `Listing` of the table |
| `Ledger.PunchLedger.Empty` | Backend/server.js:49-187 | a ledger over an empty table, whose rows are trivially well-formed; `Punch` and `DeleteByIds` keep them so |
| `Ledger.PunchLedger.DeleteByIds` | Backend/server.js:166-187 | an absent or empty list is refused and the table is unchanged; otherwise the table becomes the kept rows, and the answer is the removed rows with their count, the old length minus the new |

## Left out

- HTTP: Express routing, CORS, JSON body parsing, status codes, response shapes and the `message` text (Backend/server.js:1-19, 81-88, 179-182) are framework glue.
- The `pg` pool configuration and the start-up `SELECT 1` check with `process.exit` (Backend/server.js:9-15, 190-200) are I/O and process lifecycle.
- Storage failures: the in-memory table never fails, so the `Server error` answers (Backend/server.js:89-92, 117-120, 159-162, 183-186) are not modelled.
- Concurrency: two punches of one employee can both read the same latest record and append the same state. The model runs the handlers one at a time.
- Wall clock: `now` and `today` are parameters. The response's `date` comes from the UTC clock while the stored date is the database's `CURRENT_DATE`. The model uses `today` for both. Punches that cross midnight are filed under the new day, as in the source.
- Floating point: hours are exact reals, not JavaScript doubles.
- Type coercion: a non-string identifier, a non-array `employeeIds` and repeated query parameters are not modelled. Identifiers are strings. The id list is an optional sequence, where `None` stands for absent or not an array.
- PunchRecords.LatestToday: when several of today's records share the latest timestamp, SQL may return any of them. The model takes the one appended last.
- RecordQueries.SortNewestFirst: rows equal in date and timestamp come out in one particular order, which SQL leaves unspecified. `DELETE ... RETURNING` rows come in table order.
- WorkingHours.ParseTime: reads only the strict `HH:MM:SS` shape, which the time column and the punch timestamp always have. JavaScript's lenient `split(':').map(Number)` on other text (giving `NaN`) is not modelled; a missing timestamp is `None`.
- Date filter: a string of the right shape but no calendar date, such as `2024-13-01`, passes the check. The database's date cast then fails the query with a `Server error` (Backend/server.js:157, 159-162). That cast is not modelled: the model compares the three fields and matches the rows whose date has those fields. No calendar date has them, and dates are not constrained to calendar dates.
- ILIKE: case folding is ASCII only. `%` and `\` cannot occur in an accepted (word) filter, so only the `_` wildcard is modelled.
- The table's column types and any rounding of `hours_worked` in storage are not part of the source and are not modelled.
