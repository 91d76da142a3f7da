# Compliance attendance generators, modelled in Dafny

The Compliance app for Frappe fills an HR database with plausible attendance.
It has three pieces.

- **Department Attendance Config.** A per-department configuration of
  probabilities and clock windows. `validate` refuses it unless:
  - every probability lies in 0..100;
  - every window opens strictly before it closes;
  - check-in closes strictly before check-out opens.
- **Fake Attendance Generator.** A background job. For every selected
  employee and every date of a range it does the following.
  - It skips weekends unless they are included.
  - It rolls `randint(1, 100)` against the absence probability. An absent
    day has a leave application attempted. A present day gets a Check In
    and a Check Out Attendance Log, at minutes drawn from the configured
    windows.
  - It inserts those logs one by one, counting the successes.
  - It finds or creates the employee's monthly Employee Attendance record.
  - It walks the range a second time. On this pass it rolls for absence
    again, independently of the first pass. For each absent or present
    date it upserts a daily row into the record's `table1`, keyed by date.
    Skipped weekends and dates whose processing raises get no row.
  - The job keeps counters of employees and created records. The document
    carries a status that a user may cancel while it is "In Progress".
- **Compliance Attendance Generate.** A simpler generator. It loads the
  active employees into a child table. For each employee without attendance
  it inserts one record with a "Present" row for every date of its range.
  The check-in of each row is drawn in 09:00:00-09:15:59 and the check-out
  in 19:00:00-19:15:59.

## How it is modelled

- **Times** are seconds since midnight (`Common.Time`).
- **Dates** are day ordinals. The weekday follows Python's `date.weekday()`
  on `date.toordinal()`.
- **Strings** are written and read back with `FormatTime`/`ParseTime`.
- **Randomness is an input.** A `FakeTimes.Dice` gives, per date, the
  absence roll and the two drawn minutes. `FakeTimes.DiceFit` says every
  value is one `randint` can return.
  - When a window is empty, `randint` raises. The model then takes the
    date's "processing raised" path: the per-date handler skips the date.
  - The first and second passes over the dates take separate dice. The
    model therefore never relates the daily rows to the logs.
- **Database outcomes are inputs too:**
  - which log inserts succeed;
  - the name a new record receives;
  - the answer of the compliance generator's existence query.
- **The database** is a `FakeDatabase.Database` object. It holds the stored
  logs and Employee Attendance records as sequences.
- **Loops.** Each imperative loop of the source is a method with a loop. Its
  postcondition ties the result, or the new state, to a recursive
  specification function. The lemmas state the promised properties about
  those functions.

Files:

| file | module | contents |
|---|---|---|
| `common.dfy` | `Common` | times, weekday, `HH:MM:SS` formatting and parsing |
| `department_config.dfy` | `DepartmentConfig` | `DepartmentAttendanceConfig.validate` |
| `generator_doc.dfy` | `GeneratorDoc` | error-text truncation, range check, cancel |
| `fake_times.dfy` | `FakeTimes` | `_random_time_fast`, `_generate_times_fast`, the per-date decision |
| `daily_rows.dfy` | `DailyRows` | the daily row and its upsert into `table1` |
| `attendance_logs.dfy` | `AttendanceLogs` | the first date loop and `_insert_batch`'s outcome |
| `fake_database.dfy` | `FakeDatabase` | find-or-create, daily writes, the second loop, one employee |
| `background.dfy` | `Background` | `generate_attendance_background` |
| `compliance_generate.dfy` | `ComplianceGenerate` | `get_employees` and `generate_attendance` |

## Model

| member | source | states |
|---|---|---|
| Common.ParseFormat | compliance/compliance/doctype/fake_attendance_generator/fake_attendance_generator.py:375-376 | a time written as `HH:MM:SS` reads back as the same time |
| Common.FormatParse | compliance/compliance/doctype/fake_attendance_generator/fake_attendance_generator.py:375-376 | a string that reads as a time is exactly that time's `HH:MM:SS` text |
| DepartmentConfig.ProbabilitiesPass | compliance/compliance/doctype/department_attendance_config/department_attendance_config.py:21-29 | the loop over the probabilities gets through exactly when every one lies in [0, 100] |
| DepartmentConfig.ValidateAcceptsExactly | compliance/compliance/doctype/department_attendance_config/department_attendance_config.py:8-58 | validate accepts iff all four probabilities are in range, each of the three windows has start < end, and check-in end < check-out start |
| DepartmentConfig.ValidateReportsFirstFailure | compliance/compliance/doctype/department_attendance_config/department_attendance_config.py:8-58 | each of the five errors is thrown iff its rule fails and every earlier rule (probabilities first, then the windows in order) passes |
| DepartmentConfig.ProbabilityBoundsInclusive | compliance/compliance/doctype/department_attendance_config/department_attendance_config.py:21-29 | with the other three probabilities in range, a field holding v avoids the probability error exactly when 0 <= v <= 100, so both bounds are accepted |
| DepartmentConfig.MissingOrNotNumericPasses | compliance/compliance/doctype/department_attendance_config/department_attendance_config.py:23-26 | an empty or non-numeric probability counts as 0 and passes |
| DepartmentConfig.EqualWindowBoundsRejected | compliance/compliance/doctype/department_attendance_config/department_attendance_config.py:39-54 | a window whose start equals its end is refused with that window's error |
| DepartmentConfig.AcceptedDayIsOrdered | compliance/compliance/doctype/department_attendance_config/department_attendance_config.py:39-58 | an accepted configuration has check-in start < check-in end < check-out start < check-out end |
| GeneratorDoc.ShortMessage | compliance/compliance/doctype/fake_attendance_generator/fake_attendance_generator.py:24 | a message of at most 100 characters is unchanged; a longer one becomes its first 100 characters then "...", length 103 |
| GeneratorDoc.ShortMessageIdempotent | compliance/compliance/doctype/fake_attendance_generator/fake_attendance_generator.py:24 | shortening a shortened message changes nothing |
| GeneratorDoc.ShortMessageKeepsPrefix | compliance/compliance/doctype/fake_attendance_generator/fake_attendance_generator.py:24 | the logged text starts with the message's first min(100, length) characters |
| GeneratorDoc.ValidateRange | compliance/compliance/doctype/fake_attendance_generator/fake_attendance_generator.py:46-48 | the range is refused, with "Start date must be before end date", iff both dates are set and start > end |
| GeneratorDoc.SingleDayRangeAccepted | compliance/compliance/doctype/fake_attendance_generator/fake_attendance_generator.py:46-48 | a range whose start equals its end is accepted |
| GeneratorDoc.Generator.CancelGeneration | compliance/compliance/doctype/fake_attendance_generator/fake_attendance_generator.py:208-222 | from "In Progress" the status becomes "Failed" with log "Cancelled by user" and the reply is cancelled; from any other status nothing changes and the reply is "Job is not running" |
| FakeTimes.RandomTime | compliance/compliance/doctype/fake_attendance_generator/fake_attendance_generator.py:581-587 | for a drawn minute m the time is hour m div 60, minute m mod 60, second 0; no time iff the window's minute range is empty |
| FakeTimes.RandomTimeInWindow | compliance/compliance/doctype/fake_attendance_generator/fake_attendance_generator.py:581-587 | the drawn time lies in the window at minute granularity: not after the end, not before the start of the start's minute |
| FakeTimes.RandomTimeCoversWindow | compliance/compliance/doctype/fake_attendance_generator/fake_attendance_generator.py:581-587 | every whole-minute time of the window can be drawn |
| FakeTimes.RandomTimeMayPrecedeStart | compliance/compliance/doctype/fake_attendance_generator/fake_attendance_generator.py:582-584 | the start's seconds are ignored: a window opening at 09:00:30 can yield 09:00:00 |
| FakeTimes.GenerateTimes | compliance/compliance/doctype/fake_attendance_generator/fake_attendance_generator.py:570-579 | the pair is the check-in draw and the check-out draw; none when either window is empty |
| FakeTimes.AcceptedConfigDrawsOrderedTimes | compliance/compliance/doctype/fake_attendance_generator/fake_attendance_generator.py:570-579 | under an accepted department configuration the draw never raises and check-in is at or before check-out |
| FakeTimes.AcceptedConfigMayDrawEqualTimes | compliance/compliance/doctype/fake_attendance_generator/fake_attendance_generator.py:581-587 | an accepted configuration can draw the same time for check-in and check-out |
| FakeTimes.DecideDayCases | compliance/compliance/doctype/fake_attendance_generator/fake_attendance_generator.py:426-447 | a date is skipped iff weekends are excluded and it is Saturday or Sunday; it is absent iff it is counted and the roll is at most the absence probability; a present day's times lie in the windows |
| FakeTimes.AbsenceExtremes | compliance/compliance/doctype/fake_attendance_generator/fake_attendance_generator.py:433-436 | with rolls in 1..100, a probability of 100 or more makes every counted day absent, and one below 1 makes none absent |
| FakeTimes.DefaultConfigNeverFails | compliance/compliance/doctype/fake_attendance_generator/fake_attendance_generator.py:284-294 | under the default configuration no date's processing raises |
| DailyRows.Difference | compliance/compliance/doctype/fake_attendance_generator/fake_attendance_generator.py:364-377 | the difference is empty iff a time is missing or check-out is not after check-in |
| DailyRows.DifferenceIsWorkedMinutes | compliance/compliance/doctype/fake_attendance_generator/fake_attendance_generator.py:364-377 | a non-empty difference is the `HH:MM:SS` text of the worked time cut down to whole minutes, so by `Common.ParseFormat` it reads back as that time |
| DailyRows.DurationTextIsClockTime | compliance/compliance/doctype/fake_attendance_generator/fake_attendance_generator.py:370-377 | the hours and leftover minutes of a worked time, written `HH:MM:00`, are the clock text of that time without its seconds |
| DailyRows.DailyRowMeaning | compliance/compliance/doctype/fake_attendance_generator/fake_attendance_generator.py:372-382 | the row's times read back as the given ones (empty when missing); present = not absent; weekday and "Weekday" iff Monday to Friday, otherwise "Weekly Off" |
| DailyRows.FirstIndexOfDate | compliance/compliance/doctype/fake_attendance_generator/fake_attendance_generator.py:357-362 | the search yields the first row carrying the date, or none when no row carries it |
| DailyRows.FindDailyRecord | compliance/compliance/doctype/fake_attendance_generator/fake_attendance_generator.py:357-362 | the `for ... break` loop finds the first row with the date, or reports none |
| DailyRows.FirstIndexAt | compliance/compliance/doctype/fake_attendance_generator/fake_attendance_generator.py:358-362 | the search result is the position where the date first occurs |
| DailyRows.FirstIndexAfterWrite | compliance/compliance/doctype/fake_attendance_generator/fake_attendance_generator.py:384-387 | after overwriting the first row of a date, that date and every other date are found where they were |
| DailyRows.FirstIndexAfterAppend | compliance/compliance/doctype/fake_attendance_generator/fake_attendance_generator.py:388-390 | after appending a row for a new date it is found last, and every other date is found where it was |
| DailyRows.UpsertShape | compliance/compliance/doctype/fake_attendance_generator/fake_attendance_generator.py:384-390 | an existing date keeps the row count; a new date adds exactly one row, at the end; all other rows are untouched |
| DailyRows.UpsertThenLookup | compliance/compliance/doctype/fake_attendance_generator/fake_attendance_generator.py:357-390 | after the upsert the date reads as the new row and every other date reads as before |
| DailyRows.UpsertIdempotent | compliance/compliance/doctype/fake_attendance_generator/fake_attendance_generator.py:357-390 | writing the same row twice equals writing it once |
| AttendanceLogs.BiometricId | compliance/compliance/doctype/fake_attendance_generator/fake_attendance_generator.py:460 | the logged biometric id is the employee's when set, never empty |
| AttendanceLogs.GenerateLogs | compliance/compliance/doctype/fake_attendance_generator/fake_attendance_generator.py:420-486 | the first date loop builds the batch, `days_processed` and the absent dates its specification functions describe |
| AttendanceLogs.LogsCount | compliance/compliance/doctype/fake_attendance_generator/fake_attendance_generator.py:449-476 | the batch has exactly two logs per present day |
| AttendanceLogs.LogsArePairs | compliance/compliance/doctype/fake_attendance_generator/fake_attendance_generator.py:449-476 | the k-th pair is a Check In then a Check Out of the same date, with that date's drawn times |
| AttendanceLogs.LogOnPresentDay | compliance/compliance/doctype/fake_attendance_generator/fake_attendance_generator.py:422-481 | every log is on a date of the range whose outcome is present |
| AttendanceLogs.PresentDayLogged | compliance/compliance/doctype/fake_attendance_generator/fake_attendance_generator.py:436-476 | every present date of the range has a log |
| AttendanceLogs.LogDates | compliance/compliance/doctype/fake_attendance_generator/fake_attendance_generator.py:426-476 | a date has logs iff it is in the range and present, so none on skipped weekends or absent days |
| AttendanceLogs.LogsInDateOrder | compliance/compliance/doctype/fake_attendance_generator/fake_attendance_generator.py:422-481 | the batch's dates never decrease |
| AttendanceLogs.DaysProcessedBound | compliance/compliance/doctype/fake_attendance_generator/fake_attendance_generator.py:426-486 | present days <= days processed <= dates in the range, with equality when weekends are included and nothing raises |
| AttendanceLogs.Kept | compliance/compliance/doctype/fake_attendance_generator/fake_attendance_generator.py:649-665 | the inserted logs are at most the batch, and each is a batch log whose insert succeeds |
| AttendanceLogs.KeptAppend | compliance/compliance/doctype/fake_attendance_generator/fake_attendance_generator.py:662-665 | a failed insert does not stop later ones: inserting two parts keeps what each keeps |
| AttendanceLogs.KeptAll | compliance/compliance/doctype/fake_attendance_generator/fake_attendance_generator.py:649-668 | when every insert succeeds the whole batch is inserted |
| AttendanceLogs.KeptAccepted | compliance/compliance/doctype/fake_attendance_generator/fake_attendance_generator.py:649-665 | every log whose insert succeeds is inserted |
| FakeDatabase.CollectCopies | compliance/compliance/doctype/fake_attendance_generator/fake_attendance_generator.py:320-338 | after some fields are looked at, a field is present iff it is among them and set on the employee, holding the employee's value |
| FakeDatabase.OptionalFieldsCopied | compliance/compliance/doctype/fake_attendance_generator/fake_attendance_generator.py:320-338 | each of the nine optional fields is copied iff its employee field is set (email_id from company_email, joining_date from date_of_joining, unit from branch) |
| FakeDatabase.IndexOfName | compliance/compliance/doctype/fake_attendance_generator/fake_attendance_generator.py:355 | loading by name finds a record with that name, or none when no record has it |
| FakeDatabase.IndexOfPeriod | compliance/compliance/doctype/fake_attendance_generator/fake_attendance_generator.py:300-305 | the existence query finds the first record for the employee, month and year, or none when there is none |
| FakeDatabase.IndexOfNameUnique | compliance/compliance/doctype/fake_attendance_generator/fake_attendance_generator.py:309 | with unique names, loading a record by its name finds that record |
| FakeDatabase.FindOrCreateResult | compliance/compliance/doctype/fake_attendance_generator/fake_attendance_generator.py:296-350 | an existing record for the month is returned and nothing is written; otherwise exactly one new record is appended, or none when the insert fails; the returned name loads a record for that employee and month; names stay unique |
| FakeDatabase.FindOrCreateAgain | compliance/compliance/doctype/fake_attendance_generator/fake_attendance_generator.py:300-309 | a second find-or-create finds the record and writes nothing |
| FakeDatabase.WithDayKeepsHeaders | compliance/compliance/doctype/fake_attendance_generator/fake_attendance_generator.py:352-393 | a daily write changes only the rows of the named record, leaving every record's header and every other record as they were |
| FakeDatabase.EmployeeRunCreated | compliance/compliance/doctype/fake_attendance_generator/fake_attendance_generator.py:491-499 | an employee's created count, the number of logs the pass inserts, is at most two per present day of the first loop, and exactly that when every insert succeeds |
| FakeDatabase.Database.InsertBatch | compliance/compliance/doctype/fake_attendance_generator/fake_attendance_generator.py:643-668 | the stored logs grow by the successfully inserted logs in batch order, and the count returned is their number, at most the batch length |
| FakeDatabase.Database.CreateEmployeeAttendance | compliance/compliance/doctype/fake_attendance_generator/fake_attendance_generator.py:296-350 | the stored records and the returned name are those of find-or-create |
| FakeDatabase.Database.AddDailyAttendance | compliance/compliance/doctype/fake_attendance_generator/fake_attendance_generator.py:352-401 | succeeds iff the record exists, and then upserts the built row into its table |
| FakeDatabase.Database.FillDay | compliance/compliance/doctype/fake_attendance_generator/fake_attendance_generator.py:519-546 | one date of the second loop writes its absent or present row, or nothing when skipped or raising |
| FakeDatabase.Database.FillDailyRows | compliance/compliance/doctype/fake_attendance_generator/fake_attendance_generator.py:515-551 | the second date loop leaves the records as its specification function describes, rolling its own dice |
| FakeDatabase.RowsUpToKeepsHeaders | compliance/compliance/doctype/fake_attendance_generator/fake_attendance_generator.py:515-551 | the second date loop changes only the daily rows of the named record: every record keeps its place and header fields, and every other record stays as it was |
| FakeDatabase.RowsUpToWritesDays | compliance/compliance/doctype/fake_attendance_generator/fake_attendance_generator.py:515-551 | after the second date loop, every absent or present date of the range reads, in the named record, as the row built for that date's outcome |
| FakeDatabase.RowsUpToKeepsOtherDays | compliance/compliance/doctype/fake_attendance_generator/fake_attendance_generator.py:515-551 | a date outside the range, a skipped weekend, or a date whose processing raised reads as it did before, in every record |
| FakeDatabase.WithDayAt | compliance/compliance/doctype/fake_attendance_generator/fake_attendance_generator.py:352-390 | one daily write makes its date read as the written row in the record the name loads, and leaves every other date as it read |
| FakeDatabase.DayRow | compliance/compliance/doctype/fake_attendance_generator/fake_attendance_generator.py:523-546 | the second loop writes a row exactly for an absent or a present day, and that row carries the date |
| FakeDatabase.EmployeeRunRows | compliance/compliance/doctype/fake_attendance_generator/fake_attendance_generator.py:403-568 | after an employee's pass the returned name loads the employee's record for the month, and each absent or present date of the second loop reads there as its built row |
| FakeDatabase.Database.GenerateForEmployee | compliance/compliance/doctype/fake_attendance_generator/fake_attendance_generator.py:403-568 | one employee's logs, record and daily rows end as the per-employee specification describes, and the returned count is the logs inserted |
| Background.ConfigFor | compliance/compliance/doctype/fake_attendance_generator/fake_attendance_generator.py:136 | an employee gets their department's configuration, or the default one when there is none |
| Background.TotalIsLogsAdded | compliance/compliance/doctype/fake_attendance_generator/fake_attendance_generator.py:128-161 | the logs after the run are the logs stored before it, still in front, followed by exactly as many new logs as the reported total |
| Background.TotalBound | compliance/compliance/doctype/fake_attendance_generator/fake_attendance_generator.py:128-161 | the total is at most two logs per present day, summed over the employees |
| Background.GenerateAttendanceBackground | compliance/compliance/doctype/fake_attendance_generator/fake_attendance_generator.py:96-163 | every employee is processed; the stored logs, the attendance records and the total follow the per-employee passes in employee order; and the job ends "Completed" with generated_records equal to the total; `generation_log` is left as it was |
| ComplianceGenerate.RowTimes | compliance/compliance/doctype/compliance_attendance_generate/compliance_attendance_generate.py:59-77 | every row is "Present", its check-in reads as a time in 09:00:00-09:15:59, its check-out in 19:00:00-19:15:59, and check-out is later |
| ComplianceGenerate.CheckInCoversRange | compliance/compliance/doctype/compliance_attendance_generate/compliance_attendance_generate.py:60-64 | every time in 09:00:00-09:15:59 can be drawn as a check-in |
| ComplianceGenerate.CheckOutCoversRange | compliance/compliance/doctype/compliance_attendance_generate/compliance_attendance_generate.py:66-69 | every time in 19:00:00-19:15:59 can be drawn as a check-out |
| ComplianceGenerate.SheetRowsLength | compliance/compliance/doctype/compliance_attendance_generate/compliance_attendance_generate.py:56-80 | there is one row per date from from_date to to_date inclusive, and none when from_date > to_date |
| ComplianceGenerate.SheetRowAt | compliance/compliance/doctype/compliance_attendance_generate/compliance_attendance_generate.py:56-80 | the k-th row is the one for date from_date + k, so rows are in ascending date order |
| ComplianceGenerate.BuildSheet | compliance/compliance/doctype/compliance_attendance_generate/compliance_attendance_generate.py:56-80 | the date loop builds exactly the rows of its specification function |
| ComplianceGenerate.GeneratedCount | compliance/compliance/doctype/compliance_attendance_generate/compliance_attendance_generate.py:35-83 | at most one record is inserted per listed employee |
| ComplianceGenerate.GeneratedSheetIsFresh | compliance/compliance/doctype/compliance_attendance_generate/compliance_attendance_generate.py:41-54 | every inserted record belongs to a listed employee whose existence query found nothing, and is that employee's record with month and year taken from from_date and the full set of rows |
| ComplianceGenerate.FreshEmployeeGetsSheet | compliance/compliance/doctype/compliance_attendance_generate/compliance_attendance_generate.py:41-83 | every listed employee whose existence query finds nothing gets their record |
| ComplianceGenerate.ComplianceAttendanceGenerate.GetEmployees | compliance/compliance/doctype/compliance_attendance_generate/compliance_attendance_generate.py:18-30 | a non-empty query result replaces the child table with exactly those ids in order and saves once; an empty one changes nothing |
| ComplianceGenerate.ComplianceAttendanceGenerate.GenerateAttendance | compliance/compliance/doctype/compliance_attendance_generate/compliance_attendance_generate.py:33-83 | the records inserted are those of the specification function over the child table |

## Left out

- `log_message`: the calls to `msgprint`, `log_error` and `print` are left out because they are output only. Only the truncation of error text is modelled.
- `generate_attendance`, the wrapper that enqueues the job, is left out: it is job-queue glue. So are `test_method`, `get_generation_status` and `publish_realtime`.
- Background.GenerateAttendanceBackground: the text of `generation_log` is not modelled. This covers the starting, progress and completion messages, which format numbers and dates. The method leaves that field alone.
- Background.GenerateAttendanceBackground: the outer failure path at lines 180-191 is not modelled. The per-employee rollback at lines 155-159 is not modelled either. In the model the per-employee step always returns.
- Background.GenerateAttendanceBackground: concurrency is not modelled. A cancel that arrives while the job runs writes through the database, while the job holds its own copy of the document. What the job's later save then does is decided by the framework and is not modelled.
- `_get_employees` and `_get_dept_configs` are database queries. The model takes their results as inputs: the employee list, and the configuration map keyed by department.
- `_create_leave_application_fast` is left out. Only the dates it is called for are modelled, as `AttendanceLogs.AbsentDates`.
- The free-text `attendance` field of an Attendance Log is left out. It is a formatted string with no checked logic.
- FakeDatabase.Database.InsertBatch: whether each insert succeeds is an input, because the reasons an insert fails lie in the framework.
- FakeDatabase.Database.CreateEmployeeAttendance: the only modelled insert failure is a record name that is already taken. Other insert failures are not modelled.
- FakeDatabase.IndexOfPeriod: the existence query at lines 301-305 has `limit=1` and no `order_by`, so the framework's default sort picks among several matching records. The model picks the first in stored order. The two can differ only on a store holding two records for one employee and month, which the compliance generator can create (compliance_attendance_generate.py:49-54). `FindOrCreateResult` holds for whichever matching record is chosen.
- DailyRows.Upsert replaces the whole existing row. The source sets only its nine keys on the existing row (lines 386-387) and keeps the row's other columns, such as the `status` the compliance generator writes into the same `table1`. The two generators' rows are modelled as two separate types (`DailyRows.DailyRow` and `ComplianceGenerate.SheetRow`), not as one child table.
- GeneratorDoc.Generator.CancelGeneration: the error reply when the document cannot be loaded (lines 224-226) is not modelled. The method works on an already loaded document.
- The final re-save of the Employee Attendance record (lines 553-561) is left out. It writes nothing new.
- DailyRows.Difference uses exact integer seconds. The source divides as a float (`total_seconds() / 3600`, then `% 1 * 60`), which can round differently.
- Probabilities are exact reals. `float()` parsing, NaN and infinities are not modelled. Only "missing or not a number counts as 0" is modelled.
- `getdate`, `add_days` and `get_time` parsing are not modelled. Dates are ordinals and times are seconds.
- `%B` month names, calendar years and `%A` day names are not modelled. The month name and year of a run are inputs; the compliance generator takes functions of the date. Day names are written from the weekday in English.
- ComplianceGenerate.ComplianceAttendanceGenerate.GenerateAttendance: the existence query is an input, fixed for the call. An employee listed twice is therefore not seen as having the record inserted for their first entry.
- ComplianceGenerate.ComplianceAttendanceGenerate.GenerateAttendance: insert failures are not modelled.
- The `.js` form scripts are left out: they are user interface only.
