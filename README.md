# Overtime engine model

This project models the overtime engine of an employee time-tracking service. It proves properties of that model in Dafny.

The engine takes clock-in / clock-out rows for one employee and a date range. It builds:
- one record per date, holding the minutes worked that day and the minutes beyond the daily base;
- a weekly summary of extra and owed time.

The engine has three parts:

1. **The daily aggregator** (`computeFromSessions`, module `Overtime`, with `normalizeTime` in module `TimeOfDay`).
   - It checks the range and skips rows that have no usable date or time.
   - A shift whose end is not after its start crosses midnight, so it runs 1 to 1440 minutes.
   - Lunch is deducted only on rows that took lunch.
   - Shifts on the same date add up.
   - It emits one record per date of the range.
2. **The preview** (the helpers and the body of `preview` in the reports controller, module `Reports`).
   - It fills the range with empty days and labels the days.
   - It groups the days by the Monday of their week and clips each week to the range.
   - A week that lies wholly inside the range is held to a 48 h target. Any other week is summed day by day against the daily base, and a worked Sunday earns a flat 8 h bonus.
   - The range totals are the sums of the weekly figures.
3. **The spreadsheet export** (`buildWorkbook`, module `Excel`). It groups the days by Monday as well, but applies a different weekly rule:
   - only the *last* week, and only when it has fewer than seven days, is summed day by day, with no Sunday bonus;
   - every other week is held to 48 h, including a first week cut short by the range;
   - no week is clipped.

The model states both weekly rules side by side and proves where they agree and where they part:
- `SheetWeeklyAgainstPreview`, `SheetMatchesPreview` and `ExportMatchesPreview` prove the agreement.
- `FirstPartialWeekDiverges` and `WorkedSundayDiverges` prove the divergence.

Units and representation:
- **Time.** Every quantity is a whole number of minutes: the daily base, lunch, the 48 h target (2880) and the Sunday bonus (480).
- **Dates.** A date is a day number, with day 0 = 1970-01-01, a Thursday. `Calendar.Dow` gives the weekday, with 0 = Sunday. The engine compares zero-padded `YYYY-MM-DD` strings; their order is the order of the day numbers.
- **Loosely typed values.** A JavaScript value read as a number is a `Raw`: `Undefined`, `Null`, `NotNumeric` or `Finite(n)`. `null` is kept apart because `Number(null)` is 0 but `Number(undefined)` is NaN.

Where the source changes things step by step, the model is a method with loops and invariants. Each such method is proved equal to a specification function, and the properties are proved about that function. This covers:
- the session loop;
- the range fill;
- `eachDateYMD`;
- the `weeksMap` loops;
- the window walk;
- the weekly loops with their running sums;
- the day grid;
- the loop over blocks.

Modules, in dependency order:
- `Values`: Option, Result, Raw, `safeNum`.
- `Text`: `trim`, digits, `padStart`, and a reader for "[-]HH:MM".
- `TimeOfDay`: `normalizeTime`.
- `Calendar`: weekday, `mondayOf`, `addDays`, `minDate` / `maxDate`, `eachDateYMD`, week keys.
- `Weeks`: grouping by Monday, `sort` of the keys.
- `Overtime`: `computeFromSessions`.
- `Reports`: `fillMissingDays`, `decToHHMM`, the preview.
- `Excel`: `safeName`, `decToHHMM`, the workbook.

Behaviour of the code worth noting:
- **Rounding carry.** A rounded minute field of 60 is reset to 0 *without* carrying into the hour (`src/controllers/reportsController.js:59`, `src/services/excelService.js:18`). On whole minutes this branch is never reached.
- **Null lunch override.** A lunch override of `null` deducts 0 minutes, because `safeNum(null)` is 0. Only an undefined or non-numeric override falls back to the default (`src/services/overtimeService.js:7,62`).
- **Start and end times per date.** The code does not track the earliest start or the latest end of each date.

## Model

| member | source | states |
|---|---|---|
| Text.Trim | src/services/overtimeService.js:12 | `String.prototype.trim`: the result has no ECMAScript white space at either end, is no longer than the input, and holds only characters of the input |
| Text.TrimStrips | src/services/overtimeService.js:12 | the trimmed string is a contiguous slice of the input, and everything before and after that slice is white space |
| Text.TrimOfTrimmed | src/services/overtimeService.js:12 | trimming a string with no space at either end changes nothing |
| Text.Pad2 | src/services/overtimeService.js:15 | `String(n).padStart(2, '0')`: all digits, at least two of them, reading back as `n`; exactly two when n < 100, and no leading '0' when longer |
| Text.NatToString | src/controllers/reportsController.js:60 | `String(n)`: its digits read back as `n`; one digit exactly when n < 10, and a leading '0' only for 0 itself |
| Text.HHMM | src/controllers/reportsController.js:55-60 | the signed "HH:MM" text of a number of minutes: at least five characters, with a leading '-' exactly when the value is negative |
| Text.HHMMRoundTrip | src/controllers/reportsController.js:55-60 | the "HH:MM" text of any number of minutes, negative or not, reads back as that number, and its minute field is below 60 |
| Text.MagnitudeRoundTrip | src/controllers/reportsController.js:56-60 | the hours `floor(abs / 60)` and minutes `abs mod 60`, padded, read back as `abs` |
| TimeOfDay.MatchTime | src/services/overtimeService.js:12-14 | the regular expression /^(\d{1,2}):(\d{1,2})$/ matches exactly the one- or two-digit, colon, one- or two-digit strings, and captures the digits either side of the colon |
| TimeOfDay.NormalizeTime | src/services/overtimeService.js:10-19 | whatever `normalizeTime` returns is a canonical "HH:MM" with hour 0-23 and minute 0-59 |
| TimeOfDay.NormalizeTimeSpec | src/services/overtimeService.js:10-19 | None unless the trimmed input matches the pattern; otherwise the zero-padded "HH:MM" of its two fields when the hour is at most 23 and the minute at most 59, and None when either is out of range |
| TimeOfDay.NormalizeCanonical | src/services/overtimeService.js:10-19 | a canonical "HH:MM" normalises to itself |
| TimeOfDay.NormalizeTimeIdempotent | src/services/overtimeService.js:10-19 | normalising a normalised time gives it back unchanged |
| TimeOfDay.ClockRoundTrip | src/services/overtimeService.js:15-18 | the padded "HH:MM" of an hour below 24 and a minute below 60 normalises to itself and denotes minute h*60+m of the day |
| TimeOfDay.NormalizeTimeTrims | src/services/overtimeService.js:12 | surrounding white space never changes the result |
| TimeOfDay.OneDigitFields | src/services/overtimeService.js:12-18 | a "D:D" time normalises to the padded clock of its two digits |
| TimeOfDay.OneDigitHour | src/services/overtimeService.js:12-18 | a "D:DD" time normalises to the padded clock when its minute is at most 59 and to None otherwise |
| TimeOfDay.NormalizeTimePads | src/services/overtimeService.js:15 | "7:5" normalises to "07:05" |
| TimeOfDay.NormalizeNineThirty | src/services/overtimeService.js:15 | "9:30" normalises to "09:30" |
| TimeOfDay.NormalizeSpacedNineThirty | src/services/overtimeService.js:12 | " 9:30 " normalises to "09:30" |
| TimeOfDay.NormalizeTimeRejectsHour24 | src/services/overtimeService.js:17 | hour 24 is rejected |
| TimeOfDay.NormalizeTimeRejectsMinute60 | src/services/overtimeService.js:17 | minute 60 is rejected |
| TimeOfDay.NormalizeTimeNeedsColon | src/services/overtimeService.js:12-13 | an input without a colon is rejected |
| TimeOfDay.NormalizeTimeRejectsNoColon | src/services/overtimeService.js:12-13 | "930" is rejected |
| TimeOfDay.ClockMinutes | src/services/overtimeService.js:21 | the minute of the day a canonical time denotes is below 1440 |
| Calendar.Dow | src/services/excelService.js:31 | the weekday of a date is 0 (Sunday) to 6 (Saturday) |
| Calendar.MondayOf | src/controllers/reportsController.js:45-50 | `mondayOf` (the date less (dow + 6) mod 7 days) is a Monday, at most six days before the date and never after it |
| Calendar.MondayOfIff | src/services/excelService.js:29-35 | a date has Monday `k` exactly when it lies in [k, k + 6] |
| Calendar.MondayOfMonotone | src/controllers/reportsController.js:45-50 | a later date never has an earlier Monday |
| Calendar.DowWithinWeek | src/services/excelService.js:36-40 | in the week of Monday `k` only `addDays(k, 6)` is a Sunday |
| Calendar.MinDate | src/controllers/reportsController.js:64 | `minDate` is the smaller of its arguments |
| Calendar.MaxDate | src/controllers/reportsController.js:65 | `maxDate` is the larger of its arguments |
| Calendar.DateRange | src/controllers/reportsController.js:26-34 | the consecutive dates `from`..`to`: to - from + 1 of them, or none when from > to |
| Calendar.EachDateYMD | src/controllers/reportsController.js:26-34 | the `eachDateYMD` loop pushes exactly the consecutive dates from `from` to `to`, none when from > to |
| Calendar.WeekKeys | src/controllers/reportsController.js:121-127 | the Mondays of the weeks that meet [from, to]: strictly ascending, seven days apart, from the Monday of `from`, the last within a week of `to` |
| Calendar.WeekKeysMembers | src/controllers/reportsController.js:121-127 | a Monday is a week key of [from, to] exactly when it lies between the Monday of `from` and `to` |
| Calendar.WeekKeysTile | src/controllers/reportsController.js:137-143 | cut to the range, the weeks of the keys tile it: the first starts at `from`, the last ends at `to`, and each other starts on its Monday and ends on its Sunday |
| Weeks.FirstMondays | src/controllers/reportsController.js:121-127 | the keys of `weeksMap` in the order they were created: no repeats, and exactly the Mondays of the days |
| Weeks.GroupByMonday | src/services/excelService.js:132-137 | the `weeksMap` loop: each key holds the days with that Monday, in order, and is never empty; a Monday that is not a key has no days; the keys come in first-seen order |
| Weeks.GroupNonMonday | src/controllers/reportsController.js:121-126 | only Mondays key a group |
| Weeks.GroupOfCalendar | src/controllers/reportsController.js:121-143 | over a calendar of [from, to], the group of a week key is exactly the run of days dated max(key, from) to min(key + 6, to) |
| Weeks.CalendarGroupKeys | src/controllers/reportsController.js:121-127 | over a calendar of [from, to], the Mondays that have days are exactly the week keys of the range |
| Weeks.SortKeys | src/controllers/reportsController.js:127 | `.sort()` of the keys: ascending and a permutation of the input (the same multiset), with no repeats when the input has none |
| Weeks.Insert | src/controllers/reportsController.js:127 | one insertion step of the sort keeps the list ascending and adds exactly one occurrence of the inserted key (multiset) |
| Weeks.SortedListingUnique | src/controllers/reportsController.js:127 | a set has only one strictly ascending listing |
| Weeks.CalendarWeekStarts | src/controllers/reportsController.js:121-127 | over a calendar of [from, to], the sorted keys of `weeksMap` are exactly the week keys of the range |
| Overtime.DiffMinutes | src/services/overtimeService.js:22-25 | `diffHours`: the minutes from a to b when b is later, and 0 otherwise |
| Overtime.ShiftMinutes | src/services/overtimeService.js:57-61 | a shift runs 1 to 1440 minutes: the plain difference when the end is later, a full day when start and end are equal, and otherwise into the next day |
| Overtime.InstantShift | src/services/overtimeService.js:57-61 | moving a non-later end one day on and taking the difference of the instants gives the shift's length |
| Overtime.Lunch | src/services/overtimeService.js:62 | no deduction without lunch; with lunch, the override when it is a number, 0 when it is null, and the default when it is undefined or not numeric |
| Overtime.RowMinutes | src/services/overtimeService.js:57-63 | a row counts its shift less its lunch, never below 0; at least one minute without a deduction and at most a day with one |
| Overtime.SessionMinutes | src/services/overtimeService.js:57-63 | the loop body's instants, overnight shift, difference and lunch deduction give the row's minutes |
| Overtime.Contribution | src/services/overtimeService.js:46-63 | a session adds minutes exactly when it has a date inside the range and both of its times normalise, and it adds them to its own date |
| Overtime.AccumulateByDate | src/services/overtimeService.js:44-66 | after the session loop, each date held by `byDate` has the total minutes of that date's usable sessions, and a date it does not hold has a total of 0 |
| Overtime.MakeDay | src/services/overtimeService.js:72-78 | a day record's overtime is max(0, worked - base): never negative and never below worked - base |
| Overtime.EmitDays | src/services/overtimeService.js:69-80 | the `while (cursor <= rangeEnd)` loop pushes one record per date of the range, with the minutes of `byDate` (0 when absent) and their overtime |
| Overtime.DaysFor | src/services/overtimeService.js:69-80 | one record per date of the range, with that date's session total and its overtime |
| Overtime.ComputeSpec | src/services/overtimeService.js:31-94 | an error with the range message exactly when a bound is missing or the end is before the start; otherwise one record per date of the range, the base, the bounds, and the total as the sum of the daily overtime |
| Overtime.ComputeFromSessions | src/services/overtimeService.js:31-94 | `computeFromSessions` (range check, session loop, range fill, total) returns what `ComputeSpec` says |
| Overtime.ComputeDays | src/services/overtimeService.js:69-80 | the records are the range's dates in strictly ascending order from `rangeStart` to `rangeEnd`, each with its sessions' minutes and overtime max(0, worked - base) |
| Overtime.DayTotalSingle | src/services/overtimeService.js:50-65 | one session adds its minutes to its own date when it is usable, and nothing anywhere otherwise |
| Overtime.DayTotalConcat | src/services/overtimeService.js:65 | the sessions of a date add up: the total of two lists is the sum of their totals |
| Overtime.ComputeSpecByTotals | src/services/overtimeService.js:65-80 | the result depends on the sessions only through their totals per date |
| Overtime.SkippedSessionNoEffect | src/services/overtimeService.js:47-55 | a session that has no date, falls outside the range, or has a time that fails to normalise has no effect on any output, wherever it stands |
| Overtime.SessionOrderIrrelevant | src/services/overtimeService.js:46-66 | the order of the sessions does not change the result |
| Overtime.TotalOvertimeZeroIff | src/services/overtimeService.js:83-85 | the total overtime is never negative, and it is 0 exactly when no day exceeds the base |
| Overtime.SumOvertimeZero | src/services/overtimeService.js:83-85 | a sum of non-negative daily overtime is 0 exactly when every day's is 0 |
| Overtime.OvernightShift | src/services/overtimeService.js:59 | 22:00 to 02:00 with no lunch counts 240 minutes |
| Overtime.LunchExamples | src/services/overtimeService.js:62-63 | 08:00 to 17:00 counts 480 minutes with lunch and no override (60-minute default), 540 with a null override, and 540 without lunch |
| Overtime.ClockExamples | src/services/overtimeService.js:21 | "22:00", "02:00", "08:00" and "17:00" are minutes 1320, 120, 480 and 1020 of the day |
| Reports.DecToHHMMRoundTrip | src/controllers/reportsController.js:53-61 | `decToHHMM`: "00:00" for null, undefined and NaN; for a number, a leading '-' exactly when it is negative, and text that reads back as the number with a minute field of 0-59 |
| Reports.IndexByDate | src/controllers/reportsController.js:38 | the `existing` map holds, for each date it has, a record of that date from the list; a date it lacks has no record; with distinct dates every record is found under its own date |
| Reports.FillMissingDays | src/controllers/reportsController.js:36-42 | one record per date of [from, to] in ascending order; each is a record of the input, or an empty day when the input has none for that date; with distinct input dates every input record in range keeps its place; the bounds are replaced, while the base and the total are kept |
| Reports.FillOfCalendar | src/controllers/reportsController.js:36-42 | filling a calendar of its own range gives it back unchanged |
| Reports.FillOfComputed | src/controllers/reportsController.js:92 | filling the aggregator's result over its own range changes nothing |
| Reports.FillIdempotent | src/controllers/reportsController.js:36-42 | filling twice is filling once |
| Reports.Enrich | src/controllers/reportsController.js:100-118 | a labelled day keeps its date, worked and overtime minutes; it owes max(0, base - worked), Sundays included; its worked and overtime show "DESCANSO" exactly when nothing was worked, and otherwise the formatted minutes |
| Reports.EnrichDays | src/controllers/reportsController.js:100-118 | labelling keeps the days' number, dates and worked minutes |
| Reports.Find | src/controllers/reportsController.js:162 | `arr.find` returns the first day with that date, or None when no day has it |
| Reports.WorkedOnDay | src/controllers/reportsController.js:162-163 | the minutes of the day found for a date, 0 when there is none |
| Reports.AddDay | src/controllers/reportsController.js:166-172 | a worked Sunday adds exactly 8 h to extra and nothing to owed; any other day adds max(0, w - base) to extra and max(0, base - w) to owed |
| Reports.WalkWindow | src/controllers/reportsController.js:160-175 | the `while (cur <= clipEnd)` walk sums the daily rule over every date of the clipped window |
| Reports.WindowNonNegative | src/controllers/reportsController.js:158-176 | the daily rule never gives negative extra or owed minutes |
| Reports.WindowNet | src/controllers/reportsController.js:158-176 | without a worked Sunday, the daily rule's extra less owed is the window's worked minutes less the base for each of its days |
| Reports.WeekRow | src/controllers/reportsController.js:179-190 | the pushed row carries the clipped window, the three figures and their "HH:MM" displays, with the net displayed as extra - owed |
| Reports.ClippedWeek | src/controllers/reportsController.js:137-176 | a week's window is [max(monday, from), min(monday + 6, to)] and its worked minutes are those of its days; a whole week gets max(0, sum - 48 h) extra and max(0, 48 h - sum) owed; any other week gets the daily rule summed over its window |
| Reports.SummarizeWeek | src/controllers/reportsController.js:134-190 | one pass of the loop over week starts builds the `ClippedWeek` row |
| Reports.WeekFigures | src/controllers/reportsController.js:149-157 | every row's window lies in its week; extra and owed are never negative; a whole week nets its worked minutes against 48 h, and at most one of extra and owed is non-zero |
| Reports.SummarizeWeeks | src/controllers/reportsController.js:134-194 | the loop over week starts pushes one row per start, in order, and the running totals are the sums of the rows' extra and owed |
| Reports.WeeklySummary | src/controllers/reportsController.js:121-211 | the weekly section of `preview` gives the rows of the sorted Monday keys, and totals built from their sums |
| Reports.MakeTotals | src/controllers/reportsController.js:196-210 | the totals object: the net is extra minus owed, and each of the three carries its display |
| Reports.TotalsOf | src/controllers/reportsController.js:192-210 | the range totals are the sums of the weekly extra and owed minutes |
| Reports.TotalNetIsSumOfNets | src/controllers/reportsController.js:192-196 | the total net is the sum of the weekly nets |
| Reports.CalendarWeekRow | src/controllers/reportsController.js:137-157 | over a calendar, a key's row covers the week cut to the range, inside the range, with the minutes of exactly those days; a whole week nets them against 48 h with one of extra and owed zero |
| Reports.CalendarPartialWeekRow | src/controllers/reportsController.js:158-176 | over a calendar, a clipped week without a worked Sunday nets its worked minutes against the base for each day of its window |
| Reports.CalendarWeekFigures | src/controllers/reportsController.js:137-176 | over a calendar, a key's row covers its week cut to the range with the minutes of those days; extra and owed are never negative; a whole week nets against 48 h, and a clipped week without a worked Sunday nets against the base of each of its days |
| Reports.CalendarWeeklyKeys | src/controllers/reportsController.js:121-127 | over a calendar, the weekly rows are those of the range's week keys |
| Reports.CalendarWeekly | src/controllers/reportsController.js:121-194 | over a calendar, the summary has one row per week that meets the range, each with the figures of its week |
| Reports.CalendarWeeklyTiles | src/controllers/reportsController.js:137-143 | over a calendar, the row windows tile the range in ascending order: the first starts at `from`, the last ends at `to`, and the others are whole Monday-to-Sunday weeks |
| Reports.ReportDaysCalendar | src/controllers/reportsController.js:92-118 | over a valid range the labelled, filled days are a calendar of the range |
| Reports.ReportWeekly | src/controllers/reportsController.js:120-211 | an employee's report over a valid range: one row per week meeting the range, tiling it from `from` to `to`, each with the figures of its week, and a total net that is the sum of the weekly nets |
| Reports.ResultsOfStep | src/controllers/reportsController.js:79-213 | each employee either ends the results with the aggregator's error or appends its report |
| Reports.ResultsOfAfterError | src/controllers/reportsController.js:217-219 | once one employee throws, the others change nothing: the request fails with that message |
| Reports.AllReports | src/controllers/reportsController.js:78-214 | over a valid range there is one report per employee |
| Reports.ResultsOfValidRange | src/controllers/reportsController.js:78-214 | over a valid range no employee throws, and the answer lists every employee's report in order |
| Reports.ResultsOfReversedRange | src/controllers/reportsController.js:84-89 | over a reversed range, the first employee already raises the aggregator's range error |
| Reports.PreviewOutcome | src/controllers/reportsController.js:68-220 | `preview` fails with "Faltan from/to" when a bound is missing; with the range error exactly when there is an employee and the range is reversed; and otherwise answers one report per employee in order (none for no employee) |
| Reports.EmployeePreview | src/controllers/reportsController.js:80-213 | one pass of the loop over employees gives the aggregator's error or the employee's report |
| Reports.Preview | src/controllers/reportsController.js:68-220 | `preview` returns what `PreviewSpec` says |
| Excel.ReplaceForbidden | src/services/excelService.js:6 | the replacement turns each of \ / ? * [ ] : into a space and keeps every other character in place |
| Excel.Take | src/services/excelService.js:6 | `.slice(0, 31)` keeps at most the first 31 characters |
| Excel.CleanAfterReplace | src/services/excelService.js:6 | nothing forbidden is left after the replacement, the cut and the trim |
| Excel.Sanitize | src/services/excelService.js:5-6 | the cleaned name is always a safe sheet name: 1 to 31 characters, none forbidden, no space at either end |
| Excel.SafeName | src/services/excelService.js:5-6 | `safeName` always gives a safe sheet name |
| Excel.SanitizeKeepsSafe | src/services/excelService.js:6 | a name that is already safe comes out unchanged |
| Excel.SafeNameKeepsSafe | src/services/excelService.js:5-6 | `safeName` keeps a safe name as it is |
| Excel.SafeNameIdempotent | src/services/excelService.js:5-6 | `safeName` is idempotent |
| Excel.SafeNameDefault | src/services/excelService.js:5-6 | a missing or empty name gives "Empleado" |
| Excel.SafeNameBrackets | src/services/excelService.js:6 | "[a]" becomes "a": the brackets turn into spaces and the trim removes them |
| Excel.SafeNameAllForbidden | src/services/excelService.js:6 | a name made only of forbidden characters gives "Empleado" |
| Excel.EmpleadoSafe | src/services/excelService.js:6 | the fallback "Empleado" is itself a safe name |
| Excel.DecToHHMM | src/services/excelService.js:12-20 | the export's `decToHHMM` counts anything that is not a number as 0; its text reads back as the value, with a leading '-' exactly when the value is negative and a minute field of 0-59 |
| Excel.HHMMZero | src/services/excelService.js:12-20 | 0 is shown as "00:00" |
| Excel.DecToHHMMAgree | src/services/excelService.js:12-20 | the export's and the preview's `decToHHMM` give the same text for every value |
| Excel.DayColumnOf | src/services/excelService.js:81-126 | a day's column: "DESCANSO" in the worked, overtime and owed rows exactly when nothing was worked; otherwise the worked minutes, the overtime, and max(0, base - worked) |
| Excel.DayColumnMatchesPreview | src/services/excelService.js:94-124 | the grid shows "DESCANSO" on exactly the days the preview does, and on a worked day the same owed minutes |
| Excel.DayGrid | src/services/excelService.js:77-128 | the day-grid loop fills one column per day from column C on, and collects the days' date, worked and overtime minutes unchanged |
| Excel.GridOf | src/services/excelService.js:77-128 | the grid has one column per day |
| Excel.GridOfIndex | src/services/excelService.js:78-127 | the column of the j-th day is column 3 + j |
| Excel.SummarizeSheetWeek | src/services/excelService.js:147-175 | one pass of the export's weekly loop: a last week of fewer than seven days is summed day by day against the base; every other week is held to 48 h; the row runs Monday to Sunday, never clipped |
| Excel.LastOfDistinct | src/services/excelService.js:140-152 | among distinct week starts, only the last one is the last week |
| Excel.SheetWeeks | src/services/excelService.js:146-181 | the export's loop over week starts: one row per start, and the running sums of worked, extra, owed and net are the sums of the rows |
| Excel.SheetWeeklySummary | src/services/excelService.js:130-181 | grouping, sorting and the weekly loop give the rows of the sorted Monday keys; `sumNet` = `sumExtra` - `sumOwed` |
| Excel.SheetSumsSnoc | src/services/excelService.js:177-180 | appending a row adds its worked, extra, owed and extra - owed to the four sums |
| Excel.SheetNetIsExtraMinusOwed | src/services/excelService.js:167-180 | the sum of the weekly nets is the extra sum less the owed sum |
| Excel.NetCell | src/services/excelService.js:183-190 | a net that is not negative shows as a time value; a negative one as the text "-HH:MM", which reads back as the net |
| Excel.SummaryRowOf | src/services/excelService.js:216-242 | a table row shows its week, its worked, extra and owed time, and its net as extra - owed |
| Excel.NameCell | src/services/excelService.js:58 | the name cell shows the full name, or nothing when there is none |
| Excel.Map | src/services/excelService.js:214-216 | the rows come in the order of the weeks, one for each |
| Excel.SummaryRows | src/services/excelService.js:214-245 | the loop over the weekly summary writes one table row per week, in order |
| Excel.SheetOf | src/services/excelService.js:46-278 | every worksheet gets a safe name |
| Excel.BuildSheet | src/services/excelService.js:46-278 | one pass of the loop over blocks builds the grid, the weekly table, the net in C3 and the totals row of that block |
| Excel.BuildWorkbook | src/services/excelService.js:42-281 | `buildWorkbook` builds one worksheet per block, in order |
| Excel.EnrichedCalendar | src/controllers/reportsController.js:100-118 | labelling a calendar of days gives a calendar of labelled days |
| Excel.CalendarDailyRules | src/services/excelService.js:157-160 | over a calendar window without a worked Sunday, the export's daily rule (no Sunday bonus) and the preview's agree |
| Excel.DailyRulesAgree | src/services/excelService.js:159-160 | the export's daily rule, summed over a window's days, equals the preview's walk when no Sunday is worked |
| Excel.SheetWeekWorked | src/services/excelService.js:146-175 | for a calendar week key, the export's row spans Monday to Sunday while the preview's is clipped, and both have the same worked minutes over as many days as the clipped window |
| Excel.SheetLastWeek | src/services/excelService.js:157-160 | a last week cut short by the range, without a worked Sunday, gets the same extra and owed minutes from both rules |
| Excel.SheetWeekAgainstPreview | src/services/excelService.js:150-175 | for each week key of a calendar, the export and the preview agree on worked minutes, and on extra and owed for a week inside the range and for a clipped last week without a worked Sunday |
| Excel.SheetRowFromMonday | src/services/excelService.js:150-165 | when the range starts on a Monday, a week inside the range or the last week has the same figures under both rules |
| Excel.SheetRowsAgainstPreview | src/services/excelService.js:146-175 | for the same week keys, the export's and the preview's rows pair up one for one: the export's runs Monday to Sunday, the preview's is cut to the range, both have the same worked minutes, and a week inside the range has the same extra and owed |
| Excel.SheetWeeklyAgainstPreview | src/services/excelService.js:130-181 | over any calendar, the export and the preview list one row per week key of the range, in the same order; each pair has the same worked minutes, and the same extra and owed when the week lies inside the range |
| Excel.SheetMatchesPreview | src/services/excelService.js:146-175 | over a calendar whose range starts on a Monday, the export's weekly rows and the preview's have the same worked, extra and owed figures, one for one |
| Excel.SameSums | src/services/excelService.js:177-180 | rows with the same figures have the same extra, owed and net sums |
| Excel.ExportMatchesPreview | src/controllers/reportsController.js:222-249 | for a range that starts on a Monday, the export of the filled calculation shows the preview's extra, owed and net totals, and the same net in C3 and in the totals row |
| Excel.FirstPartialWeekDiverges | src/services/excelService.js:161-165 | with nothing worked from Saturday 1970-01-10 to Monday 1970-01-12, the export holds the first week, of two days, to 48 h owed, while the preview clips it and owes 16 h |
| Excel.WorkedSundayDiverges | src/services/excelService.js:157-160 | with one hour worked on the Sunday of a Wednesday-to-Sunday range, the export counts no extra and 39 h owed, while the preview counts the flat 8 h extra and 32 h owed |
| Excel.ExampleSheetWeek | src/services/excelService.js:161-175 | the export's first week of that range runs from Monday 1970-01-05 to Sunday 1970-01-11 and owes 48 h |
| Excel.ExamplePreviewWeek | src/controllers/reportsController.js:158-176 | the preview cuts that week to the Saturday and the Sunday and owes 8 h for each |
| Excel.SundaySheet | src/services/excelService.js:157-160 | over Wednesday 1970-01-07 to Sunday 1970-01-11 with one hour on the Sunday, the export's single short last week has no extra and owes 39 h: no Sunday bonus |
| Excel.SundayPreview | src/controllers/reportsController.js:166-172 | over the same days the preview's single row has the flat 8 h Sunday extra and owes 32 h for the four idle weekdays |

## Left out

- **Persistence, HTTP and process plumbing.** Looking up employees and sessions, the `employeeIds` filter, request and response objects, status codes and `await` are left out. The selected employees' sessions are a parameter of `Preview`.
- **`normalizeSessions`.** Its trim of the times is repeated inside `normalizeTime`, as `NormalizeTimeTrims` shows. Its date formatting falls under time-zone and date parsing below. Sessions enter the model with a day number, or none.
- **Time zones and date parsing.** `dayjs`, `Date`, time zones and daylight saving are left out. Dates are day numbers, and instants are date * 1440 + minute of the day.
- **Floating point.** The model keeps exact whole minutes where the source keeps hours rounded to two decimals. `computeFromSessions` rounds each day's worked and overtime hours and the total with `toFixed(2)` (`src/services/overtimeService.js:76-77,84`). So 20 minutes become 0.33 h, and three such days show as "00:59" in the source against 60 minutes in the model. `toExcelTime` (hours / 24) and the `Math.round` of `decToHHMM` on values that are not whole minutes are left out as well.
- Reports.DecToHHMM: stated on whole minutes only, because the model has no fractional hours; its reset of a rounded 60-minute field never fires on whole minutes. An infinite input is modelled as `NotNumeric`, which shows "00:00", while the source's `isNaN(Infinity)` is false and it prints "Infinity:NaN" (`src/controllers/reportsController.js:54`). No caller passes an infinity.
- Excel.DecToHHMM: stated on whole minutes only, as for the preview's formatter. An infinite input counts as 0 in the model, while the source's `Number(h) || 0` keeps Infinity and prints "Infinity:NaN" (`src/services/excelService.js:13`). No caller passes an infinity.
- **Environment defaults.** `BASE_HOURS_PER_DAY` and `DEFAULT_LUNCH_MINUTES` are a `Defaults` parameter. `ENV_DEFAULTS` holds their fallbacks (8 h and 60 min).
- **Base fallback.** The preview and the export fall back to the request's base, or to 8 h, when the calculation's base is not finite (`src/controllers/reportsController.js:95-97`, `src/services/excelService.js:73-75`). `computeFromSessions` always sets a finite base, so the model uses that base directly.
- **Per-week sort.** The sort of each week's days (`src/controllers/reportsController.js:135`, `src/services/excelService.js:147`) is not modelled. Neither is the sort of the weekly rows before they are written (`src/services/excelService.js:214-215`). On the filled days the engine works on, these lists are already in ascending order. When records repeat a date, the order the model keeps can differ from the sorted one.
- **`fillMissingDays` sort.** This sort (`src/controllers/reportsController.js:40`) is not modelled, because `FillMissingDays` builds its list in ascending date order.
- **ExcelJS rendering.** Fonts, widths, number formats, frozen panes, header texts and `wb.xlsx.write` are left out. A sheet is modelled as its name, name cell, net cell, day grid, weekly table and totals row.
- **Duplicate sheet names.** ExcelJS rejects two blocks whose names clean to the same sheet name; the model does not capture this.
- **String lengths.** `.slice(0, 31)` counts UTF-16 code units. `Excel.Take` counts Unicode scalar values. The two differ only on characters outside the Basic Multilingual Plane.
- **Non-string inputs.** `normalizeTime` is modelled on strings. Its `String(t)` coercion of other values is left out.
- **Module path.** The controller requires `'../services/excel.service'` although the file is `excelService.js` (`src/controllers/reportsController.js:10`). This is module resolution, not engine logic.
