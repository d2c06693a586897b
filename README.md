# togglbalance: worked hours against a workday baseline

togglbalance asks Toggl for the time entries between a first work day and
today. It compares the worked hours with an expected baseline, which is the
number of workdays times the hours per day. It also lists the workdays that
no entry touches.

This project models that aggregation in Dafny:

- `Calendar` (`calendar.dfy`) holds the weekday rule of `workdaysInRange`,
  the day enumeration of `eachDay` and the expected-hours baseline.
- `TimeEntries` (`time_entries.dfy`) holds the records and pages of the
  detailed report, the running entry and the pure part of the aggregation:
  - the `reduce` over a page's `dur` values;
  - the days an entry touches;
  - the pagination stop rule `currentPage * perPage < totalCount`;
  - the hours of the running entry.
- `Toggl` (`toggl_client.dfy`) holds `TogglClient`, a class whose
  `collectedDates` set is updated in place by `PastHours` and
  `CurrentHours`. `PastHours` is a paging loop with a running total. The
  file also holds the run the module performs when it is loaded.
- `Wrappers` (`wrappers.dfy`) holds `Option`, used for a `null` current entry
  and for the exception `eachDay` throws on an inverted window.

Representation:

- A day is an integer count of days since 1970-01-01 (UTC). An instant is an
  integer count of milliseconds since the epoch. `toISOString().substring(0, 10)`
  becomes `DayOf(ms) = ms / 86400000`.
- The weekday is `(day + 4) % 7`, numbered as JavaScript's `getDay` numbers it
  (0 is Sunday), because 1970-01-01 was a Thursday.
- Hours are exact `real`s.
- The report endpoint is replaced by the sequence of pages the service
  answers: page `n` is `pages[n - 1]`.
- The current-entry endpoint is replaced by an `Option<CurrentEntry>`.
- The clock is replaced by the parameters `now` (milliseconds) and
  `untilDate` (today).

**The weekday rule is modelled as written.** `!(d.getDay() in [5, 6])` uses
JavaScript's `in` operator, which tests whether a value is an array INDEX.
The indices of `[5, 6]` are 0 and 1, so the code drops Sundays and Mondays
and keeps Saturdays. `Calendar.IsWorkday` models exactly that.
`Calendar.AsWrittenRuleVersusSatSun` proves that it differs from a
Saturday/Sunday rule on exactly the Mondays and the Saturdays. Under a
Saturday/Sunday rule, 2024-01-01 to 2024-01-05 would give 40 hours at eight
hours a day. As written, 2024-01-01 is a Monday and is dropped, so
`Toggl.OneRecordWeek` proves 32 hours. Any fourteen consecutive days keep
ten days (`Calendar.TwoWeeksTenWorkdays`).

**Termination.** `_pastHours` recurses while `currentPage * perPage <
totalCount` holds. It stops only if some page it fetches fails that test.
`PastHours` therefore requires `PaginationStops(pages)`: one of the given
responses stops the session. With a stable `perPage >= 1`, the stop is at
page `max(1, ceil(totalCount / perPage))` (`StablePagination`). With a
stable `perPage <= 0` below `totalCount`, no page ever stops it
(`NonPositivePageSizeNeverStops`).

## Model

| member | source | states |
|---|---|---|
| Calendar.DayOf | src/index.js:138-139 | the ISO day of an instant is the day whose 24 hours contain it |
| Calendar.Weekday | src/index.js:37 | `getDay` is a number from 0 to 6 |
| Calendar.IndicesOfNonWorkdayList | src/index.js:37 | `n in [5, 6]` holds exactly for the indices 0 and 1, and not for the elements 5 and 6 |
| Calendar.IsWorkday | src/index.js:36-38 | `isWorday` as written keeps a day exactly when its weekday number is neither 0 (Sunday) nor 1 (Monday) |
| Calendar.AsWrittenRuleVersusSatSun | src/index.js:37 | the rule as written and a Saturday/Sunday rule disagree exactly on Mondays (dropped) and Saturdays (kept) |
| Calendar.MondayDroppedSaturdayKept | src/index.js:37 | 2024-01-01, a Monday, is dropped; 2024-01-06, a Saturday, is kept |
| Calendar.WeekdayNext | src/index.js:37 | the day after a day has the next `getDay` number, Saturday (6) wrapping to Sunday (0) |
| Calendar.Filter | src/index.js:40 | `filter` returns exactly the kept elements, as a subsequence in input order, each kept element as often as in the input and no other; never longer than its input |
| Calendar.SubsequenceOfIncreasing | src/index.js:40 | a subsequence of an ascending day sequence is ascending and draws its elements from it |
| Calendar.FilterIncreasing | src/index.js:40 | filtering keeps the calendar order of the days |
| Calendar.WorkdaysInRange | src/index.js:35-41 | `workdaysInRange` returns the days of its input whose weekday is not 0 or 1, each as often as in the input, and no other, as an order-preserving subsequence no longer than the input |
| Calendar.DayRange | src/index.js:44 | the days `lo..hi`, each once, ascending |
| Calendar.EachDay | src/index.js:44 | `eachDay(start, end)` gives every day from `start` to `end` inclusive, ascending, and fails exactly when `start > end` |
| Calendar.WorkdayWindow | src/index.js:77 | `workdaysInRange(eachDay(first, until))` is exactly the workdays in the window, ascending; it fails exactly on an inverted window |
| Calendar.ExpectedHours | src/index.js:44 | the baseline fails exactly when the window is inverted |
| Calendar.WorkdaysInRangeCount | src/index.js:44 | the length of the filtered day range equals the day-by-day workday count |
| Calendar.ExpectedHoursIsCount | src/index.js:43-44 | `expectedHours` is the number of workdays in `firstWorkDay..untilDate` times `hoursPerDay` |
| Calendar.WorkdayCountSplit | src/index.js:44 | the workday count over a window is the sum over two adjacent sub-windows |
| Calendar.WeekHasFiveWorkdays | src/index.js:35-41 | any seven consecutive days hold five workdays |
| Calendar.WholeWeeksWorkdays | src/index.js:35-41 | `n` whole weeks hold `5 * n` workdays |
| Calendar.TwoWeeksTenWorkdays | src/index.js:44 | a fourteen-day window spanning two weeks yields ten workdays |
| Calendar.IncreasingUnique | src/index.js:40 | two ascending day sequences with the same members are equal, so the filtered window is determined by which days it holds |
| Calendar.WorkdayWindowIs | src/index.js:44 | the filtered window of a valid range equals any ascending sequence holding exactly the range's workdays |
| Calendar.MondayToFriday | src/index.js:35-44 | a Monday-to-Friday window keeps Tuesday to Friday as written, so eight hours a day give a 32-hour baseline |
| Calendar.FirstWeekOf2024 | src/index.js:35-44 | 2024-01-01 to 2024-01-05 yields 2024-01-02 to 2024-01-05 and a 32-hour baseline at eight hours a day |
| TimeEntries.ReduceHours | src/index.js:134 | the `reduce` from `previous` yields `previous` plus the sum of `dur / 3600000` over the page |
| TimeEntries.HoursAppend | src/index.js:134-135 | the hours of two runs of records together are the sum of their hours |
| TimeEntries.RecordDaysAppend | src/index.js:137-140 | the days of two runs of records together are the union of their days |
| TimeEntries.EntryDays | src/index.js:138-139 | a record contributes its start day and its end day, and only days whose 24 hours contain its start or end instant |
| TimeEntries.RecordDaysMembers | src/index.js:137-140 | a day is collected from records exactly when it is the start day or end day of one of them |
| TimeEntries.FlattenSnoc | src/index.js:142-143 | fetching one more page appends its records after those already fetched |
| TimeEntries.FlattenMembers | src/index.js:137 | a record is among the fetched records exactly when it is on one of the fetched pages |
| TimeEntries.FirstStopFrom | src/index.js:142-146 | from page `k` on, the client stops at the first page that fails `currentPage * perPage < totalCount`, within the responses given |
| TimeEntries.FirstStop | src/index.js:142-146 | the number of pages fetched is at least 1 (page 1 is always fetched) and is the first page `k` with `k * perPage >= totalCount` |
| TimeEntries.FetchStep | src/index.js:134-140 | fetching page `k` adds that page's `reduce` sum to the total and its records' days to the collected days |
| TimeEntries.PastDaysMembers | src/index.js:137-143 | the days collected from the report are exactly the start and end days of the records on the fetched pages |
| TimeEntries.LastPage | src/index.js:142 | `max(1, ceil(totalCount / perPage))` is the least `k >= 1` with `k * perPage >= totalCount` |
| TimeEntries.StopsExactlyFromLastPage | src/index.js:142 | with a positive page size, the test `currentPage * perPage < totalCount` fails on page `k` exactly when `k >= LastPage(perPage, totalCount)` |
| TimeEntries.StablePagination | src/index.js:142-146 | with a stable `perPage >= 1` and `totalCount`, the session stops, after exactly `LastPage(perPage, totalCount)` pages |
| TimeEntries.NonPositivePageSizeNeverStops | src/index.js:142-143 | with a stable `perPage <= 0` below `totalCount`, no page ever stops the recursion |
| TimeEntries.Paginate | src/index.js:131-133 | a service splitting records into pages of `perPage` serves `LastPage` stable pages whose records, in order, are the records |
| TimeEntries.PageSplitIndependence | src/index.js:134-145 | however the records are split into pages, the session fetches all of them, the total is their summed hours and the collected days are their days |
| TimeEntries.ThreePagesOrOne | src/index.js:134-145 | 150 records in three pages of 50 or in one page of 150 give the same total |
| TimeEntries.SingleRecordPage | src/index.js:134-145 | a first page holding the whole count in one record stops the session with that record's hours and start and end days |
| TimeEntries.OneRecordPage | src/index.js:134-145 | one page of 50 holding one eight-hour record from 2024-01-01 stops the session with 8 hours and the single day 2024-01-01 collected |
| TimeEntries.RunningEntryElapsed | src/index.js:98 | with the service's negative-start encoding of a running entry's duration, the formula gives the hours since the start, non-negative once started |
| TimeEntries.CurrentEntryHours | src/index.js:96-101 | 0 for a null `data`; for a running entry whose duration is minus its start in seconds, the hours elapsed since its start |
| TimeEntries.CurrentEntryDays | src/index.js:96-97 | no day for a null entry; otherwise the single day of the entry's start |
| Toggl.Missing | src/index.js:78 | the filter keeps exactly the workdays not in the collected set, each as often as in the workdays, in workday order |
| Toggl.NothingCollectedAllMissing | src/index.js:76-80 | when no workday of an ascending window is collected, all of them are missing, in order |
| Toggl.TogglClient.constructor | src/index.js:51-55 | a new client holds the window and an empty `collectedDates` |
| Toggl.TogglClient.FetchTimeEntries | src/index.js:57-66 | past hours first, then current hours: the set gains the past days and the current start day, and the total is past plus current hours; the missing dates are computed against the updated set; the result fails exactly on an inverted window |
| Toggl.TogglClient.MissingDates | src/index.js:76-80 | exactly the workdays of the window not in `collectedDates`, ascending, as a subsequence of the workdays; fails exactly on an inverted window |
| Toggl.TogglClient.CurrentHours | src/index.js:82-102 | with no entry, 0 and an unchanged set; with an entry, exactly its start day added and `(now + duration * 1000) / 3600000` returned |
| Toggl.TogglClient.PastHours | src/index.js:104-147 | the total is the summed hours of every record of every fetched page; the set gains exactly those records' start and end days; the pages requested are 1, 2, ..., k with k the first stopping page |
| Toggl.TogglClient.AddRecordDays | src/index.js:137-140 | the set gains exactly the start and end days of the page's records |
| Toggl.Run | src/index.js:168-169 | a run computes the baseline (src/index.js:43-44), then one client's `fetchTimeEntries`; it fails before any request on an inverted window |
| Toggl.Summarize | src/index.js:43-44 | the run's result fails exactly on an inverted window |
| Toggl.SummarizeOfWindow | src/index.js:57-66 | once the baseline and the workdays of a valid window are known, the run reports them with past plus current hours and the workdays not collected |
| Toggl.SummarizeMeaning | src/index.js:57-66 | a run over a valid window reports the workday-count baseline, past plus current hours, and exactly the uncovered workdays in calendar order |
| Toggl.OneRecordMondayWeekParts | src/index.js:35-44 | for any Monday, one page with one eight-hour record of that Monday gives 8 worked hours, the collected set {Monday}, a 32-hour baseline and Tuesday to Friday as workdays, all missing |
| Toggl.OneRecordMondayWeek | src/index.js:35-44 | for any Monday, such a run reports (32, 8, [Tuesday, ..., Friday]) |
| Toggl.OneRecordWeek | src/index.js:35-44 | 2024-01-01 to 2024-01-05 with one 8-hour record on 2024-01-01 and no running entry: baseline 32 hours, 8 worked, 2024-01-02 to 2024-01-05 missing |

## Left out

- `validateConfig` and the environment (src/index.js:9-33): `firstWorkDay` and `hoursPerDay` become parameters. The API token and `workspaceId` only feed the headers and the query string, which are left out. The client is built from the window, which the source keeps in module constants.
- HTTP requests, URLs and query strings (src/index.js:90-94, 105-116, 130): replaced by the pages and the optional entry the service answers. Transport, HTTP-status and decoding failures are not modelled; the source has no handling for them, and any of them ends the run.
- `_getHeaders` (src/index.js:68-74): Base64 through Node's `Buffer`; it has no bearing on the arithmetic.
- The `co` generator and promise plumbing (src/index.js:60, 82, 104, 143): modelled as plain sequential calls.
- Date parsing and the time zone: date-fns `parse` and the difference between local-time `getDay` and UTC `toISOString`. All days are UTC epoch days, and `eachDay` is modelled by its result.
- Day strings: `collectedDates` and the missing dates hold day integers instead of `YYYY-MM-DD` strings.
- Console output: the `console.log('Fetching time entries...')` of src/index.js:61 and `printResults` (src/index.js:150-166) with its colouring and `toFixed` rounding. The balance `workedHours - expectedHours` is not given its own member.
- Floating point: `dur / 3600000`, the `reduce` sum and `Number(hoursPerDay)` use exact reals. NaN from an unparsable `HOURS_PER_DAY` is not represented.
- Toggl.TogglClient.PastHours: it models `_pastHours()` as the run calls it, with `currentPage = 1` and `accu = 0`. It requires that one of the given responses stops the session, because otherwise the source never terminates.
