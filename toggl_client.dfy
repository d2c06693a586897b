/**
 * `TogglClient` (src/index.js:46-148) and the run the module performs when
 * it is loaded (src/index.js:43-44, 168-169).
 *
 * The two remote endpoints are replaced by what they answer: the report
 * pages as a sequence (page `n` is `pages[n - 1]`) and the running entry as
 * an optional value. The wall clock becomes the parameter `now`
 * (milliseconds) and today's date the parameter `untilDate`.
 */
module Toggl {
  import opened Wrappers
  import opened Calendar
  import opened TimeEntries

  /** The pair `fetchTimeEntries` resolves to: worked hours and missing dates. */
  datatype Entries = Entries(workedHours: real, missingDates: seq<Day>)

  /** What a run reports: the baseline, the worked hours and the missing dates. */
  datatype Summary = Summary(expectedHours: real, workedHours: real, missingDates: seq<Day>)

  /** The filter of `_missingDates`: the workdays not in `collected`, in order. */
  function Missing(workdays: seq<Day>, collected: set<Day>): (r: seq<Day>)
    ensures forall d :: d in r <==> d in workdays && d !in collected
    ensures IsSubsequence(r, workdays)
    ensures forall d :: multiset(r)[d] == if d !in collected then multiset(workdays)[d] else 0
  {
    Filter(workdays, d => d !in collected)
  }

  /** When no workday is collected, every workday of an ascending window is missing. */
  lemma NothingCollectedAllMissing(workdays: seq<Day>, collected: set<Day>)
    requires Increasing(workdays)
    requires forall d :: d in workdays ==> d !in collected
    ensures Missing(workdays, collected) == workdays
  {
    SubsequenceOfIncreasing(Missing(workdays, collected), workdays);
    IncreasingUnique(Missing(workdays, collected), workdays);
  }

  class TogglClient {
    /** The accounting window, fixed for the life of the client. */
    const firstWorkDay: Day
    const untilDate: Day
    /** The days that some time entry touches. */
    var collectedDates: set<Day>

    constructor (firstWorkDay: Day, untilDate: Day)
      ensures this.firstWorkDay == firstWorkDay && this.untilDate == untilDate
      ensures collectedDates == {}
    {
      this.firstWorkDay := firstWorkDay;
      this.untilDate := untilDate;
      collectedDates := {};
    }

    /** `fetchTimeEntries`: past hours first, then the current entry, then the
        missing dates against the set both have filled. `_missingDates`
        throws, through `eachDay`, when the window is inverted. */
    method FetchTimeEntries(pages: seq<Page>, current: Option<CurrentEntry>, now: int) returns (r: Option<Entries>)
      requires PaginationStops(pages)
      modifies this
      ensures collectedDates == old(collectedDates) + PastDays(pages) + CurrentEntryDays(current)
      ensures r.None? <==> firstWorkDay > untilDate
      ensures r.Some? ==> r.value.workedHours == PastTotal(pages) + CurrentEntryHours(current, now)
      ensures r.Some? ==> Some(r.value.missingDates) == MissingDates()
      ensures r.Some? ==> r.value.missingDates == Missing(WorkdayWindow(firstWorkDay, untilDate).value, collectedDates)
    {
      var pastHours;
      ghost var requested;
      pastHours, requested := PastHours(pages);
      var currentHours := CurrentHours(current, now);
      var missing := MissingDates();
      if missing.None? {
        return None;
      }
      r := Some(Entries(pastHours + currentHours, missing.value));
    }

    /** `_missingDates`: the workdays of the window whose day no entry
        touches, in calendar order. */
    function MissingDates(): (r: Option<seq<Day>>)
      reads this
      ensures r.None? <==> firstWorkDay > untilDate
      ensures r.Some? ==> Increasing(r.value)
      ensures r.Some? ==> IsSubsequence(r.value, WorkdayWindow(firstWorkDay, untilDate).value)
      ensures r.Some? ==> forall d :: d in r.value <==>
        firstWorkDay <= d <= untilDate && IsWorkday(d) && d !in collectedDates
    {
      match WorkdayWindow(firstWorkDay, untilDate)
      case None => None
      case Some(workdays) =>
        var missing := Missing(workdays, collectedDates);
        SubsequenceOfIncreasing(missing, workdays);
        Some(missing)
    }

    /** `_currentHours`: a null `data` contributes nothing; a running entry
        adds its start day and contributes `(now + duration * 1000) / 3600000`. */
    method CurrentHours(current: Option<CurrentEntry>, now: int) returns (hours: real)
      modifies this
      ensures hours == CurrentEntryHours(current, now)
      ensures collectedDates == old(collectedDates) + CurrentEntryDays(current)
      ensures current.None? ==> hours == 0.0 && collectedDates == old(collectedDates)
      ensures current.Some? ==> collectedDates == old(collectedDates) + {DayOf(current.value.start)}
    {
      if current.Some? {
        collectedDates := collectedDates + {DayOf(current.value.start)};
        hours := ElapsedHours(now, current.value.duration);
      } else {
        hours := 0.0;
      }
    }

    /** `_pastHours()`: requests pages 1, 2, ... in turn, adds each page's
        hours to the running total and each record's start and end day to
        `collectedDates`, and stops after the first page `k` with
        `k * perPage >= totalCount`. The ghost `requested` lists the page
        numbers asked for, in order. */
    method PastHours(pages: seq<Page>) returns (totalHours: real, ghost requested: seq<int>)
      requires PaginationStops(pages)
      modifies this
      ensures totalHours == PastTotal(pages)
      ensures collectedDates == old(collectedDates) + PastDays(pages)
      ensures requested == PageNumbers(FirstStop(pages))
    {
      ghost var last := FirstStop(pages);
      var currentPage := 1;
      var accu := 0.0;
      requested := [];
      while true
        invariant 1 <= currentPage <= last
        invariant accu == Hours(Flatten(pages[..currentPage - 1]))
        invariant collectedDates == old(collectedDates) + RecordDays(Flatten(pages[..currentPage - 1]))
        invariant requested == PageNumbers(currentPage - 1)
        decreases last - currentPage
      {
        var response := pages[currentPage - 1];
        PageNumbersSnoc(currentPage - 1);
        requested := requested + [currentPage];
        var hours := ReduceHours(response.data, 0.0);
        totalHours := accu + hours;
        AddRecordDays(response.data);
        FetchStep(pages, currentPage);
        if currentPage * response.perPage < response.totalCount {
          assert !StopsAt(pages, currentPage) && StopsAt(pages, last);
          assert currentPage < last;
          currentPage, accu := currentPage + 1, totalHours;
        } else {
          assert StopsAt(pages, currentPage);
          assert currentPage == last;
          return;
        }
      }
    }

    /** The `forEach` of src/index.js:137-140: the start day and the end day
        of every record go into `collectedDates`. */
    method AddRecordDays(data: seq<Record>)
      modifies this
      ensures collectedDates == old(collectedDates) + RecordDays(data)
    {
      var i := 0;
      while i < |data|
        invariant 0 <= i <= |data|
        invariant collectedDates == old(collectedDates) + RecordDays(data[..i])
      {
        collectedDates := collectedDates + {DayOf(data[i].start)};
        collectedDates := collectedDates + {DayOf(data[i].end)};
        assert data[..i + 1] == data[..i] + [data[i]];
        assert RecordDays([data[i]]) == EntryDays(data[i]);
        RecordDaysAppend(data[..i], [data[i]]);
        i := i + 1;
      }
      assert data[..|data|] == data;
    }
  }

  /** The run as one value: `None` when `eachDay` throws on an inverted
      window at src/index.js:44, before any request. */
  function Summarize(firstWorkDay: Day, untilDate: Day, hoursPerDay: real,
                     pages: seq<Page>, current: Option<CurrentEntry>, now: int): (r: Option<Summary>)
    requires firstWorkDay <= untilDate ==> PaginationStops(pages)
    ensures r.None? <==> firstWorkDay > untilDate
  {
    match ExpectedHours(firstWorkDay, untilDate, hoursPerDay)
    case None => None
    case Some(expectedHours) =>
      var collected := PastDays(pages) + CurrentEntryDays(current);
      var workdays := WorkdayWindow(firstWorkDay, untilDate).value;
      Some(Summary(expectedHours, PastTotal(pages) + CurrentEntryHours(current, now), Missing(workdays, collected)))
  }

  /** Module load: the baseline over `firstWorkDay..untilDate`, then one
      client and its `fetchTimeEntries`. */
  method Run(firstWorkDay: Day, untilDate: Day, hoursPerDay: real,
             pages: seq<Page>, current: Option<CurrentEntry>, now: int) returns (r: Option<Summary>)
    requires firstWorkDay <= untilDate ==> PaginationStops(pages)
    ensures r == Summarize(firstWorkDay, untilDate, hoursPerDay, pages, current, now)
  {
    var expectedHours := ExpectedHours(firstWorkDay, untilDate, hoursPerDay);
    if expectedHours.None? {
      return None;
    }
    var client := new TogglClient(firstWorkDay, untilDate);
    var entries := client.FetchTimeEntries(pages, current, now);
    assert client.collectedDates == PastDays(pages) + CurrentEntryDays(current);
    SummarizeOfWindow(firstWorkDay, untilDate, hoursPerDay, pages, current, now, expectedHours.value,
                      WorkdayWindow(firstWorkDay, untilDate).value, entries.value.workedHours, client.collectedDates);
    r := Some(Summary(expectedHours.value, entries.value.workedHours, entries.value.missingDates));
  }

  /** A run over a valid window reports the day-by-day workday baseline, the
      past hours plus the current entry's, and exactly the workdays of the
      window that no entry touches, in calendar order. */
  lemma SummarizeMeaning(firstWorkDay: Day, untilDate: Day, hoursPerDay: real,
                         pages: seq<Page>, current: Option<CurrentEntry>, now: int)
    requires firstWorkDay <= untilDate && PaginationStops(pages)
    ensures Summarize(firstWorkDay, untilDate, hoursPerDay, pages, current, now).Some?
    ensures
      var s := Summarize(firstWorkDay, untilDate, hoursPerDay, pages, current, now).value;
      && s.expectedHours == Times(WorkdayCount(firstWorkDay, untilDate), hoursPerDay)
      && s.workedHours == PastTotal(pages) + CurrentEntryHours(current, now)
      && Increasing(s.missingDates)
      && forall d :: d in s.missingDates <==>
           firstWorkDay <= d <= untilDate && IsWorkday(d) && d !in PastDays(pages) && d !in CurrentEntryDays(current)
  {
    ExpectedHoursIsCount(firstWorkDay, untilDate, hoursPerDay);
    var workdays := WorkdayWindow(firstWorkDay, untilDate).value;
    var collected := PastDays(pages) + CurrentEntryDays(current);
    SubsequenceOfIncreasing(Missing(workdays, collected), workdays);
  }

  /** A run over a valid window, once its baseline and its workdays are known. */
  lemma SummarizeOfWindow(firstWorkDay: Day, untilDate: Day, hoursPerDay: real,
                          pages: seq<Page>, current: Option<CurrentEntry>, now: int,
                          expectedHours: real, workdays: seq<Day>, worked: real, collected: set<Day>)
    requires PaginationStops(pages)
    requires ExpectedHours(firstWorkDay, untilDate, hoursPerDay) == Some(expectedHours)
    requires WorkdayWindow(firstWorkDay, untilDate) == Some(workdays)
    requires PastTotal(pages) + CurrentEntryHours(current, now) == worked
    requires PastDays(pages) + CurrentEntryDays(current) == collected
    ensures Summarize(firstWorkDay, untilDate, hoursPerDay, pages, current, now) ==
      Some(Summary(expectedHours, worked, Missing(workdays, collected)))
  {
  }

  /** The parts of a Monday-to-Friday run with one eight-hour record of the
      Monday on a single report page and no running entry. */
  lemma OneRecordMondayWeekParts(monday: Day, record: Record, now: int)
    requires Weekday(monday) == 1
    requires EntryDays(record) == {monday} && RecordHours(record) == 8.0
    ensures PaginationStops([Page(50, 1, [record])])
    ensures PastTotal([Page(50, 1, [record])]) + CurrentEntryHours(None, now) == 8.0
    ensures PastDays([Page(50, 1, [record])]) + CurrentEntryDays(None) == {monday}
    ensures ExpectedHours(monday, monday + 4, 8.0) == Some(32.0)
    ensures WorkdayWindow(monday, monday + 4) == Some([monday + 1, monday + 2, monday + 3, monday + 4])
    ensures Missing([monday + 1, monday + 2, monday + 3, monday + 4], {monday}) == [monday + 1, monday + 2, monday + 3, monday + 4]
  {
    SingleRecordPage(record, 50);
    MondayToFriday(monday);
    NothingCollectedAllMissing([monday + 1, monday + 2, monday + 3, monday + 4], {monday});
  }

  /** A Monday-to-Friday run, eight hours a day, whose report is one page
      with one eight-hour record of the Monday and no running entry: the
      baseline is 32 hours and Tuesday to Friday are missing. */
  lemma OneRecordMondayWeek(monday: Day, record: Record, now: int)
    requires Weekday(monday) == 1
    requires EntryDays(record) == {monday} && RecordHours(record) == 8.0
    ensures PaginationStops([Page(50, 1, [record])])
    ensures Summarize(monday, monday + 4, 8.0, [Page(50, 1, [record])], None, now) ==
      Some(Summary(32.0, 8.0, [monday + 1, monday + 2, monday + 3, monday + 4]))
  {
    var workdays := [monday + 1, monday + 2, monday + 3, monday + 4];
    OneRecordMondayWeekParts(monday, record, now);
    SummarizeOfWindow(monday, monday + 4, 8.0, [Page(50, 1, [record])], None, now, 32.0, workdays, 8.0, {monday});
  }

  /** 2024-01-01 to 2024-01-05 (Monday to Friday), eight hours a day, one
      report page with one eight-hour record on 2024-01-01 and no running
      entry. The Monday is no workday as written, so the baseline is 32
      hours; the four remaining days are missing. */
  lemma OneRecordWeek(now: int)
    ensures
      var record := Record(28800000, 1704099600000, 1704128400000);
      var pages := [Page(50, 1, [record])];
      PaginationStops(pages) &&
      Summarize(19723, 19727, 8.0, pages, None, now) == Some(Summary(32.0, 8.0, [19724, 19725, 19726, 19727]))
  {
    var record := Record(28800000, 1704099600000, 1704128400000);
    assert EntryDays(record) == {19723};
    assert RecordHours(record) == 8.0;
    OneRecordMondayWeek(19723, record, now);
  }
}
