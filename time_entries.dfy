/**
 * Time entries as the two remote endpoints return them, and the pure part of
 * their aggregation: hours of a report page (the `reduce` at
 * src/index.js:134), the days an entry touches (src/index.js:97, 137-140),
 * the pagination stop rule (src/index.js:142) and the hours of the running
 * entry (src/index.js:98).
 */
module TimeEntries {
  import opened Wrappers
  import opened Calendar

  const MillisPerHour: int := 60 * 60 * 1000

  /** One record of the detailed report: `dur` in milliseconds, `start` and
      `end` as instants in milliseconds since the epoch. */
  datatype Record = Record(dur: int, start: int, end: int)

  /** One response of the detailed-report endpoint. Page `n` of a session is
      `pages[n - 1]` of the sequence of responses the service gives. */
  datatype Page = Page(perPage: int, totalCount: int, data: seq<Record>)

  /** The running entry of the current-entry endpoint: `duration` in seconds
      as the service reports it, `start` an instant in milliseconds. */
  datatype CurrentEntry = CurrentEntry(duration: int, start: int)

  // ---------------------------------------------------------------------
  // Hours

  function RecordHours(r: Record): real {
    r.dur as real / MillisPerHour as real
  }

  /** Sum of `dur / 3600000` over `records`. */
  function Hours(records: seq<Record>): real {
    if records == [] then 0.0 else RecordHours(records[0]) + Hours(records[1..])
  }

  /** `data.reduce((previous, current) => previous + current.dur / 3600000, previous)`:
      the left fold from `previous` adds exactly the sum of the page's hours. */
  function ReduceHours(data: seq<Record>, previous: real): (r: real)
    ensures r == previous + Hours(data)
  {
    if data == [] then previous else ReduceHours(data[1..], previous + RecordHours(data[0]))
  }

  lemma {:induction false} HoursAppend(a: seq<Record>, b: seq<Record>)
    ensures Hours(a + b) == Hours(a) + Hours(b)
  {
    if a != [] {
      assert (a + b)[0] == a[0] && (a + b)[1..] == a[1..] + b;
      HoursAppend(a[1..], b);
      assert Hours(a + b) == RecordHours(a[0]) + Hours(a[1..] + b);
    } else {
      assert a + b == b;
    }
  }

  // ---------------------------------------------------------------------
  // Days touched by entries

  /** The calendar days of a record's start and of its end: each day in it
      is one whose 24 hours contain the start or the end instant. */
  function EntryDays(r: Record): (s: set<Day>)
    ensures DayOf(r.start) in s && DayOf(r.end) in s
    ensures forall d :: d in s ==>
      (d * MillisPerDay <= r.start < d * MillisPerDay + MillisPerDay) ||
      (d * MillisPerDay <= r.end < d * MillisPerDay + MillisPerDay)
  {
    {DayOf(r.start), DayOf(r.end)}
  }

  function RecordDays(records: seq<Record>): set<Day> {
    if records == [] then {} else EntryDays(records[0]) + RecordDays(records[1..])
  }

  lemma {:induction false} RecordDaysAppend(a: seq<Record>, b: seq<Record>)
    ensures RecordDays(a + b) == RecordDays(a) + RecordDays(b)
  {
    if a != [] {
      assert (a + b)[0] == a[0] && (a + b)[1..] == a[1..] + b;
      RecordDaysAppend(a[1..], b);
      assert RecordDays(a + b) == EntryDays(a[0]) + RecordDays(a[1..] + b);
    } else {
      assert a + b == b;
    }
  }

  /** A day is collected from `records` exactly when it is the start day or
      the end day of one of them. */
  lemma {:induction false} RecordDaysMembers(records: seq<Record>, d: Day)
    ensures d in RecordDays(records) <==> exists i :: 0 <= i < |records| && d in EntryDays(records[i])
  {
    if records != [] {
      RecordDaysMembers(records[1..], d);
      if d in RecordDays(records[1..]) {
        var i :| 0 <= i < |records[1..]| && d in EntryDays(records[1..][i]);
        assert d in EntryDays(records[i + 1]);
      }
      if exists i :: 0 <= i < |records| && d in EntryDays(records[i]) {
        var i :| 0 <= i < |records| && d in EntryDays(records[i]);
        if i > 0 {
          assert records[1..][i - 1] == records[i];
        }
      }
    }
  }

  // ---------------------------------------------------------------------
  // Pagination

  /** The records of all `pages`, page by page. */
  function Flatten(pages: seq<Page>): seq<Record> {
    if pages == [] then [] else pages[0].data + Flatten(pages[1..])
  }

  lemma {:induction false} FlattenSnoc(pages: seq<Page>, p: Page)
    ensures Flatten(pages + [p]) == Flatten(pages) + p.data
  {
    if pages == [] {
      assert [p][1..] == [];
    } else {
      assert (pages + [p])[1..] == pages[1..] + [p];
      FlattenSnoc(pages[1..], p);
    }
  }

  /** Every record of a page shows up in the flattened records, and every
      flattened record comes from a page. */
  lemma {:induction false} FlattenMembers(pages: seq<Page>, r: Record)
    ensures r in Flatten(pages) <==> exists k, i :: 0 <= k < |pages| && 0 <= i < |pages[k].data| && pages[k].data[i] == r
  {
    if pages != [] {
      FlattenMembers(pages[1..], r);
      if r in Flatten(pages) && r !in pages[0].data {
        var k, i :| 0 <= k < |pages[1..]| && 0 <= i < |pages[1..][k].data| && pages[1..][k].data[i] == r;
        assert pages[k + 1].data[i] == r;
      }
      if exists k, i :: 0 <= k < |pages| && 0 <= i < |pages[k].data| && pages[k].data[i] == r {
        var k, i :| 0 <= k < |pages| && 0 <= i < |pages[k].data| && pages[k].data[i] == r;
        if k > 0 {
          assert pages[1..][k - 1] == pages[k];
        }
      }
    }
  }

  /** The test of src/index.js:142 fails on page `k`: having fetched page
      `k`, the client stops. */
  predicate StopsAt(pages: seq<Page>, k: int)
    requires 1 <= k <= |pages|
  {
    k * pages[k - 1].perPage >= pages[k - 1].totalCount
  }

  /** The session ends within the responses given: some page stops it. */
  predicate PaginationStops(pages: seq<Page>) {
    exists k :: 1 <= k <= |pages| && StopsAt(pages, k)
  }

  /** The first page, from `k` on, on which the client stops. */
  function FirstStopFrom(pages: seq<Page>, k: int): (r: int)
    requires 1 <= k
    requires exists j :: k <= j <= |pages| && StopsAt(pages, j)
    ensures k <= r <= |pages| && StopsAt(pages, r)
    ensures forall j :: k <= j < r ==> !StopsAt(pages, j)
    decreases |pages| - k
  {
    if StopsAt(pages, k) then k
    else
      assert exists j :: k + 1 <= j <= |pages| && StopsAt(pages, j);
      FirstStopFrom(pages, k + 1)
  }

  /** The number of pages the client fetches: the first `k >= 1` with
      `k * perPage >= totalCount` on page `k`. Page 1 is always fetched. */
  function FirstStop(pages: seq<Page>): (r: int)
    requires PaginationStops(pages)
    ensures 1 <= r <= |pages| && StopsAt(pages, r)
    ensures forall j :: 1 <= j < r ==> !StopsAt(pages, j)
  {
    FirstStopFrom(pages, 1)
  }

  /** The page numbers 1, 2, ..., `n`. */
  function PageNumbers(n: nat): (r: seq<int>)
    ensures |r| == n && forall i :: 0 <= i < n ==> r[i] == i + 1
  {
    seq(n, i => i + 1)
  }

  /** Requesting page `n + 1` after pages 1 to `n`. */
  lemma PageNumbersSnoc(n: nat)
    ensures PageNumbers(n) + [n + 1] == PageNumbers(n + 1)
  {
    var before, after := PageNumbers(n), PageNumbers(n + 1);
    assert |before + [n + 1]| == |after|;
    forall i | 0 <= i < n + 1
      ensures (before + [n + 1])[i] == after[i]
    {
      if i < n {
        assert (before + [n + 1])[i] == before[i];
      }
    }
  }

  /** The records of the pages fetched, in the order received. */
  function FetchedRecords(pages: seq<Page>): seq<Record>
    requires PaginationStops(pages)
  {
    Flatten(pages[..FirstStop(pages)])
  }

  /** Fetching page `k` after pages 1 to `k - 1` adds that page's `reduce`
      sum to the total and its records' days to the collected days. */
  lemma FetchStep(pages: seq<Page>, k: int)
    requires 1 <= k <= |pages|
    ensures Hours(Flatten(pages[..k])) == Hours(Flatten(pages[..k - 1])) + ReduceHours(pages[k - 1].data, 0.0)
    ensures RecordDays(Flatten(pages[..k])) == RecordDays(Flatten(pages[..k - 1])) + RecordDays(pages[k - 1].data)
  {
    assert pages[..k] == pages[..k - 1] + [pages[k - 1]];
    FlattenSnoc(pages[..k - 1], pages[k - 1]);
    HoursAppend(Flatten(pages[..k - 1]), pages[k - 1].data);
    RecordDaysAppend(Flatten(pages[..k - 1]), pages[k - 1].data);
  }

  /** What `_pastHours()` returns: the sum of `dur / 3600000` over the
      records of all fetched pages. */
  function PastTotal(pages: seq<Page>): real
    requires PaginationStops(pages)
  {
    Hours(FetchedRecords(pages))
  }

  /** The days `_pastHours()` adds to `collectedDates`. */
  function PastDays(pages: seq<Page>): set<Day>
    requires PaginationStops(pages)
  {
    RecordDays(FetchedRecords(pages))
  }

  /** The days collected from the report are exactly the start and end days
      of the records on pages 1 to `FirstStop(pages)`. */
  lemma PastDaysMembers(pages: seq<Page>, d: Day)
    requires PaginationStops(pages)
    ensures d in PastDays(pages) <==>
      exists k, i :: 0 <= k < FirstStop(pages) && 0 <= i < |pages[k].data| && d in EntryDays(pages[k].data[i])
  {
    var fetched := pages[..FirstStop(pages)];
    RecordDaysMembers(FetchedRecords(pages), d);
    if d in PastDays(pages) {
      var n :| 0 <= n < |FetchedRecords(pages)| && d in EntryDays(FetchedRecords(pages)[n]);
      FlattenMembers(fetched, FetchedRecords(pages)[n]);
      var k, i :| 0 <= k < |fetched| && 0 <= i < |fetched[k].data| && fetched[k].data[i] == FetchedRecords(pages)[n];
      assert pages[k].data[i] == fetched[k].data[i];
    }
    if exists k, i :: 0 <= k < FirstStop(pages) && 0 <= i < |pages[k].data| && d in EntryDays(pages[k].data[i]) {
      var k, i :| 0 <= k < FirstStop(pages) && 0 <= i < |pages[k].data| && d in EntryDays(pages[k].data[i]);
      assert fetched[k] == pages[k];
      FlattenMembers(fetched, pages[k].data[i]);
      var n :| 0 <= n < |FetchedRecords(pages)| && FetchedRecords(pages)[n] == pages[k].data[i];
    }
  }

  /** Multiplying by a non-negative page size keeps the order of page numbers. */
  lemma MulMonotone(a: int, b: int, c: int)
    requires a <= b && 0 <= c
    ensures a * c <= b * c
  {
  }

  /** `max(1, ceil(totalCount / perPage))`: the smallest `k >= 1` with
      `k * perPage >= totalCount`. */
  function LastPage(perPage: int, totalCount: int): (r: int)
    requires perPage >= 1
    ensures r >= 1 && r * perPage >= totalCount
    ensures r == 1 || (r - 1) * perPage < totalCount
    decreases totalCount
  {
    if totalCount <= perPage then 1
    else
      var rest := LastPage(perPage, totalCount - perPage);
      assert (rest + 1) * perPage == rest * perPage + perPage;
      rest + 1
  }

  /** With a positive page size, the test of src/index.js:142 fails on page
      `k` exactly when `k` is at least `LastPage`. */
  lemma StopsExactlyFromLastPage(pages: seq<Page>, k: int)
    requires 1 <= k <= |pages| && pages[k - 1].perPage >= 1
    ensures StopsAt(pages, k) <==> k >= LastPage(pages[k - 1].perPage, pages[k - 1].totalCount)
  {
    var perPage, totalCount := pages[k - 1].perPage, pages[k - 1].totalCount;
    var last := LastPage(perPage, totalCount);
    if k >= last {
      MulMonotone(last, k, perPage);
    } else {
      MulMonotone(k, last - 1, perPage);
    }
  }

  /** Every page reports the same `per_page` and `total_count`. */
  predicate Stable(pages: seq<Page>, perPage: int, totalCount: int) {
    forall k :: 0 <= k < |pages| ==> pages[k].perPage == perPage && pages[k].totalCount == totalCount
  }

  /** With a stable `perPage >= 1` and enough responses, the client fetches
      exactly pages 1 to `LastPage(perPage, totalCount)`. */
  lemma StablePagination(pages: seq<Page>, perPage: int, totalCount: int)
    requires perPage >= 1 && Stable(pages, perPage, totalCount)
    requires |pages| >= LastPage(perPage, totalCount)
    ensures PaginationStops(pages) && FirstStop(pages) == LastPage(perPage, totalCount)
  {
    var last := LastPage(perPage, totalCount);
    assert StopsAt(pages, last);
    forall j | 1 <= j < last ensures !StopsAt(pages, j) {
      MulMonotone(j, last - 1, perPage);
    }
  }

  /** With a stable `perPage <= 0` below `totalCount`, no page ever stops the
      client: the source requests pages without end. */
  lemma NonPositivePageSizeNeverStops(pages: seq<Page>, perPage: int, totalCount: int)
    requires perPage <= 0 && perPage < totalCount && Stable(pages, perPage, totalCount)
    ensures !PaginationStops(pages)
  {
    forall k | 1 <= k <= |pages| ensures !StopsAt(pages, k) {
      MulMonotone(1, k, -perPage);
      assert k * perPage <= perPage;
    }
  }

  /** How the service splits `records` into pages of `perPage`, every page
      reporting `total_count = totalCount`. */
  function Paginate(records: seq<Record>, perPage: int, totalCount: int): (pages: seq<Page>)
    requires perPage >= 1
    ensures |pages| == LastPage(perPage, |records|)
    ensures Stable(pages, perPage, totalCount)
    ensures Flatten(pages) == records
    decreases |records|
  {
    if |records| <= perPage then
      assert records + [] == records;
      [Page(perPage, totalCount, records)]
    else
      var rest := Paginate(records[perPage..], perPage, totalCount);
      assert records[..perPage] + records[perPage..] == records;
      [Page(perPage, totalCount, records[..perPage])] + rest
  }

  /** The total and the collected days do not depend on the page size: any
      page size gives the sum and the days of all the records. */
  lemma PageSplitIndependence(records: seq<Record>, perPage: int)
    requires perPage >= 1
    ensures PaginationStops(Paginate(records, perPage, |records|))
    ensures FetchedRecords(Paginate(records, perPage, |records|)) == records
    ensures PastTotal(Paginate(records, perPage, |records|)) == Hours(records)
    ensures PastDays(Paginate(records, perPage, |records|)) == RecordDays(records)
  {
    var pages := Paginate(records, perPage, |records|);
    StablePagination(pages, perPage, |records|);
    assert pages[..|pages|] == pages;
  }

  /** 150 records in three pages of 50 and in one page of 150 give the same
      total. */
  lemma ThreePagesOrOne(records: seq<Record>)
    requires |records| == 150
    ensures |Paginate(records, 50, 150)| == 3 && |Paginate(records, 150, 150)| == 1
    ensures PaginationStops(Paginate(records, 50, 150)) && PaginationStops(Paginate(records, 150, 150))
    ensures PastTotal(Paginate(records, 50, 150)) == PastTotal(Paginate(records, 150, 150))
  {
    PageSplitIndependence(records, 50);
    PageSplitIndependence(records, 150);
  }

  /** A session whose first page holds a single record and the whole count
      stops after that page with that record's hours and days. */
  lemma SingleRecordPage(record: Record, perPage: int)
    requires perPage >= 1
    ensures PaginationStops([Page(perPage, 1, [record])])
    ensures PastTotal([Page(perPage, 1, [record])]) == RecordHours(record)
    ensures PastDays([Page(perPage, 1, [record])]) == EntryDays(record)
  {
    var pages := [Page(perPage, 1, [record])];
    assert StopsAt(pages, 1);
    assert FirstStop(pages) == 1;
    assert pages[..1] == pages;
    assert pages[1..] == [];
    assert Flatten(pages) == [record] + [];
    assert [record][1..] == [];
    assert Hours([record]) == RecordHours(record) + Hours([]);
    assert RecordDays([record]) == EntryDays(record) + RecordDays([]);
  }

  /** One page holding one eight-hour record of 2024-01-01, 09:00 to 17:00
      UTC: the session stops after it with 8 hours and the day 2024-01-01. */
  lemma OneRecordPage()
    ensures
      var pages := [Page(50, 1, [Record(28800000, 1704099600000, 1704128400000)])];
      && PaginationStops(pages)
      && PastTotal(pages) == 8.0
      && PastDays(pages) == {19723}
  {
    var record := Record(28800000, 1704099600000, 1704128400000);
    SingleRecordPage(record, 50);
    assert EntryDays(record) == {19723};
    assert RecordHours(record) == 8.0;
  }

  // ---------------------------------------------------------------------
  // The running entry

  /** `(now + duration * 1000) / 3600000`, the hours the current entry
      contributes (now in milliseconds, duration in seconds). */
  function ElapsedHours(now: int, duration: int): real {
    (now + duration * 1000) as real / MillisPerHour as real
  }

  /** The service reports a running entry's duration as minus its start in
      epoch seconds; the formula then yields the hours since the start. */
  lemma RunningEntryElapsed(entry: CurrentEntry, now: int)
    requires entry.start % 1000 == 0 && entry.duration == -(entry.start / 1000)
    ensures ElapsedHours(now, entry.duration) == (now - entry.start) as real / MillisPerHour as real
    ensures now >= entry.start ==> ElapsedHours(now, entry.duration) >= 0.0
  {
  }

  /** What `_currentHours()` returns: 0 when `data` is null, otherwise the
      hours since the start of a running entry as the service encodes it. */
  function CurrentEntryHours(current: Option<CurrentEntry>, now: int): (r: real)
    ensures current.None? ==> r == 0.0
    ensures current.Some? && current.value.start % 1000 == 0 && current.value.duration == -(current.value.start / 1000) ==>
      r == (now - current.value.start) as real / MillisPerHour as real
  {
    match current
    case None => 0.0
    case Some(entry) => ElapsedHours(now, entry.duration)
  }

  /** The day `_currentHours()` adds to `collectedDates`: the day whose 24
      hours contain the entry's start, and nothing for a null entry. */
  function CurrentEntryDays(current: Option<CurrentEntry>): (r: set<Day>)
    ensures current.None? ==> r == {}
    ensures current.Some? ==> DayOf(current.value.start) in r
    ensures forall d :: d in r ==>
      current.Some? && d * MillisPerDay <= current.value.start < d * MillisPerDay + MillisPerDay
  {
    match current
    case None => {}
    case Some(entry) => {DayOf(entry.start)}
  }
}
