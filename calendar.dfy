/**
 * Calendar days, the weekday rule of `workdaysInRange` and the expected-hours
 * baseline (src/index.js:35-44).
 *
 * A day is an integer count of days since 1970-01-01, UTC; an instant is an
 * integer count of milliseconds since the epoch.
 */
module Calendar {
  import opened Wrappers

  type Day = int

  const MillisPerDay: int := 24 * 60 * 60 * 1000

  /** The calendar day of an instant, as `toISOString().substring(0, 10)` names it. */
  function DayOf(millis: int): (d: Day)
    ensures d * MillisPerDay <= millis < d * MillisPerDay + MillisPerDay
  {
    millis / MillisPerDay
  }

  /** `Date.prototype.getDay`: 0 is Sunday, 1 Monday, ..., 6 Saturday.
      1970-01-01 was a Thursday. */
  function Weekday(d: Day): (w: int)
    ensures 0 <= w < 7
  {
    (d + 4) % 7
  }

  /** JavaScript's `n in arr` for a number `n` and an array without holes:
      it asks whether `n` is an INDEX of `arr`, not one of its elements. */
  predicate IsIndexOf(n: int, arr: seq<int>) {
    0 <= n < |arr|
  }

  /** The array literal the weekday test of `isWorday` looks into. */
  const NonWorkdayList: seq<int> := [5, 6]

  /** `n in [5, 6]` holds for 0 and 1 and for nothing else; in particular
      not for the elements 5 and 6. */
  lemma IndicesOfNonWorkdayList(n: int)
    ensures IsIndexOf(n, NonWorkdayList) <==> n == 0 || n == 1
    ensures !IsIndexOf(5, NonWorkdayList) && !IsIndexOf(6, NonWorkdayList)
  {
  }

  /** `isWorday` as written: `!(d.getDay() in [5, 6])`. Since `in` looks at the
      indices 0 and 1, the days it drops are Sundays and Mondays. */
  predicate IsWorkday(d: Day)
    ensures IsWorkday(d) <==> Weekday(d) != 0 && Weekday(d) != 1
  {
    !IsIndexOf(Weekday(d), NonWorkdayList)
  }

  /** The Saturday/Sunday weekend rule the name `isWorday` suggests. */
  predicate IsSatSunWorkday(d: Day) {
    Weekday(d) != 6 && Weekday(d) != 0
  }

  /** The two rules disagree exactly on Mondays (dropped as written) and
      Saturdays (kept as written). */
  lemma AsWrittenRuleVersusSatSun(d: Day)
    ensures IsWorkday(d) != IsSatSunWorkday(d) <==> Weekday(d) == 1 || Weekday(d) == 6
    ensures Weekday(d) == 1 ==> !IsWorkday(d) && IsSatSunWorkday(d)
    ensures Weekday(d) == 6 ==> IsWorkday(d) && !IsSatSunWorkday(d)
  {
  }

  /** 2024-01-01 (day 19723) is a Monday and is dropped; 2024-01-06 is a
      Saturday and is kept. */
  lemma MondayDroppedSaturdayKept()
    ensures Weekday(19723) == 1 && !IsWorkday(19723) && IsSatSunWorkday(19723)
    ensures Weekday(19728) == 6 && IsWorkday(19728) && !IsSatSunWorkday(19728)
  {
  }

  /** Strictly ascending: the order `eachDay` produces. */
  predicate Increasing(s: seq<Day>) {
    forall i, j :: 0 <= i < j < |s| ==> s[i] < s[j]
  }

  /** `a` is `b` with some elements removed and the rest in their order. */
  predicate IsSubsequence(a: seq<Day>, b: seq<Day>)
    decreases |b|
  {
    if a == [] then true
    else if b == [] then false
    else if a[0] == b[0] then IsSubsequence(a[1..], b[1..])
    else IsSubsequence(a, b[1..])
  }

  /** A subsequence of an ascending sequence is ascending. */
  lemma {:induction false} SubsequenceOfIncreasing(a: seq<Day>, b: seq<Day>)
    requires IsSubsequence(a, b) && Increasing(b)
    ensures Increasing(a)
    ensures forall x :: x in a ==> x in b
    decreases |b|
  {
    if a != [] && b != [] {
      assert Increasing(b[1..]) by {
        forall i, j | 0 <= i < j < |b[1..]| ensures b[1..][i] < b[1..][j] {
          assert b[1..][i] == b[i + 1] && b[1..][j] == b[j + 1];
        }
      }
      if a[0] == b[0] {
        SubsequenceOfIncreasing(a[1..], b[1..]);
        forall j | 0 < j < |a| ensures a[0] < a[j] {
          assert a[j] == a[1..][j - 1];
          assert a[j] in b[1..];
        }
        forall i, j | 0 <= i < j < |a| ensures a[i] < a[j] {
          if i > 0 {
            assert a[i] == a[1..][i - 1] && a[j] == a[1..][j - 1];
          }
        }
        forall x | x in a ensures x in b {
          if x != a[0] {
            assert x in a[1..];
          }
        }
      } else {
        SubsequenceOfIncreasing(a, b[1..]);
      }
    }
  }

  /** `Array.prototype.filter` over a sequence of days. */
  function Filter(s: seq<Day>, keep: Day -> bool): (r: seq<Day>)
    ensures |r| <= |s|
    ensures forall d :: d in r <==> d in s && keep(d)
    ensures IsSubsequence(r, s)
    ensures forall d :: multiset(r)[d] == if keep(d) then multiset(s)[d] else 0
  {
    if s == [] then []
    else
      assert s == [s[0]] + s[1..];
      if keep(s[0]) then [s[0]] + Filter(s[1..], keep)
      else Filter(s[1..], keep)
  }

  /** Order is kept: filtering an ascending sequence gives an ascending one. */
  lemma FilterIncreasing(s: seq<Day>, keep: Day -> bool)
    requires Increasing(s)
    ensures Increasing(Filter(s, keep))
  {
    SubsequenceOfIncreasing(Filter(s, keep), s);
  }

  /** The days `lo`, `lo + 1`, ..., `hi`; empty when `lo > hi`. */
  function DayRange(lo: Day, hi: Day): (r: seq<Day>)
    ensures |r| == if lo <= hi then hi - lo + 1 else 0
    ensures forall i :: 0 <= i < |r| ==> r[i] == lo + i
    ensures forall d :: d in r <==> lo <= d <= hi
    decreases hi - lo
  {
    if lo > hi then [] else [lo] + DayRange(lo + 1, hi)
  }

  /** date-fns `eachDay(start, end)`: every day from `start` to `end`
      inclusive, ascending; it throws when `start` is after `end`. */
  function EachDay(start: Day, end: Day): (r: Option<seq<Day>>)
    ensures r.None? <==> start > end
    ensures r.Some? ==> |r.value| == end - start + 1 && Increasing(r.value)
    ensures r.Some? ==> forall d :: d in r.value <==> start <= d <= end
  {
    if start > end then None
    else Some(DayRange(start, end))
  }

  /** `workdaysInRange`: the days of `dateRange` that `isWorday` keeps, in order. */
  function WorkdaysInRange(dateRange: seq<Day>): (r: seq<Day>)
    ensures |r| <= |dateRange|
    ensures forall d :: d in r <==> d in dateRange && Weekday(d) != 0 && Weekday(d) != 1
    ensures IsSubsequence(r, dateRange)
    ensures forall d :: multiset(r)[d] == if IsWorkday(d) then multiset(dateRange)[d] else 0
  {
    Filter(dateRange, IsWorkday)
  }

  /** `workdaysInRange(eachDay(start, end))`, with the failure of `eachDay`. */
  function WorkdayWindow(start: Day, end: Day): (r: Option<seq<Day>>)
    ensures r.None? <==> start > end
    ensures r.Some? ==> Increasing(r.value)
    ensures r.Some? ==> forall d :: d in r.value <==> start <= d <= end && IsWorkday(d)
  {
    match EachDay(start, end)
    case None => None
    case Some(days) =>
      FilterIncreasing(days, IsWorkday);
      Some(WorkdaysInRange(days))
  }

  /** 1 when `isWorday` keeps `d`, 0 otherwise. */
  function Kept(d: Day): nat {
    if IsWorkday(d) then 1 else 0
  }

  /** Number of days in `lo..hi` that `isWorday` keeps, counted day by day:
      the reference the expected-hours baseline is checked against. */
  function WorkdayCount(lo: Day, hi: Day): nat
    decreases hi - lo
  {
    if lo > hi then 0 else Kept(lo) + WorkdayCount(lo + 1, hi)
  }

  /** `n * hours` for a count `n`. */
  function Times(n: nat, hours: real): real {
    n as real * hours
  }

  /** The expected-hours baseline (src/index.js:44): the number of workdays
      from `firstWorkDay` to `untilDate` times `hoursPerDay`; `eachDay`
      throws on an inverted window. */
  function ExpectedHours(firstWorkDay: Day, untilDate: Day, hoursPerDay: real): (r: Option<real>)
    ensures r.None? <==> firstWorkDay > untilDate
  {
    match WorkdayWindow(firstWorkDay, untilDate)
    case None => None
    case Some(workdays) => Some(Times(|workdays|, hoursPerDay))
  }

  lemma {:induction false} WorkdaysInRangeCount(lo: Day, hi: Day)
    ensures |WorkdaysInRange(DayRange(lo, hi))| == WorkdayCount(lo, hi)
    decreases hi - lo
  {
    if lo <= hi {
      var days := DayRange(lo, hi);
      assert days[1..] == DayRange(lo + 1, hi);
      WorkdaysInRangeCount(lo + 1, hi);
    }
  }

  /** The baseline is the day-by-day workday count times `hoursPerDay`, and
      it fails exactly when the window is inverted. */
  lemma ExpectedHoursIsCount(firstWorkDay: Day, untilDate: Day, hoursPerDay: real)
    ensures firstWorkDay > untilDate ==> ExpectedHours(firstWorkDay, untilDate, hoursPerDay) == None
    ensures firstWorkDay <= untilDate ==>
      ExpectedHours(firstWorkDay, untilDate, hoursPerDay) == Some(Times(WorkdayCount(firstWorkDay, untilDate), hoursPerDay))
  {
    if firstWorkDay <= untilDate {
      var days := DayRange(firstWorkDay, untilDate);
      assert EachDay(firstWorkDay, untilDate) == Some(days);
      var workdays := WorkdaysInRange(days);
      assert WorkdayWindow(firstWorkDay, untilDate) == Some(workdays);
      WorkdaysInRangeCount(firstWorkDay, untilDate);
      assert |workdays| == WorkdayCount(firstWorkDay, untilDate);
    }
  }

  lemma {:induction false} WorkdayCountSplit(lo: Day, mid: Day, hi: Day)
    requires lo <= mid + 1 <= hi + 1
    ensures WorkdayCount(lo, hi) == WorkdayCount(lo, mid) + WorkdayCount(mid + 1, hi)
    decreases mid - lo
  {
    if lo <= mid {
      WorkdayCountSplit(lo + 1, mid, hi);
    }
  }

  /** The day after `d` has the next weekday number, Saturday wrapping to Sunday. */
  lemma WeekdayNext(d: Day)
    ensures Weekday(d + 1) == if Weekday(d) == 6 then 0 else Weekday(d) + 1
  {
  }

  /** Any seven consecutive days hold exactly five days that `isWorday` keeps. */
  lemma WeekHasFiveWorkdays(lo: Day)
    ensures WorkdayCount(lo, lo + 6) == 5
  {
    WeekdayNext(lo);
    WeekdayNext(lo + 1);
    WeekdayNext(lo + 2);
    WeekdayNext(lo + 3);
    WeekdayNext(lo + 4);
    WeekdayNext(lo + 5);
    assert WorkdayCount(lo + 7, lo + 6) == 0;
    assert WorkdayCount(lo + 6, lo + 6) == Kept(lo + 6);
    assert WorkdayCount(lo + 5, lo + 6) == Kept(lo + 5) + WorkdayCount(lo + 6, lo + 6);
    assert WorkdayCount(lo + 4, lo + 6) == Kept(lo + 4) + WorkdayCount(lo + 5, lo + 6);
    assert WorkdayCount(lo + 3, lo + 6) == Kept(lo + 3) + WorkdayCount(lo + 4, lo + 6);
    assert WorkdayCount(lo + 2, lo + 6) == Kept(lo + 2) + WorkdayCount(lo + 3, lo + 6);
    assert WorkdayCount(lo + 1, lo + 6) == Kept(lo + 1) + WorkdayCount(lo + 2, lo + 6);
    assert WorkdayCount(lo, lo + 6) == Kept(lo) + WorkdayCount(lo + 1, lo + 6);
  }

  /** A window of `n` whole weeks holds `5 * n` workdays; two weeks give ten. */
  lemma {:induction false} WholeWeeksWorkdays(lo: Day, n: nat)
    ensures WorkdayCount(lo, lo + 7 * n - 1) == 5 * n
  {
    if n > 0 {
      WholeWeeksWorkdays(lo, n - 1);
      WorkdayCountSplit(lo, lo + 7 * (n - 1) - 1, lo + 7 * n - 1);
      WeekHasFiveWorkdays(lo + 7 * (n - 1));
    }
  }

  /** A fourteen-day window spanning two full weeks yields ten workdays. */
  lemma TwoWeeksTenWorkdays(lo: Day)
    ensures WorkdayWindow(lo, lo + 13).Some? && |WorkdayWindow(lo, lo + 13).value| == 10
  {
    WholeWeeksWorkdays(lo, 2);
    ExpectedHoursIsCount(lo, lo + 13, 1.0);
    WorkdaysInRangeCount(lo, lo + 13);
    assert EachDay(lo, lo + 13) == Some(DayRange(lo, lo + 13));
  }

  /** An ascending sequence is determined by its elements. */
  lemma {:induction false} IncreasingUnique(a: seq<Day>, b: seq<Day>)
    requires Increasing(a) && Increasing(b)
    requires forall x :: x in a <==> x in b
    ensures a == b
    decreases |a|
  {
    assert a == [] ==> b == [] by {
      if b != [] {
        assert b[0] in b;
      }
    }
    assert b == [] ==> a == [] by {
      if a != [] {
        assert a[0] in a;
      }
    }
    if a != [] && b != [] {
      assert a[0] == b[0] by {
        assert a[0] in a && b[0] in b;
        var i :| 0 <= i < |b| && b[i] == a[0];
        var j :| 0 <= j < |a| && a[j] == b[0];
        assert b[0] <= b[i] && a[0] <= a[j];
      }
      forall x ensures x in a[1..] <==> x in b[1..] {
        assert x in a[1..] <==> x in a && x != a[0];
        assert x in b[1..] <==> x in b && x != b[0];
      }
      IncreasingUnique(a[1..], b[1..]);
      assert a == [a[0]] + a[1..] && b == [b[0]] + b[1..];
    }
  }

  /** The workdays of a window are the one ascending sequence holding them. */
  lemma WorkdayWindowIs(start: Day, end: Day, expected: seq<Day>)
    requires start <= end && Increasing(expected)
    requires forall d :: d in expected <==> start <= d <= end && IsWorkday(d)
    ensures WorkdayWindow(start, end) == Some(expected)
  {
    IncreasingUnique(WorkdayWindow(start, end).value, expected);
  }

  /** A Monday-to-Friday window keeps Tuesday to Friday as written, so
      eight hours a day give a 32-hour baseline. */
  lemma MondayToFriday(monday: Day)
    requires Weekday(monday) == 1
    ensures WorkdayWindow(monday, monday + 4) == Some([monday + 1, monday + 2, monday + 3, monday + 4])
    ensures ExpectedHours(monday, monday + 4, 8.0) == Some(32.0)
  {
    WeekdayNext(monday);
    WeekdayNext(monday + 1);
    WeekdayNext(monday + 2);
    WeekdayNext(monday + 3);
    var expected := [monday + 1, monday + 2, monday + 3, monday + 4];
    assert forall d :: d in expected <==> monday <= d <= monday + 4 && IsWorkday(d);
    WorkdayWindowIs(monday, monday + 4, expected);
    assert Times(4, 8.0) == 32.0;
  }

  /** 2024-01-01 (day 19723) to 2024-01-05 is such a window. */
  lemma FirstWeekOf2024()
    ensures WorkdayWindow(19723, 19727) == Some([19724, 19725, 19726, 19727])
    ensures ExpectedHours(19723, 19727, 8.0) == Some(32.0)
  {
    MondayToFriday(19723);
  }
}
