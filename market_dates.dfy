/** The business-day calendar (utils/dates.py, identical in both package trees):
    weekend skipping and business-day windows over day numbers. Business days are
    Monday to Friday; no holiday calendar is applied. */
module MarketDates {
  import opened Calendar
  import opened Tables

  /** `pd.date_range(..., freq='B')` keeps Monday to Friday. */
  predicate IsBusinessDay(day: int)
  {
    Weekday(day) < 5
  }

  /** Of any three consecutive days at least one is a business day. */
  lemma NoThreeDayWeekend(day: int)
    ensures IsBusinessDay(day) || IsBusinessDay(day + 1) || IsBusinessDay(day + 2)
  {
    WeekdayNext(day);
    WeekdayNext(day + 1);
  }

  /** `get_next_market_day`: one day forward, then forward again while on a
      weekend. */
  method NextMarketDay(date: int) returns (next: int)
    ensures date < next <= date + 3
    ensures IsBusinessDay(next)
    ensures forall d :: date < d < next ==> !IsBusinessDay(d)
  {
    next := date + 1;
    while Weekday(next) == 5 || Weekday(next) == 6
      invariant date < next <= date + 3
      invariant forall d :: date < d < next ==> !IsBusinessDay(d)
      decreases date + 3 - next
    {
      if next == date + 3 {
        NoThreeDayWeekend(date + 1);
        assert false;
      }
      next := next + 1;
    }
  }

  /** `get_previous_market_day`: one day back, then back again while on a weekend. */
  method PreviousMarketDay(date: int) returns (prev: int)
    ensures date - 3 <= prev < date
    ensures IsBusinessDay(prev)
    ensures forall d :: prev < d < date ==> !IsBusinessDay(d)
  {
    prev := date - 1;
    while Weekday(prev) == 5 || Weekday(prev) == 6
      invariant date - 3 <= prev < date
      invariant forall d :: prev < d < date ==> !IsBusinessDay(d)
      decreases prev - (date - 3)
    {
      if prev == date - 3 {
        NoThreeDayWeekend(date - 3);
        assert false;
      }
      prev := prev - 1;
    }
  }

  /** The business days of `[start, end]`, in order. */
  function BusinessDays(start: int, end: int): seq<int>
    decreases end - start
  {
    if start > end then []
    else (if IsBusinessDay(start) then [start] else []) + BusinessDays(start + 1, end)
  }

  /** Strictly ascending, and exactly the business days of `[start, end]`. */
  lemma {:induction false} BusinessDaysProps(start: int, end: int)
    ensures StrictlyIncreasingInts(BusinessDays(start, end))
    ensures forall d :: d in BusinessDays(start, end) <==> start <= d <= end && IsBusinessDay(d)
    decreases end - start
  {
    if start <= end {
      BusinessDaysProps(start + 1, end);
      var rest := BusinessDays(start + 1, end);
      assert forall i :: 0 <= i < |rest| ==> start < rest[i] by {
        forall i | 0 <= i < |rest| ensures start < rest[i] {
          assert rest[i] in rest;
        }
      }
    }
  }

  /** One day more at the front adds one entry exactly when that day is a
      business day. */
  lemma Step(start: int, end: int)
    requires start <= end
    ensures |BusinessDays(start, end)| == (if IsBusinessDay(start) then 1 else 0) + |BusinessDays(start + 1, end)|
  {
  }

  predicate StrictlyIncreasingInts(s: seq<int>)
  {
    forall i, j :: 0 <= i < j < |s| ==> s[i] < s[j]
  }

  /** Splitting the range splits the list. */
  lemma {:induction false} BusinessDaysSplit(start: int, mid: int, end: int)
    requires start <= mid + 1 <= end + 1
    ensures BusinessDays(start, end) == BusinessDays(start, mid) + BusinessDays(mid + 1, end)
    decreases mid - start
  {
    if start <= mid {
      BusinessDaysSplit(start + 1, mid, end);
    }
  }

  /** Every seven consecutive days hold exactly five business days. */
  lemma WeekHasFive(start: int)
    ensures |BusinessDays(start, start + 6)| == 5
  {
    var e := start + 6;
    Step(start, e);
    Step(start + 1, e);
    Step(start + 2, e);
    Step(start + 3, e);
    Step(start + 4, e);
    Step(start + 5, e);
    Step(start + 6, e);
    assert BusinessDays(start + 7, e) == [];
    var w := Weekday(start);
    WeekdayShift(start, 1);
    WeekdayShift(start, 2);
    WeekdayShift(start, 3);
    WeekdayShift(start, 4);
    WeekdayShift(start, 5);
    WeekdayShift(start, 6);
    assert Weekday(start + 1) == (w + 1) % 7 && Weekday(start + 2) == (w + 2) % 7 && Weekday(start + 3) == (w + 3) % 7;
    assert Weekday(start + 4) == (w + 4) % 7 && Weekday(start + 5) == (w + 5) % 7 && Weekday(start + 6) == (w + 6) % 7;
    assert 0 <= w < 7;
  }

  lemma {:induction false} WeekdayShift(day: int, k: nat)
    ensures Weekday(day + k) == (Weekday(day) + k) % 7
  {
    if k > 0 {
      WeekdayShift(day, k - 1);
      WeekdayNext(day + k - 1);
    }
  }

  /** At least one business day in three consecutive days. */
  lemma ThreeHasOne(start: int)
    ensures |BusinessDays(start, start + 2)| >= 1
  {
    var e := start + 2;
    Step(start, e);
    Step(start + 1, e);
    Step(start + 2, e);
    NoThreeDayWeekend(start);
  }

  /** At least three business days in five consecutive days. */
  lemma FiveHasThree(start: int)
    ensures |BusinessDays(start, start + 4)| >= 3
  {
    var e := start + 4;
    Step(start, e);
    Step(start + 1, e);
    Step(start + 2, e);
    Step(start + 3, e);
    Step(start + 4, e);
    assert BusinessDays(start + 5, e) == [];
    WeekdayNext(start);
    WeekdayNext(start + 1);
    WeekdayNext(start + 2);
    WeekdayNext(start + 3);
  }

  /** The window `2·days` wide that `get_market_days_ahead` and `_behind` scan
      always holds at least `days` business days, so the approximation never
      comes up short. */
  lemma {:induction false} WindowIsEnough(start: int, days: nat)
    ensures |BusinessDays(start, start + 2 * days)| >= days
    decreases days
  {
    if days == 0 {
    } else if days == 1 {
      ThreeHasOne(start);
    } else if days == 2 {
      FiveHasThree(start);
    } else if days <= 6 {
      BusinessDaysSplit(start, start + 6, start + 2 * days);
      WeekHasFive(start);
      if days == 6 {
        BusinessDaysSplit(start + 7, start + 9, start + 12);
        ThreeHasOne(start + 7);
      }
    } else {
      BusinessDaysSplit(start, start + 6, start + 2 * days);
      BusinessDaysSplit(start + 7, start + 13, start + 2 * days);
      WeekHasFive(start);
      WeekHasFive(start + 7);
      WindowIsEnough(start + 14, days - 7);
    }
  }

  /** Python's `s[:k]`. */
  function SliceTo(s: seq<int>, k: int): (t: seq<int>)
    ensures k >= 0 ==> t == s[..if k <= |s| then k else |s|]
  {
    if k >= 0 then (if k <= |s| then s[..k] else s)
    else if |s| + k >= 0 then s[..|s| + k] else []
  }

  /** Python's `s[k:]`. */
  function SliceFrom(s: seq<int>, k: int): (t: seq<int>)
    ensures k < 0 ==> t == s[if |s| + k >= 0 then |s| + k else 0..]
  {
    if k >= 0 then (if k <= |s| then s[k..] else [])
    else if |s| + k >= 0 then s[|s| + k..] else s
  }

  /** `get_market_days_between`: the business days of `[start, end]`; without
      `includeStart` the first element is dropped and without `includeEnd` the
      last, whichever days those are. */
  function MarketDaysBetween(start: int, end: int, includeStart: bool, includeEnd: bool): seq<int>
  {
    var all := BusinessDays(start, end);
    var afterStart := if includeStart then all else SliceFrom(all, 1);
    if includeEnd then afterStart else SliceTo(afterStart, -1)
  }

  /** Dropping by position and leaving out the end dates agree exactly when each
      excluded end is itself a business day. */
  lemma BetweenAgreesOnBusinessEnds(start: int, end: int, includeStart: bool, includeEnd: bool)
    requires includeStart || IsBusinessDay(start)
    requires includeEnd || IsBusinessDay(end)
    ensures MarketDaysBetween(start, end, includeStart, includeEnd) == MarketDaysBetweenByDate(start, end, includeStart, includeEnd)
  {
    var lo := if includeStart then start else start + 1;
    var afterStart := if includeStart then BusinessDays(start, end) else SliceFrom(BusinessDays(start, end), 1);
    assert afterStart == BusinessDays(lo, end);
    if !includeEnd && lo <= end {
      BusinessDaysSplit(lo, end - 1, end);
      assert BusinessDays(end, end) == [end];
      assert SliceTo(afterStart, -1) == BusinessDays(lo, end - 1);
    }
  }

  /** `include_start=False` drops the first business day even when `start` is a
      weekend day: from a Saturday, the Monday after it is lost. */
  lemma {:induction false} ExcludeStartDropsMonday(saturday: int)
    requires Weekday(saturday) == 5
    ensures MarketDaysBetween(saturday, saturday + 2, false, true) == []
    ensures saturday + 2 !in MarketDaysBetween(saturday, saturday + 2, false, true) && IsBusinessDay(saturday + 2)
  {
    WeekdayNext(saturday);
    WeekdayNext(saturday + 1);
    assert BusinessDays(saturday + 3, saturday + 2) == [];
    assert BusinessDays(saturday + 2, saturday + 2) == [saturday + 2];
    assert BusinessDays(saturday, saturday + 2) == [saturday + 2];
  }

  /** The reading of the flags the docstring gives: leave out the start date and
      the end date themselves. */
  function MarketDaysBetweenByDate(start: int, end: int, includeStart: bool, includeEnd: bool): seq<int>
  {
    var lo := if includeStart then start else start + 1;
    var hi := if includeEnd then end else end - 1;
    BusinessDays(lo, hi)
  }

  /** Under that reading, a business day is listed iff it lies in the range and is
      not an excluded end point. */
  lemma MarketDaysBetweenByDateProps(start: int, end: int, includeStart: bool, includeEnd: bool)
    ensures forall d :: d in MarketDaysBetweenByDate(start, end, includeStart, includeEnd) <==>
      (start <= d <= end && IsBusinessDay(d) && (includeStart || d != start) && (includeEnd || d != end))
  {
    var lo := if includeStart then start else start + 1;
    var hi := if includeEnd then end else end - 1;
    BusinessDaysProps(lo, hi);
  }

  /** `get_market_days_ahead`: the first `days` entries of the business days in
      `[start, start + 2·days]`. */
  function MarketDaysAhead(days: int, start: int): seq<int>
  {
    SliceTo(BusinessDays(start, start + days * 2), days)
  }

  /** For `days >= 0`: exactly `days` ascending business days from `start` on,
      with no business day skipped. */
  lemma MarketDaysAheadProps(days: int, start: int)
    requires days >= 0
    ensures var r := MarketDaysAhead(days, start);
      |r| == days && StrictlyIncreasingInts(r) &&
      (forall d :: d in r ==> start <= d && IsBusinessDay(d)) &&
      (days > 0 ==> forall d :: start <= d <= r[days - 1] && IsBusinessDay(d) ==> d in r)
  {
    var all := BusinessDays(start, start + days * 2);
    BusinessDaysProps(start, start + days * 2);
    WindowIsEnough(start, days);
    var r := all[..days];
    assert MarketDaysAhead(days, start) == r;
    assert forall d :: d in r ==> d in all;
    if days > 0 {
      forall d | start <= d <= r[days - 1] && IsBusinessDay(d)
        ensures d in r
      {
        assert r[days - 1] == all[days - 1] && all[days - 1] in all;
        assert d in all;
        PrefixComplete(all, days, d);
      }
    }
  }

  /** In a strictly increasing sequence, a member no larger than the last element
      of a prefix lies in that prefix. */
  lemma PrefixComplete(all: seq<int>, k: nat, d: int)
    requires StrictlyIncreasingInts(all) && 0 < k <= |all|
    requires d in all && d <= all[k - 1]
    ensures d in all[..k]
  {
    var i :| 0 <= i < |all| && all[i] == d;
    assert forall j :: k <= j < |all| ==> all[k - 1] < all[j];
    assert i < k;
    assert all[..k][i] == d;
  }

  /** In a strictly increasing sequence, a member no smaller than the first element
      of a suffix lies in that suffix. */
  lemma SuffixComplete(all: seq<int>, k: nat, d: int)
    requires StrictlyIncreasingInts(all) && k < |all|
    requires d in all && all[k] <= d
    ensures d in all[k..]
  {
    var i :| 0 <= i < |all| && all[i] == d;
    assert forall j :: 0 <= j < k ==> all[j] < all[k];
    assert i >= k;
    assert all[k..][i - k] == d;
  }

  /** A negative count gives an empty list. */
  lemma MarketDaysAheadNegative(days: int, start: int)
    requires days < 0
    ensures MarketDaysAhead(days, start) == []
  {
  }

  /** `get_market_days_behind`: the last `days` entries of the business days in
      `[end - 2·days, end]` (`[-days:]`, so `days == 0` keeps them all). */
  function MarketDaysBehind(days: int, end: int): seq<int>
  {
    SliceFrom(BusinessDays(end - days * 2, end), -days)
  }

  /** For `days >= 1`: exactly `days` ascending business days up to `end`, the
      latest ones, with no business day skipped. */
  lemma MarketDaysBehindProps(days: int, end: int)
    requires days >= 1
    ensures var r := MarketDaysBehind(days, end);
      |r| == days && StrictlyIncreasingInts(r) &&
      (forall d :: d in r ==> d <= end && IsBusinessDay(d)) &&
      (forall d :: r[0] <= d <= end && IsBusinessDay(d) ==> d in r)
  {
    var start := end - days * 2;
    var all := BusinessDays(start, end);
    BusinessDaysProps(start, end);
    WindowIsEnough(start, days);
    var k := |all| - days;
    var r := all[k..];
    assert MarketDaysBehind(days, end) == r;
    assert forall d :: d in r ==> d in all;
    forall d | r[0] <= d <= end && IsBusinessDay(d)
      ensures d in r
    {
      assert r[0] == all[k] && all[k] in all;
      assert d in all;
      SuffixComplete(all, k, d);
    }
  }

  /** `days == 0`: `[-0:]` is the whole slice, so a weekday `end` yields `[end]`
      rather than an empty list. */
  lemma {:induction false} BehindZeroKeepsEnd(end: int)
    requires IsBusinessDay(end)
    ensures MarketDaysBehind(0, end) == [end]
  {
    assert BusinessDays(end + 1, end) == [];
  }

  /** The count the docstring promises: exactly `days` dates, none for zero. */
  function MarketDaysBehindCounted(days: int, end: int): seq<int>
  {
    if days <= 0 then [] else MarketDaysBehind(days, end)
  }

  /** The corrected list always has `max(days, 0)` entries, each a business day
      no later than `end`. */
  lemma MarketDaysBehindCountedProps(days: int, end: int)
    ensures var r := MarketDaysBehindCounted(days, end);
      |r| == (if days <= 0 then 0 else days) &&
      forall d :: d in r ==> d <= end && IsBusinessDay(d)
  {
    if days >= 1 {
      MarketDaysBehindProps(days, end);
    }
  }
}
