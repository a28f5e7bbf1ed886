/** The compaction range planner (`get_dates_in_range`): from a lookback
    `duration`, a period and "now", the partition dates to compact, oldest
    first. */
module Planner {
  import opened Wrappers
  import opened Calendar

  /** Python refuses to build a date outside years 1..9999. */
  datatype PlanError = DateOutOfRange

  /** `range(duration)` after `compact_to_now` has added one. */
  function PlanLength(duration: int, compactToNow: bool): (n: nat)
    ensures n == 0 <==> (if compactToNow then duration + 1 else duration) <= 0
    ensures n > 0 ==> n == (if compactToNow then duration + 1 else duration)
  {
    var d := if compactToNow then duration + 1 else duration;
    if d > 0 then d else 0
  }

  /** `now - relativedelta(<period>=duration)`. */
  function PlanStart(now: Date, period: Period, duration: int): (s: Date)
    requires Valid(now)
    ensures Valid(s)
  {
    Shift(now, period, -duration)
  }

  /** Element `n`: the start moved by `n` units (not a running step). */
  function PlanDate(now: Date, period: Period, duration: int, n: int): (d: Date)
    requires Valid(now)
    ensures Valid(d)
  {
    Shift(PlanStart(now, period, duration), period, n)
  }

  /** Every date the loop builds, the start included, is one Python can hold. */
  predicate PlanRepresentable(now: Date, period: Period, duration: int, count: nat)
    requires Valid(now)
  {
    InRange(PlanStart(now, period, duration))
    && forall n :: 0 <= n < count ==> InRange(PlanDate(now, period, duration, n))
  }

  /** The first `count` plan entries. */
  function PlannedDates(now: Date, period: Period, duration: int, count: nat): seq<Date>
    requires Valid(now)
  {
    seq(count, n requires 0 <= n < count => PlanDate(now, period, duration, n))
  }

  /** Adjacent plan entries are one calendar day, or one calendar month, apart. */
  predicate Consecutive(period: Period, a: Date, b: Date)
    requires Valid(a)
  {
    match period
    case Days => b == NextDay(a)
    case Months => MonthIndex(b) == MonthIndex(a) + 1
  }

  lemma {:induction false} PlanDatesConsecutive(now: Date, period: Period, duration: int, n: nat)
    requires Valid(now)
    ensures Consecutive(period, PlanDate(now, period, duration, n), PlanDate(now, period, duration, n + 1))
    ensures Before(PlanDate(now, period, duration, n), PlanDate(now, period, duration, n + 1))
  {
    var a, b := PlanDate(now, period, duration, n), PlanDate(now, period, duration, n + 1);
    match period
    case Days =>
      AddDaysStep(PlanStart(now, period, duration), n);
    case Months =>
      MonthIndexOrder(a, b);
  }

  /** With `compact_to_now` the last date lies in the current period: the
      current day itself, or a day of the current month. */
  lemma PlanEndsAtNow(now: Date, period: Period, duration: int)
    requires Valid(now) && duration >= 0
    ensures var last := PlanDate(now, period, duration, duration);
      && last.year == now.year && last.month == now.month
      && (period == Days ==> last == now)
  {
    var last := PlanDate(now, period, duration, duration);
    match period
    case Days =>
      AddDaysBackAndForth(now, duration);
    case Months =>
      MonthIndexInjective(last, now);
  }

  /** Without `compact_to_now` a positive lookback ends one unit before now:
      the day before today, or the month before this one. */
  lemma PlanEndsBeforeNow(now: Date, period: Period, duration: int)
    requires Valid(now) && duration >= 1
    ensures var last := PlanDate(now, period, duration, duration - 1);
      match period
      case Days => NextDay(last) == now
      case Months => MonthIndex(last) + 1 == MonthIndex(now)
  {
    var last := PlanDate(now, period, duration, duration - 1);
    if period == Days {
      AddDaysStep(PlanStart(now, period, duration), duration - 1);
      AddDaysBackAndForth(now, duration);
    }
  }

  /** The whole plan for a positive lookback: at least one date, oldest
      first, ending in the current day or month with `compact_to_now` and in
      the previous one without. */
  lemma PlanCoversUpToNow(now: Date, period: Period, duration: int, compactToNow: bool)
    requires Valid(now) && duration > 0
    ensures var dates := PlannedDates(now, period, duration, PlanLength(duration, compactToNow));
      && |dates| > 0
      && (forall n :: 0 <= n < |dates| - 1 ==> Before(dates[n], dates[n + 1]))
      && var last := dates[|dates| - 1];
      && (compactToNow ==> last.year == now.year && last.month == now.month && (period == Days ==> last == now))
      && (!compactToNow && period == Days ==> NextDay(last) == now)
      && (!compactToNow && period == Months ==> MonthIndex(last) + 1 == MonthIndex(now))
  {
    var count := PlanLength(duration, compactToNow);
    var dates := PlannedDates(now, period, duration, count);
    forall n | 0 <= n < |dates| - 1
      ensures Before(dates[n], dates[n + 1])
    {
      PlanDatesConsecutive(now, period, duration, n);
    }
    if compactToNow {
      PlanEndsAtNow(now, period, duration);
    } else {
      PlanEndsBeforeNow(now, period, duration);
    }
  }

  /** `get_dates_in_range`: compute the start, add one unit when compacting
      to now, then append `start + n` units for each `n` in the range. A date
      Python cannot represent raises. */
  method GetDatesInRange(duration: int, period: Period, compactToNow: bool, now: Date)
    returns (r: Result<seq<Date>, PlanError>)
    requires Valid(now)
    ensures r.Ok? <==> PlanRepresentable(now, period, duration, PlanLength(duration, compactToNow))
    ensures r.Ok? ==> |r.value| == PlanLength(duration, compactToNow)
    ensures r.Ok? ==> forall n :: 0 <= n < |r.value| ==> r.value[n] == PlanDate(now, period, duration, n)
    ensures r.Ok? ==> forall n :: 0 <= n < |r.value| - 1 ==>
      Consecutive(period, r.value[n], r.value[n + 1]) && Before(r.value[n], r.value[n + 1])
  {
    var dates: seq<Date> := [];
    var startDate := Shift(now, period, -duration);
    if !InRange(startDate) {
      return Err(DateOutOfRange);
    }
    var count := duration;
    if compactToNow {
      count := count + 1;
    }
    var n := 0;
    while n < count
      invariant 0 <= n && (n > 0 ==> n <= count)
      invariant |dates| == n
      invariant forall k :: 0 <= k < n ==> dates[k] == PlanDate(now, period, duration, k)
      invariant forall k :: 0 <= k < n ==> InRange(PlanDate(now, period, duration, k))
    {
      var date := Shift(startDate, period, n);
      if !InRange(date) {
        assert n < PlanLength(duration, compactToNow) && date == PlanDate(now, period, duration, n);
        return Err(DateOutOfRange);
      }
      dates := dates + [date];
      n := n + 1;
    }
    assert |dates| == PlanLength(duration, compactToNow);
    forall k | 0 <= k < |dates| - 1
      ensures Consecutive(period, dates[k], dates[k + 1]) && Before(dates[k], dates[k + 1])
    {
      PlanDatesConsecutive(now, period, duration, k);
    }
    r := Ok(dates);
  }
}
