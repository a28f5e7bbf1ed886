/** Proleptic Gregorian calendar dates as Python's `datetime` holds them,
    the two kinds of step `dateutil.relativedelta` takes (days and months),
    and the `strftime` fields the object keys are built from. */
module Calendar {
  import opened Strings

  datatype Date = Date(year: int, month: int, day: int)

  /** A wall-clock reading: a date and a time of day. */
  datatype DateTime = DateTime(date: Date, hour: int, minute: int, second: int)

  /** The granularity of a partition, and the unit the planner steps by. */
  datatype Period = Days | Months

  predicate IsLeapYear(y: int) {
    y % 4 == 0 && (y % 100 != 0 || y % 400 == 0)
  }

  function DaysInMonth(y: int, m: int): (n: int)
    requires 1 <= m <= 12
    ensures 28 <= n <= 31
    ensures n == 29 <==> m == 2 && IsLeapYear(y)
  {
    if m == 2 then (if IsLeapYear(y) then 29 else 28)
    else if m == 4 || m == 6 || m == 9 || m == 11 then 30
    else 31
  }

  predicate Valid(d: Date) {
    1 <= d.month <= 12 && 1 <= d.day <= DaysInMonth(d.year, d.month)
  }

  /** `datetime.MINYEAR` .. `datetime.MAXYEAR`: outside this range Python
      raises instead of producing a date. */
  predicate InRange(d: Date) {
    1 <= d.year <= 9999
  }

  predicate ValidClock(t: DateTime) {
    Valid(t.date) && InRange(t.date)
    && 0 <= t.hour < 24 && 0 <= t.minute < 60 && 0 <= t.second < 60
  }

  /** Chronological order of dates. */
  predicate Before(a: Date, b: Date) {
    a.year < b.year
    || (a.year == b.year && (a.month < b.month || (a.month == b.month && a.day < b.day)))
  }

  function NextDay(d: Date): (r: Date)
    requires Valid(d)
    ensures Valid(r) && Before(d, r)
  {
    if d.day < DaysInMonth(d.year, d.month) then Date(d.year, d.month, d.day + 1)
    else if d.month < 12 then Date(d.year, d.month + 1, 1)
    else Date(d.year + 1, 1, 1)
  }

  function PrevDay(d: Date): (r: Date)
    requires Valid(d)
    ensures Valid(r) && NextDay(r) == d
  {
    if d.day > 1 then Date(d.year, d.month, d.day - 1)
    else if d.month > 1 then Date(d.year, d.month - 1, DaysInMonth(d.year, d.month - 1))
    else Date(d.year - 1, 12, 31)
  }

  /** The next day is the very next date: no valid date lies strictly
      between `d` and `NextDay(d)`. */
  lemma NextDayIsImmediate(d: Date, e: Date)
    requires Valid(d) && Valid(e) && Before(d, e)
    ensures e == NextDay(d) || Before(NextDay(d), e)
  {
  }

  /** `d + relativedelta(days=n)`: exactly `n` calendar days later (earlier
      when `n` is negative). */
  function AddDays(d: Date, n: int): (r: Date)
    requires Valid(d)
    ensures Valid(r)
    decreases if n < 0 then -n else n
  {
    if n == 0 then d
    else if n > 0 then AddDays(NextDay(d), n - 1)
    else AddDays(PrevDay(d), n + 1)
  }

  /** One more day of offset is the next calendar day. */
  lemma {:induction false} AddDaysStep(d: Date, n: nat)
    requires Valid(d)
    ensures AddDays(d, n + 1) == NextDay(AddDays(d, n))
    decreases n
  {
    if n > 0 {
      AddDaysStep(NextDay(d), n - 1);
    }
  }

  /** Going back `k` days and forward `k` days returns to the same date. */
  lemma {:induction false} AddDaysBackAndForth(d: Date, k: nat)
    requires Valid(d)
    ensures AddDays(AddDays(d, -(k as int)), k) == d
    decreases k
  {
    if k > 0 {
      var p := PrevDay(d);
      var e := AddDays(d, -(k as int));
      assert e == AddDays(p, -(k - 1));
      AddDaysBackAndForth(p, k - 1);
      AddDaysStep(e, k - 1);
    }
  }

  /** Months counted from year 0: the quantity `relativedelta` moves. */
  function MonthIndex(d: Date): int {
    d.year * 12 + (d.month - 1)
  }

  function Min(a: int, b: int): int {
    if a <= b then a else b
  }

  /** `d + relativedelta(months=n)`: the calendar month `n` months away,
      with the day clamped to the last day of that month. */
  function AddMonths(d: Date, n: int): (r: Date)
    requires Valid(d)
    ensures Valid(r) && MonthIndex(r) == MonthIndex(d) + n
    ensures r.day == Min(d.day, DaysInMonth(r.year, r.month))
  {
    var t := MonthIndex(d) + n;
    var y, m := t / 12, t % 12 + 1;
    Date(y, m, Min(d.day, DaysInMonth(y, m)))
  }

  /** The month index determines the year and the month. */
  lemma MonthIndexInjective(a: Date, b: Date)
    requires Valid(a) && Valid(b) && MonthIndex(a) == MonthIndex(b)
    ensures a.year == b.year && a.month == b.month
  {
  }

  lemma MonthIndexOrder(a: Date, b: Date)
    requires Valid(a) && Valid(b) && MonthIndex(a) < MonthIndex(b)
    ensures Before(a, b)
  {
  }

  /** `d + relativedelta(<period>=n)`. */
  function Shift(d: Date, period: Period, n: int): (r: Date)
    requires Valid(d)
    ensures Valid(r)
  {
    match period
    case Days => AddDays(d, n)
    case Months => AddMonths(d, n)
  }

  /** `strftime('%Y')` for years 1000..9999, where it has exactly four
      digits (DecimalFourDigits). Below 1000 the text depends on the Python
      release; this model prints those years unpadded. */
  function YearText(d: Date): string
    requires InRange(d)
  {
    Decimal(d.year)
  }

  /** `strftime('%m')`. */
  function MonthText(d: Date): string
    requires Valid(d)
  {
    ZeroPad2(d.month)
  }

  /** `strftime('%d')`. */
  function DayText(d: Date): string
    requires Valid(d)
  {
    ZeroPad2(d.day)
  }

  /** `strftime('%H%M%S')`. */
  function TimeText(t: DateTime): (s: string)
    requires ValidClock(t)
    ensures |s| == 6 && AllDigits(s)
  {
    ZeroPad2(t.hour) + ZeroPad2(t.minute) + ZeroPad2(t.second)
  }

  /** `%Y/%m/`, the path of a month. */
  function MonthPath(d: Date): string
    requires Valid(d) && InRange(d)
  {
    YearText(d) + "/" + MonthText(d) + "/"
  }

  /** `%Y/%m/%d/`, the path of a day. */
  function DayPath(d: Date): string
    requires Valid(d) && InRange(d)
  {
    MonthPath(d) + DayText(d) + "/"
  }

  lemma MonthPathInjective(a: Date, b: Date)
    requires Valid(a) && InRange(a) && Valid(b) && InRange(b)
    requires MonthPath(a) == MonthPath(b)
    ensures a.year == b.year && a.month == b.month
  {
    var s := MonthPath(a);
    var n := |s|;
    assert YearText(a) == s[..n - 4] == YearText(b);
    assert MonthText(a) == s[n - 3..n - 1] == MonthText(b);
    DecimalInjective(a.year, b.year);
  }

  lemma DayPathInjective(a: Date, b: Date)
    requires Valid(a) && InRange(a) && Valid(b) && InRange(b)
    requires DayPath(a) == DayPath(b)
    ensures a == b
  {
    var s := DayPath(a);
    var n := |s|;
    assert MonthPath(a) == s[..n - 3] == MonthPath(b);
    assert DayText(a) == s[n - 3..n - 1] == DayText(b);
    MonthPathInjective(a, b);
  }

}
