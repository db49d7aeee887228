/**
 * The dashboard statistics the application component derives from its
 * entries and the current instant: today's total (by UTC date), the
 * percentage of the fixed 8-litre goal, the week total since local Sunday
 * midnight, the week's daily average and the local calendar month's total.
 */
module Stats {
  import opened Entries
  import opened Clock
  import opened Calendar

  /** The fixed daily goal, in litres. */
  const DailyGoal: real := 8.0

  /** Entries whose ISO (UTC) date is day `day`. */
  function OnUtcDate(day: int): Entry -> bool
  {
    (e: Entry) => UtcDate(e.timestamp) == day
  }

  /** Total of the entries whose UTC date is `day`. */
  function TotalOnUtcDate(es: seq<Entry>, day: int): real
  {
    Sum(Filter(es, OnUtcDate(day)))
  }

  /** `todayTotal`: entries whose UTC date string equals now's. It is the
      whole total when every entry is on now's UTC date, zero when none is,
      and with non-negative amounts between the two. */
  function TodayTotal(es: seq<Entry>, now: int): (r: real)
    ensures (forall i :: 0 <= i < |es| ==> UtcDate(es[i].timestamp) == UtcDate(now)) ==> r == Sum(es)
    ensures (forall i :: 0 <= i < |es| ==> UtcDate(es[i].timestamp) != UtcDate(now)) ==> r == 0.0
    ensures NonNegative(es) ==> 0.0 <= r <= Sum(es)
  {
    SumFilterBounds(es, OnUtcDate(UtcDate(now)));
    TotalOnUtcDate(es, UtcDate(now))
  }

  /** `Math.round`: the nearest integer, halves rounded up. */
  function Round(x: real): (n: int)
    ensures (n as real) - 0.5 <= x < (n as real) + 0.5
  {
    (x + 0.5).Floor
  }

  /** `todayPercentage = Math.min(Math.round(todayTotal / 8 * 100), 100)`. */
  function TodayPercentage(todayTotal: real): (p: int)
    ensures p <= 100
    ensures todayTotal >= 0.0 ==> p >= 0
    ensures p == 100 <==> todayTotal >= 7.96
    ensures p < 100 ==> (p as real) - 0.5 <= todayTotal * 12.5 < (p as real) + 0.5
  {
    var r := Round(todayTotal / DailyGoal * 100.0);
    if r < 100 then r else 100
  }

  /** `startOfWeek`: local midnight of the day `getDay()` days before now. */
  function StartOfWeek(now: int, off: int): (t: int)
    ensures t <= now < t + 7 * 86400000
    ensures LocalMidnight(t, off) == t
    ensures WeekDay(t, off) == 0
    ensures LocalDay(now, off) - LocalDay(t, off) == WeekDay(now, off)
  {
    var shifted := ShiftDays(now, -WeekDay(now, off));
    LocalDayShift(now, off, -WeekDay(now, off));
    LocalMidnight(shifted, off)
  }

  function FromInstant(t: int): Entry -> bool
  {
    (e: Entry) => e.timestamp >= t
  }

  /** `currentWeekTotal`: every entry stamped at or after the start of the
      week, with no upper bound. It is the whole total when every entry is,
      zero when every entry is older, and with non-negative amounts between
      the two. */
  function CurrentWeekTotal(es: seq<Entry>, now: int, off: int): (r: real)
    ensures (forall i :: 0 <= i < |es| ==> es[i].timestamp >= StartOfWeek(now, off)) ==> r == Sum(es)
    ensures (forall i :: 0 <= i < |es| ==> es[i].timestamp < StartOfWeek(now, off)) ==> r == 0.0
    ensures NonNegative(es) ==> 0.0 <= r <= Sum(es)
  {
    SumFilterBounds(es, FromInstant(StartOfWeek(now, off)));
    Sum(Filter(es, FromInstant(StartOfWeek(now, off))))
  }

  /** `daysPassedInWeek = now.getDay() + 1`: Sunday through today, inclusive. */
  function DaysPassedInWeek(now: int, off: int): (n: int)
    ensures 1 <= n <= 7
    ensures n == LocalDay(now, off) - LocalDay(StartOfWeek(now, off), off) + 1
  {
    WeekDay(now, off) + 1
  }

  /** `weekAvg`: the week total spread over the days passed; the guard
      against a zero divisor never fires. */
  function WeekAvg(es: seq<Entry>, now: int, off: int): (avg: real)
    ensures avg * (DaysPassedInWeek(now, off) as real) == CurrentWeekTotal(es, now, off)
    ensures CurrentWeekTotal(es, now, off) >= 0.0 ==> avg >= 0.0
  {
    var days := DaysPassedInWeek(now, off);
    var total := CurrentWeekTotal(es, now, off);
    var avg := if days > 0 then total / (days as real) else 0.0;
    Spread(total, days, avg);
    avg
  }

  /** A total spread over a positive number of days gives the total back,
      and keeps its sign. */
  lemma Spread(total: real, days: int, avg: real)
    requires days > 0 && avg == if days > 0 then total / (days as real) else 0.0
    ensures avg * (days as real) == total
    ensures total >= 0.0 ==> avg >= 0.0
  {
  }

  /** The `${getFullYear()}-${getMonth()}` key; `month0` is 0..11. Two keys
      are equal strings exactly when year and month agree. */
  datatype YearMonth = YearMonth(year: int, month0: int)

  /** The local (year, month) of local day number `day`. */
  function MonthKeyOfDay(day: int): (k: YearMonth)
    ensures 0 <= k.month0 < 12
  {
    var c := CivilFromDays(day);
    YearMonth(c.year, c.month - 1)
  }

  /** The local (year, month) of an instant. */
  function MonthKeyOf(ts: int, off: int): YearMonth
  {
    MonthKeyOfDay(LocalDay(ts, off))
  }

  function InMonth(off: int, key: YearMonth): Entry -> bool
  {
    (e: Entry) => MonthKeyOf(e.timestamp, off) == key
  }

  /** Total of the entries whose local (year, month) is `key`. */
  function TotalInMonth(es: seq<Entry>, off: int, key: YearMonth): real
  {
    Sum(Filter(es, InMonth(off, key)))
  }

  /** `monthTotal`: entries in now's local calendar month. It is the whole
      total when every entry is in that month, zero when none is, and with
      non-negative amounts between the two. */
  function MonthTotal(es: seq<Entry>, now: int, off: int): (r: real)
    ensures (forall i :: 0 <= i < |es| ==> MonthKeyOf(es[i].timestamp, off) == MonthKeyOf(now, off)) ==> r == Sum(es)
    ensures (forall i :: 0 <= i < |es| ==> MonthKeyOf(es[i].timestamp, off) != MonthKeyOf(now, off)) ==> r == 0.0
    ensures NonNegative(es) ==> 0.0 <= r <= Sum(es)
  {
    SumFilterBounds(es, InMonth(off, MonthKeyOf(now, off)));
    TotalInMonth(es, off, MonthKeyOf(now, off))
  }

  datatype DashboardStats = DashboardStats(
    todayTotal: real,
    todayPercentage: int,
    weekAvg: real,
    monthTotal: real,
    currentWeekTotal: real)

  /** The `stats` memo. */
  function ComputeStats(es: seq<Entry>, now: int, off: int): (s: DashboardStats)
    ensures s.todayPercentage <= 100
    ensures NonNegative(es) ==>
      && s.todayTotal >= 0.0 && s.todayPercentage >= 0 && s.weekAvg >= 0.0
      && s.monthTotal >= 0.0 && s.currentWeekTotal >= 0.0
  {
    var todayTotal := TodayTotal(es, now);
    var weekTotal := CurrentWeekTotal(es, now, off);
    var monthTotal := MonthTotal(es, now, off);
    var weekAvg := WeekAvg(es, now, off);
    var percentage := TodayPercentage(todayTotal);
    DashboardStats(todayTotal, percentage, weekAvg, monthTotal, weekTotal)
  }

  /** An added entry raises today's total by its amount exactly when its
      UTC date is today's. */
  lemma TodayTotalSnoc(es: seq<Entry>, e: Entry, now: int)
    ensures TodayTotal(es + [e], now)
         == TodayTotal(es, now) + (if UtcDate(e.timestamp) == UtcDate(now) then e.amount else 0.0)
  {
    SumFilterSnoc(es, e, OnUtcDate(UtcDate(now)));
  }

  /** Adding an entry stamped `now` raises today's total by exactly its amount. */
  lemma TodayTotalAfterAdd(es: seq<Entry>, e: Entry, now: int)
    requires e.timestamp == now
    ensures TodayTotal(es + [e], now) == TodayTotal(es, now) + e.amount
  {
    TodayTotalSnoc(es, e, now);
  }

  /** An entry counts toward the week total exactly when it is stamped at or
      after the start of the week, later than now included. */
  lemma WeekTotalAfterAdd(es: seq<Entry>, e: Entry, now: int, off: int)
    ensures CurrentWeekTotal(es + [e], now, off)
         == CurrentWeekTotal(es, now, off) + (if e.timestamp >= StartOfWeek(now, off) then e.amount else 0.0)
    ensures e.timestamp >= now ==> CurrentWeekTotal(es + [e], now, off) == CurrentWeekTotal(es, now, off) + e.amount
  {
    SumFilterSnoc(es, e, FromInstant(StartOfWeek(now, off)));
  }

  /** An entry counts toward the month total exactly when its local
      (year, month) is now's. */
  lemma MonthTotalAfterAdd(es: seq<Entry>, e: Entry, now: int, off: int)
    ensures MonthTotal(es + [e], now, off)
         == MonthTotal(es, now, off) + (if MonthKeyOf(e.timestamp, off) == MonthKeyOf(now, off) then e.amount else 0.0)
  {
    SumFilterSnoc(es, e, InMonth(off, MonthKeyOf(now, off)));
  }

  /** "Today" is a UTC date while the week starts at local midnight: ten hours
      east of UTC, early on a Sunday, an entry from Saturday 11:00 local time
      counts toward today's total (same UTC date) but not toward the week's. */
  lemma TodayIsUtcWeekIsLocal()
    ensures var off, now := 36000000, 241200000;
      var es := [Entry("a", 1.0, 176400000)];
      && WeekDay(now, off) == 0
      && TodayTotal(es, now) == 1.0
      && CurrentWeekTotal(es, now, off) == 0.0
  {
    var off, now := 36000000, 241200000;
    var es := [Entry("a", 1.0, 176400000)];
    assert StartOfWeek(now, off) == 223200000;
    assert Filter(es, OnUtcDate(UtcDate(now))) == es;
    assert Filter(es, FromInstant(StartOfWeek(now, off))) == [];
  }
}
