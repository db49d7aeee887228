/**
 * The three chart series: seven daily buckets (by UTC date), four rolling
 * seven-day buckets (by local day) and six monthly buckets (by local
 * year and month), each oldest first. Each builder is a loop that appends
 * one bucket per step; the weekly one also accumulates its total entry by
 * entry and normalises its window bounds in place.
 */
module Charts {
  import opened Entries
  import opened Clock
  import opened Calendar
  import opened Stats
  import opened Text

  /** One bar or point: its label and its litres. */
  datatype Bucket = Bucket(name: string, value: real)

  /** `toLocaleDateString('en-US', { weekday: 'short' })` for weekday `w` (0 is Sunday). */
  function WeekdayShort(w: int): string
    requires 0 <= w < 7
  {
    ["Sun", "Mon", "Tue", "Wed", "Thu", "Fri", "Sat"][w]
  }

  /** `toLocaleDateString('en-US', { month: 'short' })` for month index `m0` (0 is January). */
  function MonthShort(m0: int): string
    requires 0 <= m0 < 12
  {
    ["Jan", "Feb", "Mar", "Apr", "May", "Jun", "Jul", "Aug", "Sep", "Oct", "Nov", "Dec"][m0]
  }

  /** The first `n` buckets of a series whose bucket `k` is `bucket(k)`,
      oldest first. */
  function Series(n: nat, bucket: int -> Bucket): (r: seq<Bucket>)
    ensures |r| == n
    ensures forall k :: 0 <= k < n ==> r[k] == bucket(k)
  {
    if n == 0 then [] else Series(n - 1, bucket) + [bucket(n - 1)]
  }

  /** A loop that appends `bucket(n)` to the first `n` buckets has the first `n + 1`. */
  lemma SeriesSnoc(n: nat, bucket: int -> Bucket)
    ensures Series(n + 1, bucket) == Series(n, bucket) + [bucket(n)]
  {
  }

  // ---------------------------------------------------------------- daily

  /** The label of bucket `k` (0 oldest, 6 today) of the daily series: the
      local weekday of the instant `6 - k` days before now. */
  function DailyLabel(now: int, off: int, k: int): string
  {
    WeekdayShort(WeekDay(ShiftDays(now, k - 6), off))
  }

  /** The value of daily bucket `k`: the total of the entries whose UTC date
      is that of the instant `6 - k` days before now. */
  function DailyValue(entries: seq<Entry>, now: int, k: int): real
  {
    TotalOnUtcDate(entries, UtcDate(now) + k - 6)
  }

  /** `dailyData`. */
  method DailyData(entries: seq<Entry>, now: int, off: int) returns (days: seq<Bucket>)
    ensures |days| == 7
    ensures forall k :: 0 <= k < 7 ==> days[k].name == DailyLabel(now, off, k) && days[k].value == DailyValue(entries, now, k)
  {
    days := [];
    var i := 6;
    while i >= 0
      invariant -1 <= i <= 6
      invariant |days| == 6 - i
      invariant forall k :: 0 <= k < |days| ==> days[k].name == DailyLabel(now, off, k) && days[k].value == DailyValue(entries, now, k)
    {
      var d := ShiftDays(now, -i);
      UtcDateShift(now, -i);
      var dateStr := UtcDate(d);
      var dayLabel := WeekdayShort(WeekDay(d, off));
      var total := TotalOnUtcDate(entries, dateStr);
      days := days + [Bucket(dayLabel, total)];
      i := i - 1;
    }
  }

  /** The daily buckets are seven consecutive UTC dates ending with today's:
      the last one is the dashboard's today total. */
  lemma DailyLastIsToday(entries: seq<Entry>, now: int, off: int)
    ensures DailyValue(entries, now, 6) == TodayTotal(entries, now)
    ensures DailyLabel(now, off, 6) == WeekdayShort(WeekDay(now, off))
  {
  }

  /** Adjacent daily labels are adjacent weekdays. */
  lemma DailyLabelsConsecutive(now: int, off: int, k: int)
    requires 0 <= k < 6
    ensures var w := WeekDay(ShiftDays(now, k - 6), off);
      DailyLabel(now, off, k + 1) == WeekdayShort((w + 1) % 7)
  {
    LocalDayShift(now, off, k - 6);
    LocalDayShift(now, off, k - 5);
  }

  // --------------------------------------------------------------- weekly

  /** Entries whose local day lies in `lo..hi`, both ends included. */
  function InLocalDays(off: int, lo: int, hi: int): Entry -> bool
  {
    (e: Entry) => lo <= LocalDay(e.timestamp, off) <= hi
  }

  /** The total over the seven local days ending with day `endDay`. */
  function WindowTotal(entries: seq<Entry>, off: int, endDay: int): real
  {
    Sum(Filter(entries, InLocalDays(off, endDay - 6, endDay)))
  }

  /** The last local day of weekly bucket `k` (0 oldest, 3 ending today). */
  function WeekEndDay(now: int, off: int, k: int): int
  {
    LocalDay(now, off) - 7 * (3 - k)
  }

  /** `${weekStart.getDate()}/${weekStart.getMonth() + 1}` for the local day `day`. */
  function DayMonthLabel(day: int): string
  {
    var c := CivilFromDays(day);
    ShowInt(c.day) + "/" + ShowInt(c.month)
  }

  /** The label of weekly bucket `k`: the first day of its window. */
  function WeeklyLabel(now: int, off: int, k: int): string
  {
    DayMonthLabel(WeekEndDay(now, off, k) - 6)
  }

  /** The value of weekly bucket `k`: the total over the seven local days it spans. */
  function WeeklyValue(entries: seq<Entry>, now: int, off: int, k: int): real
  {
    WindowTotal(entries, off, WeekEndDay(now, off, k))
  }

  /** The `forEach` test: local midnight of the entry against the window's
      first midnight and its last millisecond. */
  lemma WindowTest(e: Entry, weekStart: int, weekEnd: int, off: int)
    ensures var eTime := LocalMidnight(e.timestamp, off);
      (eTime >= LocalMidnight(weekStart, off) && eTime <= LocalEndOfDay(weekEnd, off))
      <==> InLocalDays(off, LocalDay(weekStart, off), LocalDay(weekEnd, off))(e)
  {
    MidnightOrder(weekStart, e.timestamp, off);
    MidnightOrder(e.timestamp, weekEnd, off);
  }

  /** The `entries.forEach` of `weeklyData`: the total of the entries whose
      local midnight lies between the local midnight of `weekStart` and the
      last millisecond of `weekEnd`. Both bounds are normalised by `setHours`
      at every entry, as in the callback. */
  method WindowSum(entries: seq<Entry>, weekStart: int, weekEnd: int, off: int) returns (total: real)
    ensures total == Sum(Filter(entries, InLocalDays(off, LocalDay(weekStart, off), LocalDay(weekEnd, off))))
  {
    var p := InLocalDays(off, LocalDay(weekStart, off), LocalDay(weekEnd, off));
    var start, end := weekStart, weekEnd;
    total := 0.0;
    var j := 0;
    while j < |entries|
      invariant 0 <= j <= |entries|
      invariant LocalDay(start, off) == LocalDay(weekStart, off) && LocalDay(end, off) == LocalDay(weekEnd, off)
      invariant total == Sum(Filter(entries[..j], p))
    {
      var e := entries[j];
      WindowTest(e, start, end, off);
      var eTime := LocalMidnight(e.timestamp, off);
      start := LocalMidnight(start, off);
      var wStart := start;
      end := LocalEndOfDay(end, off);
      var wEnd := end;
      if eTime >= wStart && eTime <= wEnd {
        total := total + e.amount;
      }
      assert entries[..j + 1] == entries[..j] + [e];
      SumFilterSnoc(entries[..j], e, p);
      j := j + 1;
    }
    assert entries[..|entries|] == entries;
  }

  /** Weekly bucket `k`. */
  function WeeklyBucket(entries: seq<Entry>, now: int, off: int): int -> Bucket
  {
    k => Bucket(WeeklyLabel(now, off, k), WeeklyValue(entries, now, off, k))
  }

  /** `weeklyData`: the four weekly buckets. */
  method WeeklyData(entries: seq<Entry>, now: int, off: int) returns (weeks: seq<Bucket>)
    ensures |weeks| == 4
    ensures forall k :: 0 <= k < 4 ==> weeks[k].name == WeeklyLabel(now, off, k) && weeks[k].value == WeeklyValue(entries, now, off, k)
  {
    weeks := [];
    var i := 3;
    ghost var n := 0;
    while i >= 0
      invariant -1 <= i <= 3 && n == 3 - i
      invariant weeks == Series(n, WeeklyBucket(entries, now, off))
    {
      var weekLabel, total := WeeksBack(entries, now, off, i);
      SeriesSnoc(n, WeeklyBucket(entries, now, off));
      weeks := weeks + [Bucket(weekLabel, total)];
      i, n := i - 1, n + 1;
    }
  }

  /** One turn of the loop: the window ending `7 * i` days before now, its
      label and its total. */
  method WeeksBack(entries: seq<Entry>, now: int, off: int, i: int) returns (weekLabel: string, total: real)
    ensures weekLabel == WeeklyLabel(now, off, 3 - i)
    ensures total == WeeklyValue(entries, now, off, 3 - i)
  {
    var d := ShiftDays(now, -(i * 7));
    var weekEnd := d;
    var weekStart := ShiftDays(d, -6);
    WeekBounds(now, off, i);
    weekLabel := DayMonthLabel(LocalDay(weekStart, off));
    total := WindowSum(entries, weekStart, weekEnd, off);
  }

  /** The instants of one turn of the loop lie on the first and last days of
      bucket `3 - i`. */
  lemma WeekBounds(now: int, off: int, i: int)
    ensures var d := ShiftDays(now, -(i * 7));
      && LocalDay(d, off) == WeekEndDay(now, off, 3 - i)
      && LocalDay(ShiftDays(d, -6), off) == WeekEndDay(now, off, 3 - i) - 6
  {
    var d := ShiftDays(now, -(i * 7));
    LocalDayShift(now, off, -(i * 7));
    LocalDayShift(d, off, -6);
  }

  /** The weekly windows do not overlap: no entry counts in two buckets. */
  lemma WeeklyWindowsDisjoint(now: int, off: int, k1: int, k2: int, e: Entry)
    requires 0 <= k1 < k2 < 4
    ensures var end1, end2 := WeekEndDay(now, off, k1), WeekEndDay(now, off, k2);
      !(InLocalDays(off, end1 - 6, end1)(e) && InLocalDays(off, end2 - 6, end2)(e))
  {
  }

  /** Two adjacent day ranges split the total over their union. */
  lemma SplitDays(entries: seq<Entry>, off: int, lo: int, mid: int, hi: int)
    requires lo <= mid + 1 && mid <= hi
    ensures Sum(Filter(entries, InLocalDays(off, lo, hi)))
         == Sum(Filter(entries, InLocalDays(off, lo, mid))) + Sum(Filter(entries, InLocalDays(off, mid + 1, hi)))
  {
    SumFilterDisjoint(entries, InLocalDays(off, lo, mid), InLocalDays(off, mid + 1, hi), InLocalDays(off, lo, hi));
  }

  /** Four consecutive seven-day windows make up the 28 days they span. */
  lemma FourWindows(entries: seq<Entry>, off: int, e0: int, e1: int, e2: int, e3: int)
    requires e1 == e0 + 7 && e2 == e1 + 7 && e3 == e2 + 7
    ensures WindowTotal(entries, off, e0) + WindowTotal(entries, off, e1)
          + WindowTotal(entries, off, e2) + WindowTotal(entries, off, e3)
         == Sum(Filter(entries, InLocalDays(off, e0 - 6, e3)))
  {
    SplitDays(entries, off, e0 - 6, e0, e3);
    SplitDays(entries, off, e1 - 6, e1, e3);
    SplitDays(entries, off, e2 - 6, e2, e3);
  }

  /** The windows are contiguous: together the four buckets total the 28
      local days ending today. */
  lemma WeeklyCoversFourWeeks(entries: seq<Entry>, now: int, off: int)
    ensures WeeklyValue(entries, now, off, 0) + WeeklyValue(entries, now, off, 1)
          + WeeklyValue(entries, now, off, 2) + WeeklyValue(entries, now, off, 3)
         == Sum(Filter(entries, InLocalDays(off, LocalDay(now, off) - 27, LocalDay(now, off))))
  {
    var e0, e1, e2, e3 := WeekEndDay(now, off, 0), WeekEndDay(now, off, 1), WeekEndDay(now, off, 2), WeekEndDay(now, off, 3);
    assert e0 - 6 == LocalDay(now, off) - 27 && e3 == LocalDay(now, off);
    FourWindows(entries, off, e0, e1, e2, e3);
  }

  /** The label names the first day of the window: splitting it at '/' and
      reading both numbers back gives that day's day of month and month. */
  lemma DayMonthLabelRoundTrip(day: int)
    ensures var c := CivilFromDays(day);
      var parts := Split(DayMonthLabel(day), '/');
      |parts| == 2 && NumberOf(parts[0]) == Some(c.day) && NumberOf(parts[1]) == Some(c.month)
  {
    var c := CivilFromDays(day);
    var a, b := ShowNat(c.day), ShowNat(c.month);
    assert forall i :: 0 <= i < |a| ==> a[i] != '/';
    assert forall i :: 0 <= i < |b| ==> b[i] != '/';
    SplitOneSeparator(a, b, '/');
    NumberOfShowNat(c.day);
    NumberOfShowNat(c.month);
  }

  // -------------------------------------------------------------- monthly

  /** `getMonth()`: the local month index, 0 for January. */
  function GetMonth(ts: int, off: int): (m: int)
    ensures 0 <= m < 12
    ensures m == MonthKeyOf(ts, off).month0
  {
    CivilFromDays(LocalDay(ts, off)).month - 1
  }

  /** `setMonth(month0)` in local time: the year, day of month and time of
      day are kept, and a day past the end of the target month runs on into
      the next one. */
  function SetMonth(ts: int, off: int, month0: int): (t: int)
    ensures var c := CivilFromDays(LocalDay(ts, off));
      LocalDay(t, off) == MakeDay(c.year, month0, c.day)
    ensures t - LocalMidnight(t, off) == ts - LocalMidnight(ts, off)
  {
    var c := CivilFromDays(LocalDay(ts, off));
    var n := MakeDay(c.year, month0, c.day) - LocalDay(ts, off);
    LocalDayShift(ts, off, n);
    ShiftDays(ts, n)
  }

  /** The month `setMonth` lands in is the month of the day MakeDay gives. */
  lemma SetMonthKey(ts: int, off: int, month0: int)
    ensures var c := CivilFromDays(LocalDay(ts, off));
      MonthKeyOf(SetMonth(ts, off, month0), off) == MonthKeyOfDay(MakeDay(c.year, month0, c.day))
  {
    var t := SetMonth(ts, off, month0);
    var c := CivilFromDays(LocalDay(ts, off));
    assert LocalDay(t, off) == MakeDay(c.year, month0, c.day);
  }

  /** The key of monthly bucket `k` (0 oldest, 5 now): the local month of
      the day MakeDay gives for now's year, now's month less `5 - k`, and
      now's day of month. */
  function MonthlyKey(now: int, off: int, k: int): YearMonth
  {
    var c := CivilFromDays(LocalDay(now, off));
    MonthKeyOfDay(MakeDay(c.year, GetMonth(now, off) - (5 - k), c.day))
  }

  /** Step `i` of the loop (`setMonth(getMonth() - i)` on a copy of now)
      lands in the month of bucket `5 - i`. */
  lemma MonthlyKeyOfStep(now: int, off: int, i: int)
    ensures MonthKeyOf(SetMonth(now, off, GetMonth(now, off) - i), off) == MonthlyKey(now, off, 5 - i)
  {
    SetMonthKey(now, off, GetMonth(now, off) - i);
    assert GetMonth(now, off) - (5 - (5 - i)) == GetMonth(now, off) - i;
  }

  /** The label of monthly bucket `k`: the short name of its month. */
  function MonthlyLabel(now: int, off: int, k: int): string
  {
    MonthShort(MonthlyKey(now, off, k).month0)
  }

  /** The value of monthly bucket `k`: the total of the entries in its month. */
  function MonthlyValue(entries: seq<Entry>, now: int, off: int, k: int): real
  {
    TotalInMonth(entries, off, MonthlyKey(now, off, k))
  }

  /** Monthly bucket `k`. */
  function MonthlyBucket(entries: seq<Entry>, now: int, off: int): int -> Bucket
  {
    k => Bucket(MonthlyLabel(now, off, k), MonthlyValue(entries, now, off, k))
  }

  /** `monthlyData`: the six monthly buckets. */
  method MonthlyData(entries: seq<Entry>, now: int, off: int) returns (months: seq<Bucket>)
    ensures |months| == 6
    ensures forall k :: 0 <= k < 6 ==> months[k].name == MonthlyLabel(now, off, k) && months[k].value == MonthlyValue(entries, now, off, k)
  {
    months := [];
    var i := 5;
    ghost var n := 0;
    while i >= 0
      invariant -1 <= i <= 5 && n == 5 - i
      invariant months == Series(n, MonthlyBucket(entries, now, off))
    {
      var monthLabel, total := MonthsBack(entries, now, off, i);
      SeriesSnoc(n, MonthlyBucket(entries, now, off));
      months := months + [Bucket(monthLabel, total)];
      i, n := i - 1, n + 1;
    }
  }

  /** One turn of the loop: `d.setMonth(d.getMonth() - i)` on a copy of now,
      the short name of the month it lands in and that month's total. */
  method MonthsBack(entries: seq<Entry>, now: int, off: int, i: int) returns (monthLabel: string, total: real)
    ensures monthLabel == MonthlyLabel(now, off, 5 - i)
    ensures total == MonthlyValue(entries, now, off, 5 - i)
  {
    var d := SetMonth(now, off, GetMonth(now, off) - i);
    var monthKey := MonthKeyOf(d, off);
    MonthlyKeyOfStep(now, off, i);
    monthLabel := MonthShort(monthKey.month0);
    total := TotalInMonth(entries, off, monthKey);
  }

  /** The last monthly bucket is now's own month: the dashboard's month total. */
  lemma MonthlyLastIsThisMonth(entries: seq<Entry>, now: int, off: int)
    ensures MonthlyKey(now, off, 5) == MonthKeyOf(now, off)
    ensures MonthlyValue(entries, now, off, 5) == MonthTotal(entries, now, off)
  {
    var c := CivilFromDays(LocalDay(now, off));
    MakeDayOfCivil(LocalDay(now, off));
    assert GetMonth(now, off) - (5 - 5) == c.month - 1;
    assert MakeDay(c.year, GetMonth(now, off) - (5 - 5), c.day) == LocalDay(now, off);
  }

  /** The month `delta` months after (year, month0). */
  function AddMonths(key: YearMonth, delta: int): (r: YearMonth)
    ensures 0 <= r.month0 < 12
    ensures r.year * 12 + r.month0 == key.year * 12 + key.month0 + delta
  {
    YearMonth(key.year + (key.month0 + delta) / 12, (key.month0 + delta) % 12)
  }

  /** For a day that the month `month0` counts to has, MakeDay lands in
      that month. */
  lemma MonthKeyOfMakeDay(year: int, month0: int, date: int)
    requires 1 <= date <= DaysInMonth(year + month0 / 12, month0 % 12 + 1)
    ensures MonthKeyOfDay(MakeDay(year, month0, date)) == YearMonth(year + month0 / 12, month0 % 12)
  {
    MakeDayInMonth(year, month0, date);
  }

  /** For a day past the end of the month `month0` counts to (the 29th to
      the 31st), MakeDay lands in the month `month0 + 1` counts to. */
  lemma MonthKeyOfMakeDayPastEnd(year: int, month0: int, date: int)
    requires DaysInMonth(year + month0 / 12, month0 % 12 + 1) < date <= 31
    ensures MonthKeyOfDay(MakeDay(year, month0, date)) == YearMonth(year + (month0 + 1) / 12, (month0 + 1) % 12)
  {
    var y, m := year + month0 / 12, month0 % 12 + 1;
    NextMonthIndex(year, month0, y, m);
    MakeDayPastMonthEnd(year, month0, date, y, m);
    MonthKeyOfDayAt(MakeDay(year, month0, date), y, m, date - DaysInMonth(y, m));
  }

  /** MonthKeyOfMakeDay, stated for a day number already known to equal the
      MakeDay of a day in the month. */
  lemma MonthKeyOfDayAt(day: int, y: int, m: int, e: int)
    requires 1 <= e <= DaysInMonth(y + m / 12, m % 12 + 1) && day == MakeDay(y, m, e)
    ensures MonthKeyOfDay(day) == YearMonth(y + m / 12, m % 12)
  {
    MonthKeyOfMakeDay(y, m, e);
  }

  /** Month index `m` (1-based) of year `y`, as a month index of its own,
      counts to the same month as `month0 + 1` of `year`. */
  lemma NextMonthIndex(year: int, month0: int, y: int, m: int)
    requires y == year + month0 / 12 && m == month0 % 12 + 1
    ensures y + m / 12 == year + (month0 + 1) / 12 && m % 12 == (month0 + 1) % 12
  {
  }

  lemma AddMonthsTo(year: int, month0: int, delta: int, m0: int)
    requires m0 == month0 + delta
    ensures AddMonths(YearMonth(year, month0), delta) == YearMonth(year + m0 / 12, m0 % 12)
  {
  }

  /** For a day of month 1..31, MakeDay lands in the month `month0` counts
      to when that month has the day, and otherwise, the surplus days running
      on, in the month after it. */
  lemma MonthKeyOfMakeDayOverflow(year: int, month0: int, date: int)
    requires 1 <= date <= 31
    ensures date <= DaysInMonth(year + month0 / 12, month0 % 12 + 1) ==>
      MonthKeyOfDay(MakeDay(year, month0, date)) == YearMonth(year + month0 / 12, month0 % 12)
    ensures DaysInMonth(year + month0 / 12, month0 % 12 + 1) < date ==>
      MonthKeyOfDay(MakeDay(year, month0, date)) == YearMonth(year + (month0 + 1) / 12, (month0 + 1) % 12)
  {
    if date <= DaysInMonth(year + month0 / 12, month0 % 12 + 1) {
      MonthKeyOfMakeDay(year, month0, date);
    } else {
      MonthKeyOfMakeDayPastEnd(year, month0, date);
    }
  }

  /** On days 1 to 28 of a month, bucket `k` is the month `5 - k` months back,
      so the six keys are six consecutive, distinct months. */
  lemma MonthlyKeysEarlyInMonth(now: int, off: int, k: int)
    requires 0 <= k < 6
    requires CivilFromDays(LocalDay(now, off)).day <= 28
    ensures MonthlyKey(now, off, k) == AddMonths(MonthKeyOf(now, off), k - 5)
  {
    var c := CivilFromDays(LocalDay(now, off));
    var m0 := GetMonth(now, off) - (5 - k);
    MonthKeyOfMakeDay(c.year, m0, c.day);
    AddMonthsTo(c.year, GetMonth(now, off), k - 5, m0);
    assert MonthKeyOf(now, off) == YearMonth(c.year, GetMonth(now, off));
  }

  /** On any day of the month MakeDay lands in the month `month0` counts to
      or in the one after it. */
  lemma MonthKeyOfMakeDayBounds(year: int, month0: int, date: int)
    requires 1 <= date <= 31
    ensures var late := MonthIndex(MonthKeyOfDay(MakeDay(year, month0, date))) - (year * 12 + month0);
      0 <= late <= 1
  {
    MonthKeyOfMakeDayOverflow(year, month0, date);
  }

  /** Months counted from year 0. */
  function MonthIndex(key: YearMonth): int
  {
    key.year * 12 + key.month0
  }

  /** Bucket `k` is the month `5 - k` months back or, at most, one month later. */
  lemma MonthlyKeyAtMostOneLate(now: int, off: int, k: int)
    ensures var late := MonthIndex(MonthlyKey(now, off, k)) - (MonthIndex(MonthKeyOf(now, off)) + k - 5);
      0 <= late <= 1
    ensures MonthlyKey(now, off, k) == AddMonths(MonthKeyOf(now, off), k - 5)
         || MonthlyKey(now, off, k) == AddMonths(MonthKeyOf(now, off), k - 4)
  {
    var c := CivilFromDays(LocalDay(now, off));
    var m0 := GetMonth(now, off) - (5 - k);
    assert MonthlyKey(now, off, k) == MonthKeyOfDay(MakeDay(c.year, m0, c.day));
    assert MonthKeyOf(now, off) == YearMonth(c.year, GetMonth(now, off));
    MonthKeyOfMakeDayBounds(c.year, m0, c.day);
    KeyOfIndex(MonthlyKey(now, off, k), MonthKeyOf(now, off), k - 5, k - 4);
  }

  /** A month zero or one month later than `delta` months after `key`. */
  lemma KeyOfIndex(got: YearMonth, key: YearMonth, delta: int, delta1: int)
    requires 0 <= got.month0 < 12 && delta1 == delta + 1
    requires 0 <= MonthIndex(got) - (MonthIndex(key) + delta) <= 1
    ensures got == AddMonths(key, delta) || got == AddMonths(key, delta1)
  {
  }

  /** On every day of the month the monthly buckets run oldest first: no
      key is earlier than the one before it. */
  lemma MonthlyKeysOrdered(now: int, off: int, k: int)
    requires 0 <= k < 5
    ensures MonthIndex(MonthlyKey(now, off, k)) <= MonthIndex(MonthlyKey(now, off, k + 1))
  {
    MonthlyKeyAtMostOneLate(now, off, k);
    MonthlyKeyAtMostOneLate(now, off, k + 1);
  }

  /** Distinct buckets early in a month have distinct keys. */
  lemma MonthlyKeysDistinct(now: int, off: int, k1: int, k2: int)
    requires 0 <= k1 < k2 < 6
    requires CivilFromDays(LocalDay(now, off)).day <= 28
    ensures MonthlyKey(now, off, k1) != MonthlyKey(now, off, k2)
  {
    MonthlyKeysEarlyInMonth(now, off, k1);
    MonthlyKeysEarlyInMonth(now, off, k2);
  }

  /** On 31 March 2024 (UTC offset 0, noon) `setMonth(1)` lands on 2 March:
      the last two buckets are both March 2024 and February has none. */
  lemma MonthlyKeysCanRepeat()
    ensures var now := 19813 * 86400000 + 43200000;
      && CivilFromDays(LocalDay(now, 0)) == Civil(2024, 3, 31)
      && MonthlyKey(now, 0, 4) == YearMonth(2024, 2)
      && MonthlyKey(now, 0, 5) == YearMonth(2024, 2)
  {
    var now := 19813 * 86400000 + 43200000;
    assert LocalDay(now, 0) == 19813;
    assert CivilFromDays(19813) == Civil(2024, 3, 31) by {
      assert (19813 + 719468) / 146097 == 5 && (19813 + 719468) % 146097 == 8796;
      assert YearOfEra(8796) == 24 && StartOfYearOfEra(24) == 8766;
      assert (5 * 30 + 2) / 153 == 0 && MonthStart(0) == 0;
    }
    assert DaysFromCivil(2024, 3, 1) == 19783 by {
      assert 2024 / 400 == 5 && 2024 % 400 == 24;
      assert StartOfYearOfEra(24) == 8766 && MonthStart(0) == 0;
    }
    assert MakeDay(2024, 1, 31) == 19784 by {
      assert 2023 / 400 == 5 && 2023 % 400 == 23;
      assert StartOfYearOfEra(23) == 8400 && MonthStart(11) == 337;
    }
    assert MakeDay(2024, 2, 31) == 19813;
    CivilDaysRoundTrip(2024, 3, 2);
    SetMonthKey(now, 0, 1);
    SetMonthKey(now, 0, 2);
  }

  /** The key of monthly bucket `k` when the day of month is first pinned
      to 1 (`setDate(1)` before `setMonth`), so that no month overflows. */
  function MonthlyKeyFromFirst(now: int, off: int, k: int): YearMonth
  {
    var c := CivilFromDays(LocalDay(now, off));
    MonthKeyOfDay(MakeDay(c.year, GetMonth(now, off) - (5 - k), 1))
  }

  /** From the first of the month, bucket `k` is always the month `5 - k`
      months back: six consecutive months ending with now's. */
  lemma MonthlyKeyFromFirstConsecutive(now: int, off: int, k: int)
    ensures MonthlyKeyFromFirst(now, off, k) == AddMonths(MonthKeyOf(now, off), k - 5)
  {
    var c := CivilFromDays(LocalDay(now, off));
    var m0 := GetMonth(now, off) - (5 - k);
    MonthKeyOfMakeDay(c.year, m0, 1);
    AddMonthsTo(c.year, GetMonth(now, off), k - 5, m0);
    assert MonthKeyOf(now, off) == YearMonth(c.year, GetMonth(now, off));
  }

  /** From the first of the month the six keys are distinct. */
  lemma MonthlyKeyFromFirstDistinct(now: int, off: int, k1: int, k2: int)
    requires k1 != k2
    ensures MonthlyKeyFromFirst(now, off, k1) != MonthlyKeyFromFirst(now, off, k2)
  {
    MonthlyKeyFromFirstConsecutive(now, off, k1);
    MonthlyKeyFromFirstConsecutive(now, off, k2);
  }

  // ------------------------------------------------------- all the series

  /** With no entries every bucket of every series is zero. */
  lemma EmptyEntriesZeroBuckets(now: int, off: int, k: int)
    ensures DailyValue([], now, k) == 0.0
    ensures WeeklyValue([], now, off, k) == 0.0
    ensures MonthlyValue([], now, off, k) == 0.0
  {
  }

  /** With non-negative amounts every bucket of every series is non-negative. */
  lemma NonNegativeDaily(entries: seq<Entry>, now: int, off: int, k: int)
    requires NonNegative(entries)
    ensures DailyValue(entries, now, k) >= 0.0
  {
    SumFilterBounds(entries, OnUtcDate(UtcDate(now) + k - 6));
  }

  lemma NonNegativeWeekly(entries: seq<Entry>, now: int, off: int, k: int)
    requires NonNegative(entries)
    ensures WeeklyValue(entries, now, off, k) >= 0.0
  {
    var endDay := WeekEndDay(now, off, k);
    SumFilterBounds(entries, InLocalDays(off, endDay - 6, endDay));
  }

  lemma NonNegativeMonthly(entries: seq<Entry>, now: int, off: int, k: int)
    requires NonNegative(entries)
    ensures MonthlyValue(entries, now, off, k) >= 0.0
  {
    var key := MonthlyKey(now, off, k);
    SumFilterBounds(entries, InMonth(off, key));
  }
}
