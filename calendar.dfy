/**
 * The proleptic Gregorian calendar behind `getFullYear`, `getMonth`,
 * `getDate` and `setMonth`: conversion between day numbers (days since
 * 1970-01-01) and civil dates, by the era / year-of-era decomposition
 * (400-year eras of 146097 days, years counted from 1 March).
 */
module Calendar {

  /** A civil date; `month` is 1..12 (JavaScript's `getMonth()` is `month - 1`). */
  datatype Civil = Civil(year: int, month: int, day: int)

  /** The year of the era (0..399) for a day of the era (0..146096). */
  function YearOfEra(doe: int): int
  {
    (doe - doe / 1460 + doe / 36524 - doe / 146096) / 365
  }

  /** The first day, within its era, of the March-based year `yoe`. */
  function StartOfYearOfEra(yoe: int): int
  {
    365 * yoe + yoe / 4 - yoe / 100
  }

  /** The day of the March-based year on which month `mp` starts (0 = March). */
  function MonthStart(mp: int): int
  {
    (153 * mp + 2) / 5
  }

  /** Day `doe` of the era written as century `c`, four-year cycle `q` and
      day `s` of the cycle: its year of era `yoe` and that year's first day. */
  lemma CenturyCycle(doe: int, yoe: int, c: int, q: int, s: int, t: int)
    requires 0 <= c < 4 && 0 <= q && 0 <= s < 1461 && 1461 * q + s < 36524
    requires doe == 36524 * c + 1461 * q + s
    requires t == (if s == 1460 then 3 else s / 365) && yoe == 100 * c + 4 * q + t
    ensures YearOfEra(doe) == yoe
    ensures StartOfYearOfEra(yoe) == doe - s + 365 * t
  {
    assert doe / 146096 == 0 && doe / 36524 == c;
    var k := (24 * c + q + s) / 1460;
    assert 0 <= k <= 1;
    assert doe == 1460 * (25 * c + q) + (24 * c + q + s);
    assert doe / 1460 == 25 * c + q + k;
    assert k == 1 ==> s >= 1364;
    assert doe - doe / 1460 + doe / 36524 - doe / 146096 == 365 * yoe + (s - 365 * t) - k;
    assert 0 <= (s - 365 * t) - k < 365;
    assert yoe / 4 == 25 * c + q && yoe / 100 == c;
  }

  lemma YearOfEraBounds(doe: int)
    requires 0 <= doe < 146097
    ensures 0 <= YearOfEra(doe) < 400
    ensures 0 <= doe - StartOfYearOfEra(YearOfEra(doe)) < 366
  {
    var c := doe / 36524;
    if c == 4 {
      assert doe == 146096;
      assert YearOfEra(doe) == 399;
    } else {
      // a century (36524 days) holds 24 four-year cycles of 1461 days and a shorter one
      var r := doe % 36524;
      var q, s := r / 1461, r % 1461;
      var t := if s == 1460 then 3 else s / 365;
      CenturyCycle(doe, 100 * c + 4 * q + t, c, q, s, t);
    }
  }

  /** The length of the March-based year `yoe` of an era: the last year of
      the era runs up to the era's 146097th day. */
  function YearLength(yoe: int): (n: int)
    requires 0 <= yoe < 400
    ensures 365 <= n <= 366
  {
    var c, q, t := yoe / 100, (yoe % 100) / 4, yoe % 4;
    assert yoe == 100 * c + 4 * q + t;
    (if yoe == 399 then 146097 else StartOfYearOfEra(yoe + 1)) - StartOfYearOfEra(yoe)
  }

  /** The year of era is recovered from every day of that year. */
  lemma YearOfEraInverse(yoe: int, doy: int)
    requires 0 <= yoe < 400 && 0 <= doy < YearLength(yoe)
    ensures YearOfEra(StartOfYearOfEra(yoe) + doy) == yoe
    ensures StartOfYearOfEra(yoe) + doy < 146097
  {
    var c, q, t := yoe / 100, (yoe % 100) / 4, yoe % 4;
    assert yoe == 100 * c + 4 * q + t;
    if yoe == 399 && doy == 365 {
      assert StartOfYearOfEra(yoe) + doy == 146096;
      assert YearOfEra(146096) == 399;
    } else {
      if doy == 365 {
        // a 366-day year other than the era's last is the third of a four-year cycle short of a century
        assert (yoe + 1) / 4 == 25 * c + q + (if t == 3 then 1 else 0);
        assert (yoe + 1) / 100 == c + (if 4 * q + t == 99 then 1 else 0);
        assert t == 3 && q < 24;
      }
      var s := 365 * t + doy;
      assert t == (if s == 1460 then 3 else s / 365);
      CenturyCycle(36524 * c + 1461 * q + s, yoe, c, q, s, t);
    }
  }

  /** The month of the March-based year is recovered from every one of its days. */
  lemma MonthStartInverse(mp: int, d0: int)
    requires 0 <= mp < 12 && 0 <= d0 && MonthStart(mp) + d0 < MonthStart(mp + 1)
    ensures (5 * (MonthStart(mp) + d0) + 2) / 153 == mp
  {
  }

  lemma MonthOfYear(doy: int)
    requires 0 <= doy < 366
    ensures var mp := (5 * doy + 2) / 153;
      0 <= mp < 12 && MonthStart(mp) <= doy && doy - MonthStart(mp) < 31
  {
  }

  /** The civil date of a day number. */
  function CivilFromDays(z: int): (c: Civil)
    ensures 1 <= c.month <= 12 && 1 <= c.day <= 31
  {
    CivilOfEraDay((z + 719468) / 146097, (z + 719468) % 146097)
  }

  /** The civil date of day `doe` of era `era`. */
  function CivilOfEraDay(era: int, doe: int): (c: Civil)
    requires 0 <= doe < 146097
    ensures 1 <= c.month <= 12 && 1 <= c.day <= 31
  {
    YearOfEraBounds(doe);
    var yoe := YearOfEra(doe);
    CivilOfYearDay(yoe + era * 400, doe - StartOfYearOfEra(yoe))
  }

  /** The civil date of day `doy` of the March-based year `y'`. */
  function CivilOfYearDay(y': int, doy: int): (c: Civil)
    requires 0 <= doy < 366
    ensures 1 <= c.month <= 12 && 1 <= c.day <= 31
  {
    MonthOfYear(doy);
    var mp := (5 * doy + 2) / 153;
    var m := if mp < 10 then mp + 3 else mp - 9;
    Civil(y' + (if m <= 2 then 1 else 0), m, doy - MonthStart(mp) + 1)
  }

  /** The day number of a civil date. The day of the month is not bounded:
      day `d` of a month is `d - 1` days after its first day. */
  function DaysFromCivil(y: int, m: int, d: int): int
    requires 1 <= m <= 12
  {
    var y' := if m <= 2 then y - 1 else y;
    var era := y' / 400;
    var yoe := y' % 400;
    var mp := if m > 2 then m - 3 else m + 9;
    era * 146097 + StartOfYearOfEra(yoe) + MonthStart(mp) + d - 1 - 719468
  }

  /** Day 0 is 1970-01-01, the epoch instants count from. */
  lemma EpochIsJanuaryFirst1970()
    ensures CivilFromDays(0) == Civil(1970, 1, 1)
  {
    assert DaysFromCivil(1970, 1, 1) == 0 by {
      assert StartOfYearOfEra(369) == 134774;
      assert MonthStart(10) == 306;
    }
    CivilDaysRoundTrip(1970, 1, 1);
  }

  /** Converting a day number to a civil date and back gives the day number. */
  lemma DaysCivilRoundTrip(z: int)
    ensures var c := CivilFromDays(z); DaysFromCivil(c.year, c.month, c.day) == z
  {
    var era := (z + 719468) / 146097;
    var doe := (z + 719468) % 146097;
    YearOfEraBounds(doe);
    var yoe := YearOfEra(doe);
    var doy := doe - StartOfYearOfEra(yoe);
    MonthOfYear(doy);
    var c := CivilFromDays(z);
    var y' := if c.month <= 2 then c.year - 1 else c.year;
    assert y' == yoe + era * 400;
    assert y' / 400 == era && y' % 400 == yoe;
  }

  /** ECMAScript MakeDay for a date whose month index `month0` (0-based) may
      lie outside 0..11 and whose day of month may exceed the month's length:
      the month carries into the year, and the surplus days run on into
      the following month(s). */
  function MakeDay(year: int, month0: int, date: int): int
  {
    DaysFromCivil(year + month0 / 12, month0 % 12 + 1, 1) + date - 1
  }

  /** Day `doy` of the March-based year `y'`, when it is day `d0` (0-based)
      of month `mp`. */
  lemma CivilOfYearDayMonth(y': int, doy: int, mp: int, d0: int)
    requires 0 <= mp < 12 && 0 <= d0 && doy == MonthStart(mp) + d0
    requires doy < MonthStart(mp + 1) && doy < 366
    ensures CivilOfYearDay(y', doy).day == d0 + 1
    ensures CivilOfYearDay(y', doy).month == if mp < 10 then mp + 3 else mp - 9
    ensures CivilOfYearDay(y', doy).year == y' + (if mp >= 10 then 1 else 0)
  {
    MonthStartInverse(mp, d0);
  }

  /** Day `doe` of era `era`, when it is day `doy` of year `yoe`. */
  lemma CivilOfEraDayYear(era: int, doe: int, yoe: int, doy: int, y': int)
    requires 0 <= yoe < 400 && 0 <= doy < YearLength(yoe)
    requires doe == StartOfYearOfEra(yoe) + doy && y' == yoe + era * 400
    ensures 0 <= doe < 146097
    ensures CivilOfEraDay(era, doe) == CivilOfYearDay(y', doy)
  {
    YearOfEraInverse(yoe, doy);
    assert YearOfEra(doe) == yoe;
    assert YearOfEra(doe) + era * 400 == y' && doe - StartOfYearOfEra(YearOfEra(doe)) == doy;
  }

  /** Day number `z`, when it is day `doe` of era `era`. */
  lemma CivilFromDaysEra(z: int, era: int, doe: int)
    requires 0 <= doe < 146097 && z == era * 146097 + doe - 719468
    ensures CivilFromDays(z) == CivilOfEraDay(era, doe)
  {
    assert (z + 719468) / 146097 == era && (z + 719468) % 146097 == doe;
  }

  /** `y` is a leap year of the Gregorian calendar. */
  predicate LeapYear(y: int)
  {
    y % 4 == 0 && (y % 100 != 0 || y % 400 == 0)
  }

  /** The number of days of month `m` of year `y`: 30 days hath September,
      April, June and November; February has 29 in a leap year and 28
      otherwise; all the rest have 31. */
  function DaysInMonth(y: int, m: int): (n: int)
    requires 1 <= m <= 12
    ensures 28 <= n <= 31
  {
    if m == 2 then (if LeapYear(y) then 29 else 28)
    else if m == 4 || m == 6 || m == 9 || m == 11 then 30
    else 31
  }

  /** The March-based year `yoe` of an era has 366 days when it ends with
      a 29 February: the last year of the era, or the last of a four-year
      cycle except at the end of a century. */
  lemma YearLengthLeap(yoe: int, c: int, q: int, t: int)
    requires 0 <= c < 4 && 0 <= q < 25 && 0 <= t < 4 && yoe == 100 * c + 4 * q + t
    ensures YearLength(yoe) == 366 <==> yoe == 399 || (t == 3 && 4 * q + t != 99)
  {
    if yoe != 399 {
      assert yoe / 4 == 25 * c + q && yoe / 100 == c;
      assert (yoe + 1) / 4 == 25 * c + q + (if t == 3 then 1 else 0);
      assert (yoe + 1) / 100 == c + (if 4 * q + t == 99 then 1 else 0);
    }
  }

  /** The Gregorian leap rule for the civil year `y` that ends the
      March-based year `yoe` of an era. */
  lemma LeapYearOfEra(y: int, e: int, c: int, q: int, t: int)
    requires 0 <= c < 4 && 0 <= q < 25 && 0 <= t < 4 && y == 400 * e + 100 * c + 4 * q + t + 1
    ensures LeapYear(y) <==> 100 * c + 4 * q + t == 399 || (t == 3 && 4 * q + t != 99)
  {
    var k := 100 * e + 25 * c + q;
    if t == 3 {
      assert y == 4 * (k + 1);
    } else {
      assert y == 4 * k + (t + 1);
    }
    if 4 * q + t == 99 {
      assert y == 100 * (4 * e + c + 1);
    } else {
      assert y == 100 * (4 * e + c) + (4 * q + t + 1);
    }
    if 100 * c + 4 * q + t == 399 {
      assert y == 400 * (e + 1);
    } else {
      assert y == 400 * e + (100 * c + 4 * q + t + 1);
    }
  }

  /** The month lengths agree with the March-based year of the day-number
      arithmetic: a month runs up to the next month's start, and February
      (the last month of the March-based year) to the end of that year. */
  lemma DaysInMonthOfEra(y: int, m: int)
    requires 1 <= m <= 12
    ensures var y', mp := if m <= 2 then y - 1 else y, if m > 2 then m - 3 else m + 9;
      DaysInMonth(y, m) == if mp < 11 then MonthStart(mp + 1) - MonthStart(mp) else YearLength(y' % 400) - MonthStart(11)
  {
    if m == 2 {
      var yoe := (y - 1) % 400;
      var c, q, t := yoe / 100, (yoe % 100) / 4, yoe % 4;
      assert yoe == 100 * c + 4 * q + t;
      YearLengthLeap(yoe, c, q, t);
      LeapYearOfEra(y, (y - 1) / 400, c, q, t);
    }
  }

  /** A month's first day plus its length is the next month's first day. */
  lemma MonthLengthsAddUp(y: int, m: int)
    requires 1 <= m <= 12
    ensures DaysFromCivil(y, m, 1) + DaysInMonth(y, m)
         == if m == 12 then DaysFromCivil(y + 1, 1, 1) else DaysFromCivil(y, m + 1, 1)
  {
    DaysInMonthOfEra(y, m);
    if m == 2 {
      var y' := y - 1;
      if y' % 400 == 399 {
        assert y / 400 == y' / 400 + 1 && y % 400 == 0;
      } else {
        assert y / 400 == y' / 400 && y % 400 == y' % 400 + 1;
      }
    }
  }

  /** Day `d` of month `m` is day `doy` of the March-based year, within both
      its month and its year. */
  lemma DayOfMarchYear(y: int, m: int, d: int, y': int, yoe: int, mp: int, doy: int)
    requires 1 <= m <= 12 && 1 <= d <= DaysInMonth(y, m)
    requires y' == (if m <= 2 then y - 1 else y) && yoe == y' % 400
    requires mp == (if m > 2 then m - 3 else m + 9) && doy == MonthStart(mp) + d - 1
    ensures doy < MonthStart(mp + 1) && doy < 366 && doy < YearLength(yoe)
  {
    DaysInMonthOfEra(y, m);
  }

  /** Converting a valid civil date to a day number and back gives the
      civil date. */
  lemma CivilDaysRoundTrip(y: int, m: int, d: int)
    requires 1 <= m <= 12 && 1 <= d <= DaysInMonth(y, m)
    ensures CivilFromDays(DaysFromCivil(y, m, d)) == Civil(y, m, d)
  {
    var y' := if m <= 2 then y - 1 else y;
    var era := y' / 400;
    var yoe := y' % 400;
    var mp := if m > 2 then m - 3 else m + 9;
    var doy := MonthStart(mp) + d - 1;
    DayOfMarchYear(y, m, d, y', yoe, mp, doy);
    CivilOfYearDayMonth(y', doy, mp, d - 1);
    var doe := StartOfYearOfEra(yoe) + doy;
    CivilOfEraDayYear(era, doe, yoe, doy, y');
    CivilFromDaysEra(DaysFromCivil(y, m, d), era, doe);
  }

  /** Day `d` of a month is `d - 1` days after its first. */
  lemma DaysFromCivilDay(y: int, m: int, d: int)
    requires 1 <= m <= 12
    ensures DaysFromCivil(y, m, d) == DaysFromCivil(y, m, 1) + d - 1
  {
  }

  /** For a day that exists in the month `month0` counts to (carried into
      the year), MakeDay lands on that day of that month. */
  lemma MakeDayInMonth(year: int, month0: int, date: int)
    requires 1 <= date <= DaysInMonth(year + month0 / 12, month0 % 12 + 1)
    ensures CivilFromDays(MakeDay(year, month0, date)) == Civil(year + month0 / 12, month0 % 12 + 1, date)
  {
    var y, m := year + month0 / 12, month0 % 12 + 1;
    DaysFromCivilDay(y, m, date);
    CivilDaysRoundTrip(y, m, date);
    assert MakeDay(year, month0, date) == DaysFromCivil(y, m, date);
  }

  /** Days past the end of the month `month0` counts to run on into the
      next month (month index `m`, 1-based, of year `y`, is the next one). */
  lemma MakeDayPastMonthEnd(year: int, month0: int, date: int, y: int, m: int)
    requires y == year + month0 / 12 && m == month0 % 12 + 1
    ensures MakeDay(year, month0, date) == MakeDay(y, m, date - DaysInMonth(y, m))
  {
    MonthLengthsAddUp(y, m);
    if m == 12 {
      assert m / 12 == 1 && m % 12 == 0;
    } else {
      assert m / 12 == 0 && m % 12 == m;
    }
  }

  /** For a month index within 0..11, MakeDay is the day number of the date. */
  lemma MakeDayInYear(year: int, month0: int, date: int)
    requires 0 <= month0 < 12
    ensures MakeDay(year, month0, date) == DaysFromCivil(year, month0 + 1, date)
  {
    assert month0 / 12 == 0 && month0 % 12 == month0;
    DaysFromCivilDay(year, month0 + 1, date);
  }

  /** MakeDay of a date's own year, month and day is that date. */
  lemma MakeDayOfCivil(z: int)
    ensures var c := CivilFromDays(z); MakeDay(c.year, c.month - 1, c.day) == z
  {
    var c := CivilFromDays(z);
    MakeDayInYear(c.year, c.month - 1, c.day);
    DaysCivilRoundTrip(z);
  }
}
