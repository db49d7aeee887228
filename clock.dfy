/**
 * Instants and the JavaScript `Date` getters the statistics use.
 *
 * An instant is an integer number of milliseconds since 1970-01-01T00:00Z.
 * The device's time zone is a fixed offset `off` (milliseconds added to UTC
 * to obtain local wall-clock time); no daylight-saving transitions.
 * `toISOString().split('T')[0]` reads the UTC date, the other getters
 * (`getDay`, `getHours`, `setHours`, `setDate`, ...) read local time.
 */
module Clock {

  const MsPerMinute: int := 60000
  const MsPerDay: int := 86400000

  /** The UTC day number of `ts`: the day whose ISO date string
      `toISOString().split('T')[0]` yields. Two instants have equal ISO
      date strings exactly when their day numbers agree. */
  function UtcDate(ts: int): (d: int)
    ensures d * 86400000 <= ts < d * 86400000 + 86400000
  {
    ts / MsPerDay
  }

  /** The local day number of `ts` (days since the local 1970-01-01). */
  function LocalDay(ts: int, off: int): (d: int)
    ensures d * 86400000 <= ts + off < d * 86400000 + 86400000
  {
    (ts + off) / MsPerDay
  }

  /** `getDay()`: 0 for Sunday up to 6 for Saturday; 1970-01-01 was a Thursday. */
  function WeekDay(ts: int, off: int): (w: int)
    ensures 0 <= w < 7
    ensures (LocalDay(ts, off) - w) % 7 == 3
  {
    (LocalDay(ts, off) + 4) % 7
  }

  /** `getHours() * 60 + getMinutes()`: the local minute of the day. */
  function MinuteOfDay(ts: int, off: int): (m: int)
    ensures 0 <= m < 1440
    ensures LocalDay(ts, off) * 86400000 + m * 60000 <= ts + off
    ensures ts + off < LocalDay(ts, off) * 86400000 + m * 60000 + 60000
  {
    ((ts + off) % MsPerDay) / MsPerMinute
  }

  /** `setHours(0, 0, 0, 0)`: the instant of local midnight starting the
      local day of `ts`. */
  function LocalMidnight(ts: int, off: int): (t: int)
    ensures LocalDay(t - 1, off) == LocalDay(ts, off) - 1
    ensures t <= ts < t + 86400000
    ensures LocalDay(t, off) == LocalDay(ts, off)
  {
    LocalDay(ts, off) * MsPerDay - off
  }

  /** `setHours(23, 59, 59, 999)`: the last millisecond of the local day of `ts`. */
  function LocalEndOfDay(ts: int, off: int): (t: int)
    ensures LocalDay(t + 1, off) == LocalDay(ts, off) + 1
    ensures ts <= t < ts + 86400000
    ensures LocalDay(t, off) == LocalDay(ts, off)
  {
    LocalDay(ts, off) * MsPerDay + MsPerDay - 1 - off
  }

  /** `setDate(getDate() + n)` keeps the local time of day, so without
      daylight-saving changes it moves the instant by whole days. */
  function ShiftDays(ts: int, n: int): (t: int)
    ensures forall off :: MinuteOfDay(t, off) == MinuteOfDay(ts, off)
  {
    KeepsTimeOfDay(ts, n);
    ts + n * MsPerDay
  }

  /** Whole days added to an instant keep its local minute of the day, in
      every time zone. */
  lemma KeepsTimeOfDay(ts: int, n: int)
    ensures forall off :: MinuteOfDay(ts + n * MsPerDay, off) == MinuteOfDay(ts, off)
  {
    forall off ensures MinuteOfDay(ts + n * MsPerDay, off) == MinuteOfDay(ts, off) {
      var d := LocalDay(ts, off);
      var r := ts + off - d * MsPerDay;
      assert (ts + off) % MsPerDay == r;
      assert ts + n * MsPerDay + off == (d + n) * MsPerDay + r;
      assert (ts + n * MsPerDay + off) % MsPerDay == r;
    }
  }

  lemma UtcDateShift(ts: int, n: int)
    ensures UtcDate(ShiftDays(ts, n)) == UtcDate(ts) + n
  {
    var d := UtcDate(ts);
    assert (d + n) * 86400000 <= ts + n * 86400000 < (d + n) * 86400000 + 86400000;
  }

  lemma LocalDayShift(ts: int, off: int, n: int)
    ensures LocalDay(ShiftDays(ts, n), off) == LocalDay(ts, off) + n
  {
    var d := LocalDay(ts, off);
    assert (d + n) * 86400000 <= ts + n * 86400000 + off < (d + n) * 86400000 + 86400000;
  }

  /** The two boundary instants are local days apart exactly as their days are:
      local midnights compare as their local days do. */
  lemma MidnightOrder(a: int, b: int, off: int)
    ensures LocalMidnight(a, off) <= LocalMidnight(b, off) <==> LocalDay(a, off) <= LocalDay(b, off)
    ensures LocalMidnight(a, off) <= LocalEndOfDay(b, off) <==> LocalDay(a, off) <= LocalDay(b, off)
  {
  }
}
