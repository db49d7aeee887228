/**
 * The auto-logger panel: its status line, computed from the configuration
 * and the current instant, and the two configuration edits (toggle, and
 * replacing the start or end time). Both edits build a new configuration
 * and hand it to the caller; nothing is changed in place.
 */
module AutoLogger {
  import opened Text
  import opened Clock

  /** The fields of the configuration this panel reads and edits. */
  datatype AutoLogConfig = AutoLogConfig(startTime: string, endTime: string, enabled: bool, lastLogTimestamp: int)

  /** The two fields the time inputs edit. */
  datatype TimeField = StartTime | EndTime

  /** The countdown period between automatic doses, in milliseconds. */
  const OneHour: int := 3600000

  /** `Math.ceil(a / b)` for a positive divisor. */
  function CeilDiv(a: int, b: int): (n: int)
    requires b > 0
    ensures (n - 1) * b < a <= n * b
  {
    (a + b - 1) / b
  }

  /** `const [h, m] = s.split(':').map(Number); h * 60 + m`, with `None`
      for not-a-number (a piece that is not a number, or a missing minutes
      piece, which is `undefined`). */
  function ClockMinutes(s: string): (m: Option<int>)
    ensures ':' !in s ==> m == None
    ensures IsClockTime(s) ==> m == Some(HourMinuteValue(s))
    ensures m.Some? ==> m.value >= 0
  {
    ClockSplit(s);
    var parts := Split(s, ':');
    var h := NumberOf(parts[0]);
    var m := if |parts| >= 2 then NumberOf(parts[1]) else None;
    if h.Some? && m.Some? then Some(h.value * 60 + m.value) else None
  }

  /** A well-formed 24-hour "HH:MM" string. */
  predicate IsClockTime(s: string)
  {
    |s| == 5 && IsDigit(s[0]) && IsDigit(s[1]) && s[2] == ':' && IsDigit(s[3]) && IsDigit(s[4])
  }

  /** H * 60 + M for "HH:MM", read digit by digit. */
  function HourMinuteValue(s: string): int
    requires IsClockTime(s)
  {
    (DigitValue(s[0]) * 10 + DigitValue(s[1])) * 60 + DigitValue(s[3]) * 10 + DigitValue(s[4])
  }

  /** How the pieces of a time string split: a string without a colon is
      one piece, and "HH:MM" is the two two-digit pieces around its colon. */
  lemma ClockSplit(s: string)
    ensures ':' !in s ==> Split(s, ':') == [s]
    ensures IsClockTime(s) ==>
      && Split(s, ':') == [s[..2], s[3..]]
      && NumberOf(s[..2]) == Some(DigitValue(s[0]) * 10 + DigitValue(s[1]))
      && NumberOf(s[3..]) == Some(DigitValue(s[3]) * 10 + DigitValue(s[4]))
  {
    if ':' !in s {
      SplitNoSeparator(s, ':');
    }
    if IsClockTime(s) {
      ClockTimeSplit(s);
    }
  }

  lemma ClockTimeSplit(s: string)
    requires IsClockTime(s)
    ensures Split(s, ':') == [s[..2], s[3..]]
    ensures NumberOf(s[..2]) == Some(DigitValue(s[0]) * 10 + DigitValue(s[1]))
    ensures NumberOf(s[3..]) == Some(DigitValue(s[3]) * 10 + DigitValue(s[4]))
  {
    var a, b := s[..2], s[3..];
    assert s == a + [':'] + b;
    SplitOneSeparator(a, b, ':');
    TwoDigits(a);
    TwoDigits(b);
  }

  /** The value of a two-digit string. */
  lemma TwoDigits(s: string)
    requires |s| == 2 && IsDigit(s[0]) && IsDigit(s[1])
    ensures NumberOf(s) == Some(DigitValue(s[0]) * 10 + DigitValue(s[1]))
  {
    var first := s[..1];
    assert s[..|s| - 1] == first;
    assert first[..|first| - 1] == [];
    assert DigitsValue(first) == DigitValue(s[0]);
  }

  /** The five kinds of status line. */
  datatype Status = Paused | StartsAt(startTime: string) | DoneForTheDay | NextDoseIn(minutes: int) | Running

  /** `getStatusMessage` before rendering. Comparisons with not-a-number are
      false, so an unparsable start or end time never ends the window. */
  function GetStatus(config: AutoLogConfig, now: int, off: int): (st: Status)
    ensures !config.enabled ==> st == Paused
    ensures config.enabled ==> st != Paused
    ensures var start := ClockMinutes(config.startTime);
      st.StartsAt? <==> config.enabled && start.Some? && MinuteOfDay(now, off) < start.value
    ensures st.StartsAt? ==> st.startTime == config.startTime
    ensures var start, end := ClockMinutes(config.startTime), ClockMinutes(config.endTime);
      st.DoneForTheDay? <==> config.enabled && !(start.Some? && MinuteOfDay(now, off) < start.value)
                             && end.Some? && MinuteOfDay(now, off) > end.value
    ensures var diff := now - config.lastLogTimestamp;
      st.NextDoseIn? ==> config.lastLogTimestamp > 0 && diff < OneHour
                         && (st.minutes - 1) * 60000 < OneHour - diff <= st.minutes * 60000
    ensures var diff := now - config.lastLogTimestamp;
      (st.NextDoseIn? || st.Running?) ==> (st.NextDoseIn? <==> config.lastLogTimestamp > 0 && diff < OneHour)
  {
    if !config.enabled then Paused
    else
      var currentMinutes := MinuteOfDay(now, off);
      var startMinutes := ClockMinutes(config.startTime);
      var endMinutes := ClockMinutes(config.endTime);
      if startMinutes.Some? && currentMinutes < startMinutes.value then StartsAt(config.startTime)
      else if endMinutes.Some? && currentMinutes > endMinutes.value then DoneForTheDay
      else
        var diff := now - config.lastLogTimestamp;
        if config.lastLogTimestamp > 0 && diff < OneHour then NextDoseIn(CeilDiv(OneHour - diff, MsPerMinute))
        else Running
  }

  /** The status line as displayed. It is never empty, a "Starts at" line
      ends with the configured start time, and a countdown line carries the
      minutes between its fixed prefix and suffix. */
  function Message(st: Status): (msg: string)
    ensures |msg| > 0
    ensures st.StartsAt? ==> msg == "Starts at " + st.startTime && msg[10..] == st.startTime
    ensures st.NextDoseIn? ==> 20 < |msg| && msg[..15] == "Next 200ml in ~" && msg[|msg| - 5..] == " mins"
    ensures st.NextDoseIn? && st.minutes >= 0 ==> NumberOf(msg[15..|msg| - 5]) == Some(st.minutes)
  {
    match st
    case Paused => "Auto-logger is paused."
    case StartsAt(t) => "Starts at " + t
    case DoneForTheDay => "Done for the day."
    case NextDoseIn(n) =>
      var msg := "Next 200ml in ~" + ShowInt(n) + " mins";
      assert msg[15..|msg| - 5] == ShowInt(n);
      msg
    case Running => "Running..."
  }

  /** The message names the status it came from: distinct statuses (with
      positive countdowns) are displayed as distinct lines. */
  lemma MessageInjective(s1: Status, s2: Status)
    requires s1.NextDoseIn? ==> s1.minutes >= 0
    requires s2.NextDoseIn? ==> s2.minutes >= 0
    requires Message(s1) == Message(s2)
    ensures s1 == s2
  {
    var m1, m2 := Message(s1), Message(s2);
    if !(s1.StartsAt? && s2.StartsAt?) && !(s1.NextDoseIn? && s2.NextDoseIn?) {
      assert m1[0] == m2[0];
    }
  }

  /** `getStatusMessage`. */
  function GetStatusMessage(config: AutoLogConfig, now: int, off: int): (msg: string)
    ensures !config.enabled ==> msg == "Auto-logger is paused."
  {
    Message(GetStatus(config, now, off))
  }

  /** The window is inclusive at both ends: from the start minute through the
      end minute the logger is running or counting down. */
  lemma WindowInclusive(config: AutoLogConfig, now: int, off: int)
    requires config.enabled && IsClockTime(config.startTime) && IsClockTime(config.endTime)
    requires HourMinuteValue(config.startTime) <= MinuteOfDay(now, off) <= HourMinuteValue(config.endTime)
    ensures GetStatus(config, now, off).NextDoseIn? || GetStatus(config, now, off).Running?
  {
  }

  /** A start later than the end leaves no minute inside the window. */
  lemma InvertedWindowNeverRuns(config: AutoLogConfig, now: int, off: int)
    requires ClockMinutes(config.startTime).Some? && ClockMinutes(config.endTime).Some?
    requires ClockMinutes(config.startTime).value > ClockMinutes(config.endTime).value
    ensures var st := GetStatus(config, now, off); !st.Running? && !st.NextDoseIn?
  {
  }

  /** Within an hour after the last dose the countdown shows 1 to 60 minutes. */
  lemma CountdownBounds(config: AutoLogConfig, now: int, off: int)
    requires GetStatus(config, now, off).NextDoseIn?
    requires now - config.lastLogTimestamp >= 0
    ensures 1 <= GetStatus(config, now, off).minutes <= 60
  {
  }

  /** A last-dose timestamp in the future gives a countdown of more than 60 minutes. */
  lemma CountdownFromFuture(config: AutoLogConfig, now: int, off: int)
    requires GetStatus(config, now, off).NextDoseIn?
    requires now < config.lastLogTimestamp
    ensures GetStatus(config, now, off).minutes > 60
  {
  }

  /** `handleToggle`: the same configuration with `enabled` flipped. */
  function HandleToggle(config: AutoLogConfig): (r: AutoLogConfig)
    ensures r.enabled == !config.enabled
    ensures r.startTime == config.startTime && r.endTime == config.endTime
    ensures r.lastLogTimestamp == config.lastLogTimestamp
  {
    config.(enabled := !config.enabled)
  }

  /** Toggling twice restores the configuration. */
  lemma ToggleTwice(config: AutoLogConfig)
    ensures HandleToggle(HandleToggle(config)) == config
  {
  }

  /** `handleChange`: the same configuration with one time field replaced. */
  function HandleChange(config: AutoLogConfig, field: TimeField, value: string): (r: AutoLogConfig)
    ensures r.enabled == config.enabled && r.lastLogTimestamp == config.lastLogTimestamp
    ensures r.startTime == (if field == StartTime then value else config.startTime)
    ensures r.endTime == (if field == EndTime then value else config.endTime)
  {
    match field
    case StartTime => config.(startTime := value)
    case EndTime => config.(endTime := value)
  }
}
