# HydroTrack core in Dafny

HydroTrack is a single-user, browser-only water-intake tracker. The user logs
drinks (an id, an amount in litres, a millisecond timestamp). The entries are
kept as JSON under one localStorage key. The screens are computed from them:
- the dashboard statistics (today's total, the percentage of an 8-litre goal,
  the week total and daily average, the month total);
- today's history list, newest first;
- three chart series (last 7 days, last 4 rolling weeks, last 6 months);
- the status line of the auto-logger panel.

This project models that core and proves properties of it:

| module | file | models |
|---|---|---|
| `Entries` | entries.dfy | the entry record, `Array.filter` and the `reduce` sum over amounts |
| `Clock` | clock.dfy | instants and the `Date` getters/setters the core uses: ISO (UTC) date, local day, weekday, minute of day, `setHours`, `setDate` |
| `Calendar` | calendar.dfy | the proleptic Gregorian calendar behind `getFullYear`/`getMonth`/`getDate`/`setMonth`, with both round trips, for every day number and every valid date |
| `Text` | text.dfy | integer rendering in template literals, `split` on one character, `Number` on digit strings |
| `StorageService` | storage_service.dfy | the entry store (`getEntries`, `saveEntry`, `clearAllEntries`, `deleteEntryById`), as a class whose field is localStorage |
| `AppState` | app.dfy | the application component's `entries` state, its mount effect and its three handlers |
| `Stats` | stats.dfy | the `stats` memo of the application component |
| `HistoryList` | history_list.dfy | the filter-and-sort of today's history and its empty branch |
| `Charts` | charts.dfy | the three chart builders, as loops appending buckets |
| `AutoLogger` | auto_logger.dfy | the auto-logger panel's status message and its two configuration edits |

Modelling choices:
- Instants are integer milliseconds since the epoch.
- The local time zone is a fixed offset `off` in milliseconds. Local day `d` of
  instant `ts` is `(ts + off) / 86400000`; the ISO date is `ts / 86400000`.
- Amounts are exact reals.
- The clock (`Date.now`, `new Date()`) is a parameter `now`. One instant is
  used per computation.
- The generated id (`Math.random`) and the user's answer to `window.confirm`
  are parameters.
- localStorage is a `map<string, Stored>` field of the store. `Stored`
  distinguishes the empty string, text that does not parse, and a JSON list
  of entries.

Modelling notes:
- "Today" (dashboard total, history list, daily chart) compares ISO date
  strings, so it is the UTC date. The week and month use local time.
  `Stats.TodayIsUtcWeekIsLocal` shows an entry that the two disagree on.
- The percentage is clamped at 100.
- The goal is the constant 8 litres (`DAILY_GOAL`), not a configurable value.
- The goal setting (Settings.tsx), the plant-growth counter (PlantGarden.tsx)
  and the auto-log timer are not modelled.

## Model

| member | source | states |
|---|---|---|
| Entries.Filter | App.tsx:55 | the filtered list holds only input elements that pass the predicate, and every input element that passes is in it |
| Entries.SumAppend | App.tsx:56 | the `reduce` total of a concatenation is the sum of the two totals |
| Entries.SumNonNegative | App.tsx:56 | a total of non-negative amounts is non-negative |
| Entries.SumFilterAtMost | App.tsx:55-56 | with non-negative amounts a filtered total is at most the whole total |
| Entries.SumFilterBounds | App.tsx:55-56 | a filtered total is the whole total when every entry passes, 0 when none does, and between 0 and the whole total for non-negative amounts |
| Clock.UtcDate | components/ChartsSection.tsx:15 | the ISO date of an instant is the UTC day whose 24 hours contain it |
| Clock.LocalDay | App.tsx:60-62 | the local day of an instant is the day whose 24 local hours contain it |
| Clock.WeekDay | App.tsx:61 | `getDay()` is 0..6 and is Sunday-based (day 0 of the epoch, a Thursday, is 4) |
| Clock.MinuteOfDay | components/AutoLogger.tsx:24 | `getHours() * 60 + getMinutes()` is 0..1439 and names the local minute that contains the instant |
| Clock.LocalMidnight | components/ChartsSection.tsx:52-53 | `setHours(0,0,0,0)` gives the first instant of the same local day: it is at or before the instant, less than a day earlier, and the millisecond before it is on the previous local day |
| Clock.LocalEndOfDay | components/ChartsSection.tsx:54 | `setHours(23,59,59,999)` gives the last instant of the same local day: it is at or after the instant, less than a day later, and the millisecond after it is on the next local day |
| Clock.ShiftDays | components/ChartsSection.tsx:20-21 | `setDate(getDate() + n)` keeps the local minute of the day, in every time zone |
| Clock.UtcDateShift | components/ChartsSection.tsx:20-22 | moving by `n` days with `setDate` moves the ISO date by `n` |
| Clock.LocalDayShift | components/ChartsSection.tsx:38-42 | moving by `n` days with `setDate` moves the local day by `n` |
| Clock.MidnightOrder | components/ChartsSection.tsx:52-56 | comparing normalised midnights and end-of-day instants is comparing local days |
| Calendar.CivilFromDays | components/ChartsSection.tsx:45 | the civil date of a day has month 1..12 and day 1..31 |
| Calendar.EpochIsJanuaryFirst1970 | components/ChartsSection.tsx:45 | day 0 is 1970-01-01, the epoch of `Date` |
| Calendar.DaysCivilRoundTrip | App.tsx:75-79 | day number to civil date and back gives the day number |
| Calendar.YearLength | components/ChartsSection.tsx:70 | a year of an era (counted from March) has 365 or 366 days |
| Calendar.DaysInMonth | components/ChartsSection.tsx:70 | a month of the Gregorian table has 28 to 31 days |
| Calendar.DaysInMonthOfEra | components/ChartsSection.tsx:70 | the Gregorian month-length table (leap February included) agrees with the spacing of months in the day-number arithmetic |
| Calendar.MonthLengthsAddUp | components/ChartsSection.tsx:70 | day 1 of a month plus the month's length is day 1 of the next month, December carrying into the next year |
| Calendar.CivilDaysRoundTrip | components/ChartsSection.tsx:70-71 | every valid civil date (day 1 up to the month's length) survives the trip to a day number and back |
| Calendar.MakeDayInMonth | components/ChartsSection.tsx:70-71 | `setMonth` on a day the target month has lands on that day of the target month, carried into the year |
| Calendar.MakeDayPastMonthEnd | components/ChartsSection.tsx:70 | a day past the end of the target month is the same day as the overflow date in the following month |
| Calendar.MakeDayOfCivil | components/ChartsSection.tsx:70 | `setMonth(getMonth())` keeps the date |
| Text.ShowNat | components/ChartsSection.tsx:45 | a rendered natural number is a non-empty string of digits without a leading zero |
| Text.NumberOf | components/AutoLogger.tsx:26-29 | `Number` gives a value exactly for a string of digits, and the value is not negative |
| Text.NumberOfLeadingZero | components/AutoLogger.tsx:26-29 | a leading zero does not change the value, so "07" reads as 7 |
| Text.ShowInt | components/AutoLogger.tsx:41 | a rendered non-negative integer reads back as itself and has no leading zero; a negative one is a minus sign followed by digits without a leading zero that read back as its magnitude |
| Text.NumberOfShowNat | components/AutoLogger.tsx:26-30 | `Number` applied to a rendered natural number gives the number back |
| Text.Split | components/AutoLogger.tsx:26 | `split` gives at least one piece, and no piece contains the separator |
| Text.JoinSplit | components/AutoLogger.tsx:26 | joining the pieces of `split` with the separator rebuilds the string |
| Text.SplitNoSeparator | components/AutoLogger.tsx:26-30 | a string without the separator splits into itself alone (so the minutes piece is missing) |
| Text.SplitOneSeparator | components/AutoLogger.tsx:26-30 | `a:b` splits into exactly `a` and `b` |
| StorageService.RemoveId | services/storageService.ts:28 | deletion keeps exactly the entries whose id differs |
| StorageService.RemoveIdOrder | services/storageService.ts:28 | deletion keeps the survivors in order: it works piecewise on concatenations and keeps one entry exactly when its id differs |
| StorageService.RemoveAbsentId | services/storageService.ts:26-31 | deleting an id nobody has leaves the list as it was |
| StorageService.RemoveIdIdempotent | services/storageService.ts:26-31 | deleting twice is deleting once |
| StorageService.Load | services/storageService.ts:5-13 | a slot holding a list reads as that list; a missing key, an empty string or unparsable text reads as no entries |
| StorageService.LoadReadsOneKey | services/storageService.ts:3-8 | what is read depends on the `hydrotrack_entries` key alone |
| StorageService.EntryStore.GetEntries | services/storageService.ts:5-13 | returns the stored list, or [] when the key is missing, empty or unparsable, and changes nothing |
| StorageService.EntryStore.SaveEntry | services/storageService.ts:15-20 | the new list is the old one with the entry appended; it is written under the key (other keys untouched) and returned |
| StorageService.EntryStore.ClearAllEntries | services/storageService.ts:22-24 | removes exactly the key; afterwards the store reads as empty |
| StorageService.EntryStore.DeleteEntryById | services/storageService.ts:26-31 | the new list is the old one without the id; it is written back (also when nothing changed) and returned |
| AppState.App.Mount | App.tsx:20-23 | after mounting, the state is what the store holds |
| AppState.App.HandleAddEntry | App.tsx:25-33 | the state becomes the stored list plus the new entry stamped `now`, the store holds the same list, and the two stay in sync |
| AppState.App.HandleDeleteEntry | App.tsx:35-40 | without confirmation nothing changes; with it, the state and the store lose exactly that id's entries |
| AppState.App.HandleClearData | App.tsx:42-47 | without confirmation nothing changes; with it, the state is empty and the key is removed |
| Stats.Round | App.tsx:57 | `Math.round` gives the integer within half of the value, halves rounded up |
| Stats.TodayPercentage | App.tsx:57 | the percentage is at most 100, not negative for a non-negative total, 100 exactly from 7.96 litres up, and otherwise the rounded `total / 8 * 100` |
| Stats.StartOfWeek | App.tsx:60-62 | the start of the week is a local midnight on a Sunday, at most 7 days before now, exactly `getDay()` local days back |
| Stats.DaysPassedInWeek | App.tsx:71 | the days passed are 1..7: Sunday through today inclusive |
| Stats.WeekAvg | App.tsx:71-72 | the average times the days passed is the week total; the zero-divisor guard never fires |
| Stats.MonthKeyOfDay | App.tsx:75 | the month index of the key is 0..11 |
| Stats.ComputeStats | App.tsx:50-90 | the percentage is at most 100, and with non-negative amounts every statistic is non-negative |
| Stats.TodayTotal | App.tsx:55-56 | today's total is the whole total when every entry is on now's UTC date, 0 when none is, and between 0 and the whole total for non-negative amounts |
| Stats.CurrentWeekTotal | App.tsx:64-66 | the week total is the whole total when every entry is stamped at or after the start of the week, 0 when every entry is older, and between 0 and the whole total for non-negative amounts |
| Stats.MonthTotal | App.tsx:75-81 | the month total is the whole total when every entry is in now's local month, 0 when none is, and between 0 and the whole total for non-negative amounts |
| Stats.TodayTotalSnoc | App.tsx:55-56 | an added entry raises today's total by its amount exactly when its UTC date is today's, and leaves it unchanged otherwise |
| Stats.TodayTotalAfterAdd | App.tsx:25-33 | adding an entry stamped now raises today's total by exactly its amount |
| Stats.WeekTotalAfterAdd | App.tsx:64-66 | an added entry counts toward the week exactly when stamped at or after the week's start, future entries included |
| Stats.MonthTotalAfterAdd | App.tsx:75-81 | an added entry counts toward the month exactly when its local (year, month) is now's |
| Stats.TodayIsUtcWeekIsLocal | App.tsx:52-66 | ten hours east of UTC, early on Sunday, an entry of Saturday counts toward today's total but not the week's |
| HistoryList.InsertNewest | components/HistoryList.tsx:16 | insertion lengthens the list by exactly one |
| HistoryList.InsertNewestPermutes | components/HistoryList.tsx:16 | insertion adds exactly the one entry and keeps every other (as a multiset) |
| HistoryList.InsertNewestSorted | components/HistoryList.tsx:16 | insertion into a newest-first list keeps it newest-first |
| HistoryList.SortNewestFirst | components/HistoryList.tsx:16 | the sort is a permutation and its result is newest first |
| HistoryList.InsertNewestStable | components/HistoryList.tsx:16 | among equal timestamps insertion puts the new entry first |
| HistoryList.SortNewestFirstStable | components/HistoryList.tsx:16 | the sort is stable: entries with equal timestamps keep their order |
| HistoryList.TodaysEntries | components/HistoryList.tsx:12-16 | the list holds only entries on today's UTC date, all of them, newest first, as a permutation of the filtered list |
| HistoryList.SortedFilterMembers | components/HistoryList.tsx:14-16 | sorting the filtered list keeps only entries that pass the filter, and every input entry that passes |
| HistoryList.TodaysEntriesStable | components/HistoryList.tsx:14-16 | today's entries with equal timestamps appear in insertion order |
| HistoryList.History | components/HistoryList.tsx:18-28 | the "No entries today" branch is taken exactly when no entry is on today's UTC date; otherwise the list is non-empty |
| Charts.DailyData | components/ChartsSection.tsx:17-32 | there are 7 buckets, oldest first; bucket `k` totals the UTC date `6 - k` days back and is labelled with that instant's local weekday |
| Charts.DailyLastIsToday | components/ChartsSection.tsx:19-29 | the last daily bucket is the dashboard's today total, labelled with today's weekday |
| Charts.DailyLabelsConsecutive | components/ChartsSection.tsx:20-23 | adjacent daily labels are adjacent weekdays |
| Charts.WindowTest | components/ChartsSection.tsx:52-56 | the `setHours` comparison holds exactly when the entry's local day is in the window |
| Charts.WindowSum | components/ChartsSection.tsx:47-59 | the accumulated total is the sum over the entries whose local day lies in the window, both ends included |
| Charts.Series | components/ChartsSection.tsx:35-62 | a series built by appending buckets 0..n-1 has n buckets, and bucket `k` is the `k`-th bucket built |
| Charts.SeriesSnoc | components/ChartsSection.tsx:61 | pushing the next bucket extends the series by exactly that bucket |
| Charts.WeekBounds | components/ChartsSection.tsx:38-42 | step `i` ends its window on the local day `7 * i` days before today and starts it 6 days earlier |
| Charts.WeeksBack | components/ChartsSection.tsx:38-59 | step `i` of the loop computes the label and total of bucket `3 - i` |
| Charts.WeeklyData | components/ChartsSection.tsx:34-64 | there are 4 buckets, oldest first; bucket `k` totals the 7 local days ending `7 * (3 - k)` days before today, and its label is its first day |
| Charts.WeeklyWindowsDisjoint | components/ChartsSection.tsx:37-42 | no entry falls in two weekly windows |
| Charts.FourWindows | components/ChartsSection.tsx:37-42 | four consecutive 7-day windows sum to the total over the 28 days they span |
| Charts.WeeklyCoversFourWeeks | components/ChartsSection.tsx:37-59 | the four weekly buckets sum to the total over the 28 local days ending today |
| Charts.DayMonthLabelRoundTrip | components/ChartsSection.tsx:45 | the `day/month` label splits back into the window start's day and month |
| Charts.GetMonth | components/ChartsSection.tsx:70 | `getMonth()` is 0..11 and is the month of the local key |
| Charts.SetMonth | components/ChartsSection.tsx:70 | `setMonth` moves to the day MakeDay gives for the same year and day of month, keeping the time of day |
| Charts.SetMonthKey | components/ChartsSection.tsx:70-71 | the key after `setMonth` is the month of that MakeDay day |
| Charts.MonthlyKeyOfStep | components/ChartsSection.tsx:69-71 | the key after `setMonth(getMonth() - i)` is the key of bucket `5 - i` |
| Charts.MonthsBack | components/ChartsSection.tsx:69-79 | step `i` of the loop computes the label and total of bucket `5 - i` |
| Charts.MonthlyData | components/ChartsSection.tsx:66-84 | there are 6 buckets in the order of the loop's steps; bucket `k` totals the local month reached by `setMonth(getMonth() - (5 - k))` and is labelled with it (that these months never go backwards is `Charts.MonthlyKeysOrdered`) |
| Charts.MonthlyLastIsThisMonth | components/ChartsSection.tsx:68-81 | the last monthly bucket is now's month, and its value is the dashboard's month total |
| Charts.MonthKeyOfMakeDay | components/ChartsSection.tsx:70-71 | the month of a MakeDay day on a date the month has is the month index carried into the year |
| Charts.MonthKeyOfMakeDayPastEnd | components/ChartsSection.tsx:70-71 | a date past the end of the month (29th to 31st) lands in the following month |
| Charts.MonthKeyOfMakeDayOverflow | components/ChartsSection.tsx:70-71 | for dates 1..31 the month reached is the target month when the date fits in it and the following month otherwise |
| Charts.MonthKeyOfMakeDayBounds | components/ChartsSection.tsx:70-71 | the month reached is the target month or one later |
| Charts.MonthlyKeyAtMostOneLate | components/ChartsSection.tsx:68-71 | on every day, bucket `k` is the month `5 - k` months back or the month after it |
| Charts.MonthlyKeysOrdered | components/ChartsSection.tsx:66-84 | on every day the monthly keys never go backwards: bucket `k + 1` is not earlier than bucket `k` |
| Charts.MonthlyKeysEarlyInMonth | components/ChartsSection.tsx:68-71 | on days 1..28 bucket `k` is the month `5 - k` months back |
| Charts.MonthlyKeysDistinct | components/ChartsSection.tsx:68-71 | on days 1..28 the six monthly keys are distinct |
| Charts.MonthlyKeysCanRepeat | components/ChartsSection.tsx:70-71 | on 31 March 2024 the last two monthly buckets are both March |
| Charts.MonthlyKeyFromFirstConsecutive | components/ChartsSection.tsx:66-84 | with the day pinned to 1, bucket `k` is always the month `5 - k` months back |
| Charts.MonthlyKeyFromFirstDistinct | components/ChartsSection.tsx:66-84 | with the day pinned to 1, the six keys are always distinct |
| Charts.EmptyEntriesZeroBuckets | components/ChartsSection.tsx:17-84 | with no entries every bucket of every series is 0 |
| Charts.NonNegativeDaily | components/ChartsSection.tsx:25-27 | with non-negative amounts every daily bucket is non-negative |
| Charts.NonNegativeWeekly | components/ChartsSection.tsx:47-59 | with non-negative amounts every weekly bucket is non-negative |
| Charts.NonNegativeMonthly | components/ChartsSection.tsx:74-79 | with non-negative amounts every monthly bucket is non-negative |
| AutoLogger.CeilDiv | components/AutoLogger.tsx:40 | `Math.ceil(a / b)` is the least `n` with `a <= n * b` |
| AutoLogger.ClockMinutes | components/AutoLogger.tsx:26-30 | a well-formed "HH:MM" parses to `H * 60 + M` minutes, a string without a colon is not-a-number (the minutes piece is missing), and a parsed time is not negative |
| AutoLogger.ClockSplit | components/AutoLogger.tsx:26-29 | a string without a colon is one piece, and "HH:MM" splits into its two two-digit pieces with their values |
| AutoLogger.GetStatus | components/AutoLogger.tsx:20-46 | disabled gives paused; enabled gives "starts at" exactly before the start minute, "done" exactly after the end minute, and otherwise a countdown exactly when the last dose is positive and under an hour old (with the minutes rounded up), else running |
| AutoLogger.GetStatusMessage | components/AutoLogger.tsx:21 | a disabled logger shows "Auto-logger is paused." |
| AutoLogger.Message | components/AutoLogger.tsx:21-45 | the status line is never empty, a "Starts at" line ends with the configured start time, and a countdown line carries the minutes, readable back, between its fixed prefix and suffix |
| AutoLogger.MessageInjective | components/AutoLogger.tsx:32-45 | distinct statuses show distinct messages |
| AutoLogger.WindowInclusive | components/AutoLogger.tsx:32-33 | the window includes both its start and its end minute |
| AutoLogger.InvertedWindowNeverRuns | components/AutoLogger.tsx:32-33 | with the start after the end, the logger never runs or counts down |
| AutoLogger.CountdownBounds | components/AutoLogger.tsx:36-41 | within an hour after the last dose the countdown is 1 to 60 minutes |
| AutoLogger.CountdownFromFuture | components/AutoLogger.tsx:36-41 | a last dose stamped in the future gives a countdown over 60 minutes |
| AutoLogger.HandleToggle | components/AutoLogger.tsx:12-14 | toggling flips `enabled` and keeps every other field |
| AutoLogger.ToggleTwice | components/AutoLogger.tsx:12-14 | toggling twice restores the configuration |
| AutoLogger.HandleChange | components/AutoLogger.tsx:16-18 | a change replaces exactly the named time field |

## Left out

- Rendering, layout, icons and navigation are not modelled. This covers the JSX of every component and the files Dashboard.tsx, IntakeForm.tsx, StatsCard.tsx, StatsView.tsx, Settings.tsx and PlantGarden.tsx.
- The conversational assistant (ChatBot.tsx) is not modelled: it calls a third-party service.
- The auto-log timer, the goal setting and the plant-growth counter are not modelled. Their code is not part of this model.
- Only the fields of `AutoLogConfig` that the panel reads are modelled. Its type declaration is not part of this model.
- Daylight-saving changes and the time-zone database are not modelled. The local zone is a fixed offset, so `setDate` shifts by whole days of 86400000 ms.
- `toLocaleDateString` labels are reduced to the fixed en-US short weekday and month names. `toLocaleTimeString` and `toFixed` belong to rendering.
- IEEE-754 floating point is not modelled. Amounts and the percentage arithmetic are exact reals, so rounding of sums such as 0.1 + 0.2 is not captured.
- The `Date` range limit and invalid dates (NaN timestamps) are not modelled. Instants are unbounded integers.
- Each computation reads the clock once. The source reads it again in every loop step and in `Date.now()` inside the status message, so a computation that spans midnight could mix two days.
- JSON is modelled only as far as `getEntries` sees it. Stored text that parses to something other than an entry list (for example `null` or an object) is not distinguished from a list, and the JSON encoding itself is not modelled.
- `console.error` in `getEntries` is a logging side effect and is not modelled.
- `Number` is modelled for strings of decimal digits only, with "" giving 0. Every other string is not-a-number; whitespace, signs, decimals and exponents are not modelled.
- The `id` generator `Math.random().toString(36)` is a parameter, so id uniqueness is not modelled.
- AutoLogger.HandleChange: covers the two time fields the panel's inputs edit. Assigning a string to `enabled` or `lastLogTimestamp` through `keyof AutoLogConfig` is not modelled.
- The `mounted` flag and `useMemo` caching are not modelled. Rendering nothing before mount has no effect on the state.

## Findings

| source | as written | input that shows it | evidently intended | confidence | as-written member | corrected member |
|---|---|---|---|---|---|---|
| components/ChartsSection.tsx:70 | each monthly step moves today's date back `i` months with `setMonth`, keeping the day of month, and a day past the end of the target month overflows into the next month | now = 2024-03-31 12:00 UTC at offset 0: the step for February lands on 2 March, so the last two buckets are both March and February is missing | six consecutive months ending with the current one, for example by setting the day to 1 before `setMonth` | not executed; high | Charts.MonthlyKeysCanRepeat | Charts.MonthlyKeyFromFirstConsecutive |

`Charts.MonthlyData` keeps the as-written stepping, because that is what the
chart shows. `Charts.MonthlyKeysEarlyInMonth` proves the two agree on days
1 to 28 of a month. On the other days `Charts.MonthlyKeyAtMostOneLate` bounds
the drift: each bucket is its intended month or the month after it. By
`Charts.MonthlyKeysOrdered` the buckets still never go backwards.
