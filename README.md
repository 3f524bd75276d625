# Pomodoro timer core, modelled in Dafny

This project models the logic of the pomodex Pomodoro application:

- **The timer store** (`store/timer-store.ts`). It is one record of six fields: `isRunning`, `isPaused`, `timeLeft` in seconds, `mode`, `completedPomodoros` and `settings`. Only synchronous actions change it: startTimer, pauseTimer, resetTimer, tick, setMode, updateSettings and resetSettings. The `partialize` option then picks the subset written to local storage.
  - In `timer_store.dfy`, each action is a function from the old record (a `Snapshot`) to the new one.
  - The class `TimerStore.Store` holds the six fields. Each of its methods is proved to perform exactly its function's transition.
  - The lemmas state what the transitions promise:
    - the two flags are never both set;
    - the countdown stays within the current phase;
    - a started phase ticks down to its completion;
    - long breaks follow the configured cadence;
    - only the settings and the count survive a reload.
- **The timer screen helpers** (`lib/time-utils.ts`), in `time_utils.dfy`:
  - the `MM:SS` clock, proved to read back to the seconds;
  - the progress percentage at its boundaries;
  - the label and colour of each mode.
- **The statistics page helpers** (`components/stats/stats-page.tsx`), in `stats.dfy`:
  - the weekly aggregation, a method with the source's three passes (group by week, set each average, list in week order), proved to conserve the totals and to give one sorted entry per week;
  - the `Xh Ym` minute formatter, proved to read back;
  - the session mode labels;
  - the client-side session filter.

`decimal.dfy` holds the JavaScript primitives these are built from:
- integer `toString`;
- `padStart(2, '0')`;
- the `%` operator, whose remainder takes the sign of the dividend.

The store's code, which the model follows:
- sets the paused flag on `pauseTimer` even when the timer is idle;
- sets the running flag and clears the paused flag on `startTimer`, whether or not the timer already runs;
- persists only `settings` and `completedPomodoros`, and clamps nothing on restore;
- never validates settings;
- never reads `autoStartBreaks` or `autoStartPomodoros`.

## Model

| member | source | states |
|---|---|---|
| TimerStore.InitialTime | store/timer-store.ts:45-56 | definition of `getInitialTime`; properties in `InitialTimeWholeMinutes`, `InitialTimeOwnSetting` and `DefaultDurations` |
| TimerStore.Partialize | store/timer-store.ts:158-161 | definition of `partialize`; properties in `PersistRoundTrip` |
| TimerStore.Restored | store/timer-store.ts:156-162 | rehydration of the persisted subset over the initial state; properties in `PersistRoundTrip` and `RestoreMayExceedDuration` |
| TimerStore.InitialTimeWholeMinutes | store/timer-store.ts:45-56 | a phase lasts a whole number of minutes, at least one minute when the durations are positive |
| TimerStore.InitialTimeOwnSetting | store/timer-store.ts:45-56 | a phase's length depends only on its own mode's setting |
| TimerStore.DefaultDurations | store/timer-store.ts:36-43 | the defaults give 1500, 300 and 900 seconds; a fresh store shows 1500 seconds and satisfies the invariant |
| TimerStore.Store.constructor | store/timer-store.ts:61-67 | a fresh store is stopped, not paused, in pomodoro mode with count 0, default settings and 1500 seconds, and satisfies the invariant |
| TimerStore.StartFacts | store/timer-store.ts:70-72 | start raises the running flag, clears the paused flag, changes nothing else, and is idempotent |
| TimerStore.Store.StartTimer | store/timer-store.ts:70-72 | performs the start transition and keeps the invariant |
| TimerStore.PauseFacts | store/timer-store.ts:74-76 | pause sets the paused flag and clears the running flag even from idle, changes nothing else, and is idempotent |
| TimerStore.Store.PauseTimer | store/timer-store.ts:74-76 | performs the pause transition and keeps the invariant |
| TimerStore.ResetFacts | store/timer-store.ts:78-85 | for any settings, reset stops the timer, refills the current phase, keeps mode, count and settings, and is idempotent; with positive durations it establishes the invariant |
| TimerStore.Store.ResetTimer | store/timer-store.ts:78-85 | performs the reset transition; with positive durations the store is then valid |
| TimerStore.TickIdle | store/timer-store.ts:91 | a tick changes nothing unless the timer runs with time left |
| TimerStore.TickCountsDown | store/timer-store.ts:93-122 | with two or more seconds left a tick removes exactly one second and changes nothing else |
| TimerStore.TickCompletesPhase | store/timer-store.ts:95-119 | the last second stops the timer without restarting it and refills the new phase. A pomodoro adds one to the count and leads to a long break exactly when the new count is a multiple of a non-zero interval. A break leads back to a pomodoro with the count unchanged |
| TimerStore.TickIntoLongBreak | store/timer-store.ts:100-112 | the fourth pomodoro under an interval of four ends in a stopped long break with count 4 |
| TimerStore.Store.Tick | store/timer-store.ts:87-123 | the two successive updates of a finishing tick produce exactly the tick transition; a valid store with positive durations stays valid |
| TimerStore.ZeroDurationStalls | store/timer-store.ts:87-91 | a started phase of zero minutes is within the bound but never advances: every tick returns early |
| TimerStore.NegativeDurationBreaksBound | store/timer-store.ts:78-85 | with a negative duration, which the store does not reject, a reset leaves the countdown below zero, outside the bound |
| TimerStore.CountdownBeforeLastSecond | store/timer-store.ts:87-122 | before its last second a running phase only counts down, one second per tick |
| TimerStore.StartedPhaseCompletes | store/timer-store.ts:70-123 | starting a phase and ticking as many times as it has seconds completes it exactly as the finishing tick does; further ticks change nothing |
| TimerStore.CadenceLaw | store/timer-store.ts:100-112 | over k full cycles the i-th break is never a pomodoro, and it is a long one exactly when the count it follows is a multiple of a non-zero interval |
| TimerStore.CadenceOfFour | store/timer-store.ts:101-107 | from count 0 with interval 4 the breaks go short, short, short, long, then repeat |
| TimerStore.LongBreakCount | store/timer-store.ts:101-107 | from count 0, k cycles contain exactly k / interval long breaks |
| TimerStore.Store.SetMode | store/timer-store.ts:125-133 | performs the set-mode transition; with positive durations the store is then valid |
| TimerStore.SetModeFacts | store/timer-store.ts:125-133 | for any settings, switching mode stops the timer with the new phase full, keeps count and settings, and switching to the current mode is a reset; with positive durations it establishes the invariant |
| TimerStore.MergeLaws | store/timer-store.ts:137 | each field present in the patch overrides; the empty patch and a repeated patch change nothing |
| TimerStore.UpdateSettingsRescales | store/timer-store.ts:135-143 | the settings become the merge of the old ones and the patch; the countdown becomes the new full length of the current phase, even while running; flags, mode and count stay |
| TimerStore.Store.UpdateSettings | store/timer-store.ts:135-143 | performs the update transition; the store stays valid while the durations stay positive |
| TimerStore.ResetSettingsIsInitial | store/timer-store.ts:145-154 | resetting the settings from any state gives exactly the initial store, with 1500 seconds |
| TimerStore.Store.ResetSettings | store/timer-store.ts:145-154 | performs the reset-settings transition, leaving the store equal to a fresh one and valid |
| TimerStore.ActionKeepsFlagsExclusive | store/timer-store.ts:70-154 | no action leaves both flags set; all but tick and updateSettings clear the clash outright |
| TimerStore.ActionPreservesConsistent | store/timer-store.ts:70-154 | with positive durations every action that keeps them positive preserves both flags-exclusive and the bound on the countdown |
| TimerStore.RunPreservesConsistent | store/timer-store.ts:70-154 | any sequence of such actions from a consistent state ends in a consistent state |
| TimerStore.ReachableIsConsistent | store/timer-store.ts:61-154 | every state reachable from the initial store by such actions is consistent |
| TimerStore.PersistRoundTrip | store/timer-store.ts:156-162 | restoring then persisting gives back what was persisted; persisting then restoring gives back the state exactly when it was idle pomodoro at 1500 seconds; a restored store has exclusive flags |
| TimerStore.Store.Restore | store/timer-store.ts:156-162 | a rehydrated store is the initial store with the persisted settings and count, and its flags are exclusive |
| TimerStore.RestoreMayExceedDuration | store/timer-store.ts:156-162 | a restored 10-minute pomodoro setting shows 1500 seconds, outside the bound, until a reset restores it |
| Decimal.Show | lib/time-utils.ts:5 | a non-negative integer's decimal text is digits only, with no leading zero and a single character exactly below ten |
| Decimal.ShowInt | lib/time-utils.ts:5 | an integer's text is the plain digits when non-negative, a minus sign and digits otherwise |
| Decimal.ValueOfShow | lib/time-utils.ts:5 | reading back the decimal text of n gives n |
| Decimal.PadStart2 | lib/time-utils.ts:5 | padding gives at least two characters, leaves longer strings alone and adds only leading zeros |
| Decimal.ValueOfPaddedShow | lib/time-utils.ts:5 | a padded rendering keeps its value and is two characters below ten |
| Decimal.JsRem | lib/time-utils.ts:4 | the remainder lies strictly between -b and b, takes the dividend's sign, and agrees with the mathematical remainder on magnitudes |
| TimeUtils.FormatClock | lib/time-utils.ts:2-6 | definition of `formatTime`; properties in `FormatClockShape`, `FormatClockRoundTrip` and `FormatClockInjective` |
| TimeUtils.ProgressPercentage | lib/time-utils.ts:8-11 | definition of `getProgressPercentage`; properties in `ProgressBoundaries` and `ProgressRange` |
| TimeUtils.ModeDisplayName | lib/time-utils.ts:13-24 | definition of `getModeDisplayName`; properties in `ModeDisplayNameTotal` |
| TimeUtils.ModeColor | lib/time-utils.ts:26-37 | definition of `getModeColor`; properties in `ModeColorDistinct` |
| TimeUtils.SecondsField | lib/time-utils.ts:4-5 | a seconds value below sixty prints as two characters whose first is 0 to 5 |
| TimeUtils.FormatClockShape | lib/time-utils.ts:2-5 | for non-negative seconds the clock has a colon before exactly two second digits (00 to 59) and at least two minute digits, and the fields read back as the floor quotient and remainder by 60 |
| TimeUtils.FormatClockFiveCharacters | lib/time-utils.ts:2-6 | below 6000 seconds the clock is five characters with the colon at index 2 |
| TimeUtils.FormatClockExamples | lib/time-utils.ts:2-6 | 1500 prints "25:00", 0 prints "00:00", 65 prints "01:05" |
| TimeUtils.FormatClockRoundTrip | lib/time-utils.ts:2-6 | reading the clock back as minutes * 60 + seconds gives the seconds |
| TimeUtils.FormatClockInjective | lib/time-utils.ts:2-6 | distinct non-negative second counts print differently |
| TimeUtils.ProgressBoundaries | lib/time-utils.ts:8-11 | progress is 0 for an empty phase or a full one, and 100 with no time left |
| TimeUtils.ProgressRange | lib/time-utils.ts:8-11 | within a phase the percentage lies between 0 and 100 |
| TimeUtils.StoreDisplayConsistent | lib/time-utils.ts:2-11 | a consistent store's clock reads back as its time left, and its progress lies between 0 and 100 |
| TimeUtils.ModeDisplayNameTotal | lib/time-utils.ts:13-24 | the three store modes get three different labels, and any other string reads as "Pomodoro" |
| TimeUtils.ModeColorDistinct | lib/time-utils.ts:26-37 | the three store modes get three different colours, and any other string gets the pomodoro red |
| Stats.RoundDiv7 | components/stats/stats-page.tsx:169 | the result is the integer nearest to t / 7, which has no ties for an integer t |
| Stats.GroupByWeek | components/stats/stats-page.tsx:146-165 | the dictionary has one entry per week key that occurs, keyed by its own week, holding that week's sums of pomodoros and focus time |
| Stats.SetAverages | components/stats/stats-page.tsx:168-170 | every entry's average becomes its pomodoros over seven, rounded, and its totals stay |
| Stats.ListByWeek | components/stats/stats-page.tsx:172-175 | the entries come out in strictly ascending week order, each week once |
| Stats.CalculateWeeklyStats | components/stats/stats-page.tsx:145-176 | the result lists exactly the weeks that have rows, in ascending order, each with its row totals and its rounded daily average |
| Stats.WeeklyTotalsConserved | components/stats/stats-page.tsx:148-165 | the weekly pomodoro and focus-time totals add up to the daily ones |
| Stats.OneEntryPerWeek | components/stats/stats-page.tsx:152-175 | there are as many entries as distinct weeks, and each entry's week has at least one row |
| Stats.FormatDuration | components/stats/stats-page.tsx:178-182 | definition of the page's `formatTime`; properties in `FormatDurationShape`, `FormatDurationRoundTrip` and `FormatDurationInjective` |
| Stats.FormatDurationShape | components/stats/stats-page.tsx:178-182 | under an hour the text is the minutes and "m"; from an hour on it is the hours, "h ", the remainder (at most two digits) and "m" |
| Stats.FormatDurationRoundTrip | components/stats/stats-page.tsx:178-182 | reading the text back as hours * 60 + minutes gives the minutes |
| Stats.FormatDurationInjective | components/stats/stats-page.tsx:178-182 | distinct non-negative minute counts print differently |
| Stats.SessionModeName | components/stats/stats-page.tsx:204-215 | definition of the page's `getModeDisplayName`; properties in `SessionModeNameFacts` |
| Stats.Keep | components/stats/stats-page.tsx:218-234 | the filter callback, its early returns in order; properties in `FilterExact` and `FilterGuarantees` |
| Stats.FilterSessions | components/stats/stats-page.tsx:218-235 | definition of `filteredSessions`; properties in `FilterKeepsOrder`, `FilterExact`, `FilterNothing` and `FilterIdempotent` |
| Stats.SessionModeNameFacts | components/stats/stats-page.tsx:204-215 | the three stored modes get three distinct labels, any other string is shown unchanged, and labelling twice is labelling once |
| Stats.FilterKeepsOrder | components/stats/stats-page.tsx:218-235 | the filter returns a subsequence of the sessions in their original order |
| Stats.FilterExact | components/stats/stats-page.tsx:218-235 | a session is in the result exactly when it is in the input and passes every test |
| Stats.FilterGuarantees | components/stats/stats-page.tsx:224-232 | every kept session has the selected mode unless it is "all", and lies within whichever date and duration bounds are set |
| Stats.FilterNothing | components/stats/stats-page.tsx:218-235 | with no bounds and mode "all" every session is kept |
| Stats.FilterIdempotent | components/stats/stats-page.tsx:218-235 | filtering the result again with the same inputs changes nothing |

## Left out

- Remote storage, authentication, session recording and the stats queries are network I/O over a library that is not part of this model. This covers `applyFilters` and the loading of the stats page.
- The offline-session queue, sync on login, daily-stat updates, auto-start after a phase and the clamp on restore are not implemented by the store, so they are not modelled.
- The one-second `setInterval` driver and the completion notifications are timer scheduling and browser side effects. The driver appears only as the `Ticks` function, one tick per call.
- Sounds and notifications use browser APIs and floating-point audio parameters, which are not modelled.
- Dates in the stats page are not modelled: `Date` parsing, `toISOString`, time zones, the `getDay` week-start computation and the locale date formatting. A daily row carries its week key and a session its completion time, both as integers ordered like the dates they stand for.
- The settings panel's input coercion is not modelled. It maps a non-numeric or zero duration to 1 and a non-numeric or zero long-break interval to 2; negative values pass through. In the model it becomes the precondition that durations stay positive (`PositiveDurations`, `Admissible`).
- All rendering is not modelled: JSX, the SVG progress ring with `Math.PI`, routing, translations and configuration.
- TimeUtils.ProgressPercentage: computed on exact reals rather than in double precision. Only its boundary values and its range are claimed, and those agree with the double result.
- TimeUtils.FormatClockShape: stated for non-negative seconds only. Negative input, which a consistent store never shows, is computed with JavaScript's signed remainder, but no lemma describes its text.
- Stats.FormatDurationShape: stated for non-negative minutes only, for the same reason.
- Stats.FilterGuarantees: the date bounds compare integers standing for timestamps. An empty or unparsable bound is `None`, because every comparison with NaN or an invalid date is false in JavaScript.
- TimerStore.Store.Tick: the invariant is claimed only while the durations are positive (any interval). The store itself accepts negative durations, and then the bound can fail (`NegativeDurationBreaksBound`). A zero duration keeps the bound, but a started phase stays at 00:00 because `tick` does nothing at 0 (`ZeroDurationStalls`).
- TimerStore.Store.Restore: the bound on the countdown is not claimed after a restore, because it can fail there (`RestoreMayExceedDuration`).
- TimerStore.LongBreakCount: stated for an interval of at least 1. `CadenceLaw` covers every interval, including 0, for which JavaScript's `% 0` is NaN and no break is ever long.
- Decimal.Show: integers are unbounded. JavaScript numbers are doubles: an integer is exact only up to 2^53, and `toString` switches to exponent notation from 1e21. `Show`, `ShowInt`, `FormatClock` and `FormatDuration` therefore agree with the source only below those bounds. The store does not bound the settings, so larger durations are possible in the source but are not modelled.
