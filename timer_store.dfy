/**
  The Pomodoro timer store: one record of six fields (`isRunning`, `isPaused`,
  `timeLeft` in seconds, `mode`, `completedPomodoros`, `settings`) changed only
  by the synchronous actions startTimer, pauseTimer, resetTimer, tick, setMode,
  updateSettings and resetSettings.

  Each action is specified by a function from the old record (a `Snapshot`) to
  the new one; the class `Store` at the end holds the fields and its methods
  are proved to perform exactly those transitions. The lemmas between the two
  state what the transitions promise: the flags are never both set, the
  countdown stays within the current phase's duration, a started phase ticks
  down to its completion, and long breaks follow the configured cadence.
*/
module TimerStore {
  import opened Wrappers

  datatype Mode = Pomodoro | ShortBreak | LongBreak

  /** Durations are in minutes. The store itself never validates them. */
  datatype Settings = Settings(
    pomodoro: int,
    shortBreak: int,
    longBreak: int,
    autoStartBreaks: bool,
    autoStartPomodoros: bool,
    longBreakInterval: int)

  /** A `Partial<TimerSettings>`: the fields that are present override. */
  datatype SettingsPatch = SettingsPatch(
    pomodoro: Option<int>,
    shortBreak: Option<int>,
    longBreak: Option<int>,
    autoStartBreaks: Option<bool>,
    autoStartPomodoros: Option<bool>,
    longBreakInterval: Option<int>)

  const DefaultSettings := Settings(25, 5, 15, false, false, 4)

  const NoChange := SettingsPatch(None, None, None, None, None, None)

  /** The whole store as a value. */
  datatype Snapshot = Snapshot(
    isRunning: bool,
    isPaused: bool,
    timeLeft: int,
    mode: Mode,
    completedPomodoros: nat,
    settings: Settings)

  /** The subset of the store that is written to local storage. */
  datatype Persisted = Persisted(settings: Settings, completedPomodoros: nat)

  /** Seconds at the start of a phase of the given mode. */
  function InitialTime(mode: Mode, settings: Settings): int {
    match mode
    case Pomodoro => settings.pomodoro * 60
    case ShortBreak => settings.shortBreak * 60
    case LongBreak => settings.longBreak * 60
  }

  const Initial := Snapshot(false, false, InitialTime(Pomodoro, DefaultSettings), Pomodoro, 0, DefaultSettings)

  predicate PositiveDurations(settings: Settings) {
    settings.pomodoro > 0 && settings.shortBreak > 0 && settings.longBreak > 0
  }

  /** A patch that sets no duration to zero or below. */
  predicate KeepsDurationsPositive(p: SettingsPatch) {
    && (p.pomodoro.Some? ==> p.pomodoro.value > 0)
    && (p.shortBreak.Some? ==> p.shortBreak.value > 0)
    && (p.longBreak.Some? ==> p.longBreak.value > 0)
  }

  predicate FlagsExclusive(s: Snapshot) {
    !(s.isRunning && s.isPaused)
  }

  predicate InBounds(s: Snapshot) {
    0 <= s.timeLeft <= InitialTime(s.mode, s.settings)
  }

  /** The store's invariant: never both running and paused, and the countdown within the phase. */
  predicate Consistent(s: Snapshot) {
    FlagsExclusive(s) && InBounds(s)
  }

  // ----- The transitions -----

  function AfterStart(s: Snapshot): Snapshot {
    s.(isRunning := true, isPaused := false)
  }

  function AfterPause(s: Snapshot): Snapshot {
    s.(isRunning := false, isPaused := true)
  }

  function AfterReset(s: Snapshot): Snapshot {
    s.(isRunning := false, isPaused := false, timeLeft := InitialTime(s.mode, s.settings))
  }

  /**
    Whether the `count`-th completed pomodoro earns a long break. In JavaScript
    `count % 0` is NaN, which never equals 0, so an interval of 0 never does.
    For `count >= 0` Dafny's `%` agrees with JavaScript's for every non-zero interval.
  */
  predicate LongBreakDue(count: nat, interval: int) {
    interval != 0 && count % interval == 0
  }

  function BreakAfter(count: nat, interval: int): Mode {
    if LongBreakDue(count, interval) then LongBreak else ShortBreak
  }

  /** The first update a finishing tick makes. */
  function Stopped(s: Snapshot): Snapshot {
    s.(isRunning := false, isPaused := false)
  }

  /** The second update a finishing tick makes: advance to the next phase. */
  function Advanced(s: Snapshot): Snapshot {
    if s.mode == Pomodoro then
      var count := s.completedPomodoros + 1;
      var next := BreakAfter(count, s.settings.longBreakInterval);
      s.(completedPomodoros := count, mode := next, timeLeft := InitialTime(next, s.settings))
    else
      s.(mode := Pomodoro, timeLeft := InitialTime(Pomodoro, s.settings))
  }

  function AfterTick(s: Snapshot): Snapshot {
    if !s.isRunning || s.timeLeft <= 0 then s
    else if s.timeLeft - 1 <= 0 then Advanced(Stopped(s))
    else s.(timeLeft := s.timeLeft - 1)
  }

  function AfterSetMode(s: Snapshot, mode: Mode): Snapshot {
    s.(mode := mode, timeLeft := InitialTime(mode, s.settings), isRunning := false, isPaused := false)
  }

  /** `{ ...settings, ...patch }`. */
  function Merge(settings: Settings, p: SettingsPatch): Settings {
    Settings(
      if p.pomodoro.Some? then p.pomodoro.value else settings.pomodoro,
      if p.shortBreak.Some? then p.shortBreak.value else settings.shortBreak,
      if p.longBreak.Some? then p.longBreak.value else settings.longBreak,
      if p.autoStartBreaks.Some? then p.autoStartBreaks.value else settings.autoStartBreaks,
      if p.autoStartPomodoros.Some? then p.autoStartPomodoros.value else settings.autoStartPomodoros,
      if p.longBreakInterval.Some? then p.longBreakInterval.value else settings.longBreakInterval)
  }

  function AfterUpdateSettings(s: Snapshot, p: SettingsPatch): Snapshot {
    var updated := Merge(s.settings, p);
    s.(settings := updated, timeLeft := InitialTime(s.mode, updated))
  }

  function AfterResetSettings(s: Snapshot): Snapshot {
    s.(settings := DefaultSettings, timeLeft := InitialTime(Pomodoro, DefaultSettings), mode := Pomodoro,
       isRunning := false, isPaused := false, completedPomodoros := 0)
  }

  /** The `partialize` option of the persistence middleware. */
  function Partialize(s: Snapshot): Persisted {
    Persisted(s.settings, s.completedPomodoros)
  }

  /** Rehydration: the persisted fields are merged over the initial state. */
  function Restored(p: Persisted): Snapshot {
    Initial.(settings := p.settings, completedPomodoros := p.completedPomodoros)
  }

  /** The actions the user interface and the tick driver can dispatch. */
  datatype Action =
    | Start
    | Pause
    | Reset
    | Tick
    | SetMode(mode: Mode)
    | UpdateSettings(patch: SettingsPatch)
    | ResetSettings

  function Apply(s: Snapshot, a: Action): Snapshot {
    match a
    case Start => AfterStart(s)
    case Pause => AfterPause(s)
    case Reset => AfterReset(s)
    case Tick => AfterTick(s)
    case SetMode(m) => AfterSetMode(s, m)
    case UpdateSettings(p) => AfterUpdateSettings(s, p)
    case ResetSettings => AfterResetSettings(s)
  }

  /** The state after dispatching `actions` in order. */
  function Run(s: Snapshot, actions: seq<Action>): Snapshot
    decreases |actions|
  {
    if actions == [] then s else Run(Apply(s, actions[0]), actions[1..])
  }

  /** An action that keeps every duration positive. */
  predicate Admissible(a: Action) {
    a.UpdateSettings? ==> KeepsDurationsPositive(a.patch)
  }

  /** The state after `n` ticks of the one-second driver. */
  function Ticks(s: Snapshot, n: nat): Snapshot
    decreases n
  {
    if n == 0 then s else AfterTick(Ticks(s, n - 1))
  }

  /**
    The breaks taken over `k` full cycles (a pomodoro run to completion, then
    the break it leads to run to completion), one entry per cycle.
  */
  function BreaksTaken(s: Snapshot, k: nat): seq<Mode>
    requires s.mode == Pomodoro
    decreases k
  {
    if k == 0 then []
    else
      var afterWork := Advanced(Stopped(s));
      [afterWork.mode] + BreaksTaken(Advanced(afterWork), k - 1)
  }

  function LongBreaks(modes: seq<Mode>): nat {
    if modes == [] then 0
    else LongBreaks(modes[..|modes| - 1]) + if modes[|modes| - 1] == LongBreak then 1 else 0
  }

  // ----- Durations -----

  /** A phase lasts its configured minutes: a positive whole number of minutes when the durations are positive. */
  lemma InitialTimeWholeMinutes(mode: Mode, settings: Settings)
    ensures InitialTime(mode, settings) % 60 == 0
    ensures PositiveDurations(settings) ==> InitialTime(mode, settings) >= 60
  {
  }

  /** A phase's duration depends on its own setting only. */
  lemma InitialTimeOwnSetting(mode: Mode, s1: Settings, s2: Settings)
    requires mode == Pomodoro ==> s1.pomodoro == s2.pomodoro
    requires mode == ShortBreak ==> s1.shortBreak == s2.shortBreak
    requires mode == LongBreak ==> s1.longBreak == s2.longBreak
    ensures InitialTime(mode, s1) == InitialTime(mode, s2)
  {
  }

  /** The defaults: 25, 5 and 15 minutes, and a fresh store shows 25:00. */
  lemma DefaultDurations()
    ensures InitialTime(Pomodoro, DefaultSettings) == 1500
    ensures InitialTime(ShortBreak, DefaultSettings) == 300
    ensures InitialTime(LongBreak, DefaultSettings) == 900
    ensures Initial.timeLeft == 1500 && Consistent(Initial)
  {
  }

  // ----- Start and pause -----

  /** Start only raises the running flag and clears the paused flag; doing it twice is doing it once. */
  lemma StartFacts(s: Snapshot)
    ensures AfterStart(s).isRunning && !AfterStart(s).isPaused
    ensures Stopped(AfterStart(s)) == Stopped(s)
    ensures AfterStart(AfterStart(s)) == AfterStart(s)
  {
  }

  /** Pause sets the paused flag even from idle, changes nothing else, and is idempotent. */
  lemma PauseFacts(s: Snapshot)
    ensures !AfterPause(s).isRunning && AfterPause(s).isPaused
    ensures Stopped(AfterPause(s)) == Stopped(s)
    ensures AfterPause(AfterPause(s)) == AfterPause(s)
  {
  }

  // ----- Reset, set mode -----

  /** Reset stops and refills the current phase; mode, count and settings stay. */
  lemma ResetFacts(s: Snapshot)
    ensures var r := AfterReset(s);
      && !r.isRunning && !r.isPaused && r.timeLeft == InitialTime(s.mode, s.settings)
      && r.mode == s.mode && r.completedPomodoros == s.completedPomodoros && r.settings == s.settings
      && (PositiveDurations(s.settings) ==> Consistent(r))
    ensures AfterReset(AfterReset(s)) == AfterReset(s)
  {
  }

  /** Switching mode stops the timer with the new phase full; the count and settings stay. */
  lemma SetModeFacts(s: Snapshot, m: Mode)
    ensures var r := AfterSetMode(s, m);
      && r.mode == m && r.timeLeft == InitialTime(m, s.settings) && !r.isRunning && !r.isPaused
      && r.completedPomodoros == s.completedPomodoros && r.settings == s.settings
      && (PositiveDurations(s.settings) ==> Consistent(r))
    ensures AfterSetMode(s, s.mode) == AfterReset(s)
  {
  }

  // ----- Tick -----

  /** A tick does nothing unless the timer runs with time left. */
  lemma TickIdle(s: Snapshot)
    requires !s.isRunning || s.timeLeft <= 0
    ensures AfterTick(s) == s
  {
  }

  /** With two or more seconds left a tick takes off exactly one second and nothing else. */
  lemma TickCountsDown(s: Snapshot)
    requires s.isRunning && s.timeLeft >= 2
    ensures AfterTick(s).timeLeft == s.timeLeft - 1
    ensures AfterTick(s).(timeLeft := s.timeLeft) == s
  {
  }

  /**
    The last second of a phase: the timer stops (and is not restarted), a
    pomodoro adds one to the count and leads to a long break exactly when the
    new count is a multiple of the interval, a break leads back to a pomodoro,
    and the new phase starts full.
  */
  lemma TickCompletesPhase(s: Snapshot)
    requires s.isRunning && s.timeLeft == 1
    ensures var r := AfterTick(s);
      && !r.isRunning && !r.isPaused
      && r.settings == s.settings
      && r.timeLeft == InitialTime(r.mode, s.settings)
      && (s.mode == Pomodoro ==>
            && r.completedPomodoros == s.completedPomodoros + 1
            && r.mode != Pomodoro
            && (r.mode == LongBreak <==>
                  s.settings.longBreakInterval != 0 && r.completedPomodoros % s.settings.longBreakInterval == 0))
      && (s.mode != Pomodoro ==> r.mode == Pomodoro && r.completedPomodoros == s.completedPomodoros)
  {
  }

  /** The fourth pomodoro of a four-pomodoro cadence ends in a long break. */
  lemma TickIntoLongBreak(s: Snapshot)
    requires s.isRunning && s.mode == Pomodoro && s.timeLeft == 1
    requires s.completedPomodoros == 3 && s.settings.longBreakInterval == 4
    ensures var r := AfterTick(s);
      !r.isRunning && r.mode == LongBreak && r.completedPomodoros == 4
      && r.timeLeft == InitialTime(LongBreak, s.settings)
  {
  }

  /** A phase of zero minutes, once started, stays at zero seconds: every tick returns early. */
  lemma ZeroDurationStalls(s: Snapshot)
    requires InitialTime(s.mode, s.settings) == 0
    ensures var r := AfterStart(AfterReset(s));
      r.isRunning && r.timeLeft == 0 && InBounds(r) && AfterTick(r) == r
  {
  }

  /** A negative duration, which the store accepts, puts a reset countdown below zero. */
  lemma NegativeDurationBreaksBound(s: Snapshot)
    requires InitialTime(s.mode, s.settings) < 0
    ensures AfterReset(s).timeLeft < 0 && !InBounds(AfterReset(s))
  {
  }

  /** Before its last second a running phase just counts down. */
  lemma {:induction false} CountdownBeforeLastSecond(s: Snapshot, k: nat)
    requires s.isRunning && k < s.timeLeft
    ensures Ticks(s, k) == s.(timeLeft := s.timeLeft - k)
    decreases k
  {
    if k > 0 {
      CountdownBeforeLastSecond(s, k - 1);
    }
  }

  /**
    Starting a phase with `timeLeft` seconds and letting the driver tick that
    many times completes the phase exactly as the finishing tick does, and any
    further tick changes nothing.
  */
  lemma StartedPhaseCompletes(s: Snapshot)
    requires s.timeLeft >= 1
    ensures Ticks(AfterStart(s), s.timeLeft) == Advanced(Stopped(s))
    ensures AfterTick(Ticks(AfterStart(s), s.timeLeft)) == Ticks(AfterStart(s), s.timeLeft)
  {
    var started := AfterStart(s);
    CountdownBeforeLastSecond(started, s.timeLeft - 1);
    assert Stopped(started.(timeLeft := 1)) == Stopped(s).(timeLeft := 1);
  }

  // ----- Cadence -----

  /**
    Over successive cycles the i-th break is a long one exactly when the
    cumulative count it follows is a multiple of the interval, and the count
    grows by one per cycle.
  */
  lemma {:induction false} CadenceLaw(s: Snapshot, k: nat)
    requires s.mode == Pomodoro
    ensures |BreaksTaken(s, k)| == k
    ensures forall i :: 0 <= i < k ==>
      && BreaksTaken(s, k)[i] != Pomodoro
      && (BreaksTaken(s, k)[i] == LongBreak <==>
            s.settings.longBreakInterval != 0 && (s.completedPomodoros + i + 1) % s.settings.longBreakInterval == 0)
    decreases k
  {
    if k > 0 {
      var afterWork := Advanced(Stopped(s));
      var next := Advanced(afterWork);
      CadenceLaw(next, k - 1);
      assert next.completedPomodoros == s.completedPomodoros + 1;
      assert next.settings == s.settings;
      forall i | 1 <= i < k
        ensures BreaksTaken(s, k)[i] == BreaksTaken(next, k - 1)[i - 1]
      {
      }
    }
  }

  /** From a fresh count and an interval of four: short, short, short, long, and again. */
  lemma CadenceOfFour(s: Snapshot)
    requires s.mode == Pomodoro && s.completedPomodoros == 0 && s.settings.longBreakInterval == 4
    ensures BreaksTaken(s, 8) == [ShortBreak, ShortBreak, ShortBreak, LongBreak, ShortBreak, ShortBreak, ShortBreak, LongBreak]
  {
    CadenceLaw(s, 8);
  }

  lemma {:induction false} MulAtLeast(a: nat, n: nat)
    requires a >= 1
    ensures a * n >= n
    decreases a
  {
    if a > 1 {
      MulAtLeast(a - 1, n);
      assert a * n == (a - 1) * n + n;
    }
  }

  lemma DivModUnique(x: int, n: int, q: int, r: int)
    requires n >= 1 && 0 <= r < n && x == q * n + r
    ensures x / n == q && x % n == r
  {
    var q0, r0 := x / n, x % n;
    assert x == q0 * n + r0;
    var d := q - q0;
    assert d * n == r0 - r by {
      assert q * n - q0 * n == (q - q0) * n;
    }
    if d > 0 {
      MulAtLeast(d, n);
    }
  }

  lemma DivStep(x: nat, n: nat)
    requires x >= 1 && n >= 1
    ensures x / n == (x - 1) / n + if x % n == 0 then 1 else 0
  {
    var q, r := (x - 1) / n, (x - 1) % n;
    if r + 1 == n {
      DivModUnique(x, n, q + 1, 0);
    } else {
      DivModUnique(x, n, q, r + 1);
    }
  }

  lemma {:induction false} LongBreaksOfPattern(modes: seq<Mode>, c: nat, n: nat)
    requires n >= 1
    requires forall i :: 0 <= i < |modes| ==> (modes[i] == LongBreak <==> (c + i + 1) % n == 0)
    ensures LongBreaks(modes) == (c + |modes|) / n - c / n
    decreases |modes|
  {
    if modes != [] {
      LongBreaksOfPattern(modes[..|modes| - 1], c, n);
      DivStep(c + |modes|, n);
    }
  }

  /** Starting from zero completed pomodoros, k cycles contain exactly k / interval long breaks. */
  lemma LongBreakCount(s: Snapshot, k: nat)
    requires s.mode == Pomodoro && s.completedPomodoros == 0 && s.settings.longBreakInterval >= 1
    ensures LongBreaks(BreaksTaken(s, k)) == k / s.settings.longBreakInterval
  {
    CadenceLaw(s, k);
    LongBreaksOfPattern(BreaksTaken(s, k), 0, s.settings.longBreakInterval);
  }

  // ----- Settings -----

  /** Merging takes each present field from the patch; the empty patch and re-applying a patch change nothing. */
  lemma MergeLaws(settings: Settings, p: SettingsPatch)
    ensures Merge(settings, NoChange) == settings
    ensures Merge(Merge(settings, p), p) == Merge(settings, p)
    ensures p.pomodoro.Some? ==> Merge(settings, p).pomodoro == p.pomodoro.value
    ensures p.pomodoro.None? ==> Merge(settings, p).pomodoro == settings.pomodoro
    ensures p.shortBreak.Some? ==> Merge(settings, p).shortBreak == p.shortBreak.value
    ensures p.shortBreak.None? ==> Merge(settings, p).shortBreak == settings.shortBreak
    ensures p.longBreak.Some? ==> Merge(settings, p).longBreak == p.longBreak.value
    ensures p.longBreak.None? ==> Merge(settings, p).longBreak == settings.longBreak
    ensures p.autoStartBreaks.Some? ==> Merge(settings, p).autoStartBreaks == p.autoStartBreaks.value
    ensures p.autoStartBreaks.None? ==> Merge(settings, p).autoStartBreaks == settings.autoStartBreaks
    ensures p.autoStartPomodoros.Some? ==> Merge(settings, p).autoStartPomodoros == p.autoStartPomodoros.value
    ensures p.autoStartPomodoros.None? ==> Merge(settings, p).autoStartPomodoros == settings.autoStartPomodoros
    ensures p.longBreakInterval.Some? ==> Merge(settings, p).longBreakInterval == p.longBreakInterval.value
    ensures p.longBreakInterval.None? ==> Merge(settings, p).longBreakInterval == settings.longBreakInterval
  {
  }

  /**
    Updating settings rescales the countdown to the new full duration of the
    current phase, even while running, and leaves the flags, mode and count alone.
  */
  lemma UpdateSettingsRescales(s: Snapshot, p: SettingsPatch)
    ensures var r := AfterUpdateSettings(s, p);
      && r.settings == Merge(s.settings, p)
      && r.timeLeft == InitialTime(s.mode, r.settings)
      && r.isRunning == s.isRunning && r.isPaused == s.isPaused
      && r.mode == s.mode && r.completedPomodoros == s.completedPomodoros
    ensures s.mode == Pomodoro && p.pomodoro.Some? ==> AfterUpdateSettings(s, p).timeLeft == p.pomodoro.value * 60
    ensures s.mode == ShortBreak && p.shortBreak.Some? ==> AfterUpdateSettings(s, p).timeLeft == p.shortBreak.value * 60
    ensures s.mode == LongBreak && p.longBreak.Some? ==> AfterUpdateSettings(s, p).timeLeft == p.longBreak.value * 60
  {
  }

  /** Resetting the settings from any state gives exactly the initial store. */
  lemma ResetSettingsIsInitial(s: Snapshot)
    ensures AfterResetSettings(s) == Initial
    ensures AfterResetSettings(s).timeLeft == 1500
  {
  }

  // ----- Invariant -----

  /** Every action keeps the flags exclusive; all but tick and updateSettings establish it outright. */
  lemma ActionKeepsFlagsExclusive(s: Snapshot, a: Action)
    requires FlagsExclusive(s) || !(a.Tick? || a.UpdateSettings?)
    ensures FlagsExclusive(Apply(s, a))
  {
  }

  /** With positive durations, every admissible action preserves the invariant. */
  lemma ActionPreservesConsistent(s: Snapshot, a: Action)
    requires Consistent(s) && PositiveDurations(s.settings) && Admissible(a)
    ensures Consistent(Apply(s, a)) && PositiveDurations(Apply(s, a).settings)
  {
  }

  /** Any sequence of admissible actions from a consistent state ends in a consistent state. */
  lemma {:induction false} RunPreservesConsistent(s: Snapshot, actions: seq<Action>)
    requires Consistent(s) && PositiveDurations(s.settings)
    requires forall i :: 0 <= i < |actions| ==> Admissible(actions[i])
    ensures Consistent(Run(s, actions)) && PositiveDurations(Run(s, actions).settings)
    decreases |actions|
  {
    if actions != [] {
      ActionPreservesConsistent(s, actions[0]);
      RunPreservesConsistent(Apply(s, actions[0]), actions[1..]);
    }
  }

  /** Every state reachable from the initial store by admissible actions is consistent. */
  lemma ReachableIsConsistent(actions: seq<Action>)
    requires forall i :: 0 <= i < |actions| ==> Admissible(actions[i])
    ensures Consistent(Run(Initial, actions))
  {
    RunPreservesConsistent(Initial, actions);
  }

  // ----- Persistence -----

  /** Only settings and the count survive a reload; the rest comes back as in a fresh store. */
  lemma PersistRoundTrip(p: Persisted, s: Snapshot)
    ensures Partialize(Restored(p)) == p
    ensures Restored(Partialize(s)) == s <==>
      !s.isRunning && !s.isPaused && s.mode == Pomodoro && s.timeLeft == 1500
    ensures FlagsExclusive(Restored(p))
  {
  }

  /** A restored store shows 25:00 whatever its settings, so the bound can fail until a reset. */
  lemma RestoreMayExceedDuration()
    ensures var r := Restored(Persisted(DefaultSettings.(pomodoro := 10), 0));
      !InBounds(r) && Consistent(AfterReset(r))
  {
  }

  // ----- The store object -----

  class Store {
    var isRunning: bool
    var isPaused: bool
    var timeLeft: int
    var mode: Mode
    var completedPomodoros: nat
    var settings: Settings

    function State(): Snapshot
      reads this
    {
      Snapshot(isRunning, isPaused, timeLeft, mode, completedPomodoros, settings)
    }

    predicate Valid()
      reads this
    {
      Consistent(State())
    }

    /** A store with no persisted data. */
    constructor ()
      ensures State() == Initial && Valid()
    {
      isRunning, isPaused := false, false;
      timeLeft := InitialTime(Pomodoro, DefaultSettings);
      mode := Pomodoro;
      completedPomodoros := 0;
      settings := DefaultSettings;
    }

    /** A store rehydrated from persisted data. */
    constructor Restore(p: Persisted)
      ensures State() == Restored(p) && FlagsExclusive(State())
    {
      isRunning, isPaused := false, false;
      timeLeft := InitialTime(Pomodoro, DefaultSettings);
      mode := Pomodoro;
      completedPomodoros := p.completedPomodoros;
      settings := p.settings;
    }

    method StartTimer()
      modifies this
      ensures State() == AfterStart(old(State()))
      ensures old(Valid()) ==> Valid()
    {
      isRunning, isPaused := true, false;
    }

    method PauseTimer()
      modifies this
      ensures State() == AfterPause(old(State()))
      ensures old(Valid()) ==> Valid()
    {
      isRunning, isPaused := false, true;
    }

    method ResetTimer()
      modifies this
      ensures State() == AfterReset(old(State()))
      ensures PositiveDurations(settings) ==> Valid()
    {
      isRunning, isPaused := false, false;
      timeLeft := InitialTime(mode, settings);
    }

    method Tick()
      modifies this
      ensures State() == AfterTick(old(State()))
      ensures old(Valid()) && PositiveDurations(settings) ==> Valid()
    {
      if !isRunning || timeLeft <= 0 {
        return;
      }
      var newTimeLeft := timeLeft - 1;
      if newTimeLeft <= 0 {
        isRunning, isPaused := false, false;
        if mode == Pomodoro {
          var count := completedPomodoros + 1;
          var next := BreakAfter(count, settings.longBreakInterval);
          completedPomodoros, mode, timeLeft := count, next, InitialTime(next, settings);
        } else {
          mode, timeLeft := Pomodoro, InitialTime(Pomodoro, settings);
        }
      } else {
        timeLeft := newTimeLeft;
      }
    }

    method SetMode(newMode: Mode)
      modifies this
      ensures State() == AfterSetMode(old(State()), newMode)
      ensures PositiveDurations(settings) ==> Valid()
    {
      mode := newMode;
      timeLeft := InitialTime(newMode, settings);
      isRunning, isPaused := false, false;
    }

    method UpdateSettings(patch: SettingsPatch)
      modifies this
      ensures State() == AfterUpdateSettings(old(State()), patch)
      ensures old(Valid()) && PositiveDurations(settings) ==> Valid()
    {
      var updated := Merge(settings, patch);
      settings := updated;
      timeLeft := InitialTime(mode, updated);
    }

    method ResetSettings()
      modifies this
      ensures State() == AfterResetSettings(old(State())) && State() == Initial
      ensures Valid()
    {
      settings := DefaultSettings;
      timeLeft := InitialTime(Pomodoro, DefaultSettings);
      mode := Pomodoro;
      isRunning, isPaused := false, false;
      completedPomodoros := 0;
    }
  }
}
