/**
  The display helpers of the timer screen: the MM:SS clock, the progress
  percentage, and the label and colour of each mode. Modes arrive as strings;
  `ModeKey` gives the string the store uses for each of its modes.
*/
module TimeUtils {
  import opened Wrappers
  import opened Decimal
  import TimerStore

  /** `formatTime(seconds)`: floored minutes and the remainder, each padded to two places. */
  function FormatClock(seconds: int): string {
    PadStart2(ShowInt(seconds / 60)) + ":" + PadStart2(ShowInt(JsRem(seconds, 60)))
  }

  /** Reads a clock back: the digits before the last colon are minutes, the two after it seconds. */
  function ParseClock(r: string): Option<int> {
    if |r| >= 3 && r[|r| - 3] == ':' && AllDigits(r[..|r| - 3]) && AllDigits(r[|r| - 2..]) then
      Some(Value(r[..|r| - 3]) * 60 + Value(r[|r| - 2..]))
    else
      None
  }

  /** Where the colon and the two fields sit in `mm:ss`. */
  lemma ClockLayout(mm: string, ss: string, r: string)
    requires |ss| == 2 && r == mm + ":" + ss
    ensures |r| == |mm| + 3 && r[|r| - 3] == ':'
    ensures r[..|r| - 3] == mm && r[|r| - 2..] == ss
  {
  }

  /** A seconds field below sixty is two characters whose first is a digit from 0 to 5. */
  lemma SecondsField(sec: nat)
    requires sec < 60
    ensures |PadStart2(Show(sec))| == 2 && '0' <= PadStart2(Show(sec))[0] <= '5'
  {
    ShowLength(sec);
    if sec >= 10 {
      ShowBelowHundred(sec);
    }
  }

  /**
    For a non-negative count of seconds the clock is at least five characters,
    the colon stands before the last two, the minutes field has at least two
    digits and the seconds field is exactly two digits from 00 to 59.
  */
  lemma FormatClockShape(seconds: int)
    requires seconds >= 0
    ensures var r := FormatClock(seconds);
      && |r| >= 5
      && r[|r| - 3] == ':'
      && AllDigits(r[..|r| - 3]) && |r[..|r| - 3]| >= 2
      && AllDigits(r[|r| - 2..]) && '0' <= r[|r| - 2] <= '5'
      && Value(r[..|r| - 3]) == seconds / 60
      && Value(r[|r| - 2..]) == seconds % 60
  {
    var m, sec := seconds / 60, seconds % 60;
    var mm, ss := PadStart2(Show(m)), PadStart2(Show(sec));
    ValueOfPaddedShow(m);
    ValueOfPaddedShow(sec);
    SecondsField(sec);
    ClockLayout(mm, ss, FormatClock(seconds));
  }

  /** Below one hundred minutes the clock is exactly `MM:SS`. */
  lemma FormatClockFiveCharacters(seconds: int)
    requires 0 <= seconds < 6000
    ensures |FormatClock(seconds)| == 5 && FormatClock(seconds)[2] == ':'
  {
    ShowLength(seconds / 60);
    ShowLength(seconds % 60);
    FormatClockShape(seconds);
  }

  /** A full default pomodoro and an empty clock. */
  lemma FormatClockExamples()
    ensures FormatClock(1500) == "25:00"
    ensures FormatClock(0) == "00:00"
    ensures FormatClock(65) == "01:05"
  {
    assert JsRem(1500, 60) == 0 && JsRem(0, 60) == 0 && JsRem(65, 60) == 5;
    assert ShowInt(25) == Show(25) == Show(2) + [DigitChar(5)] == "25";
    assert ShowInt(0) == "0" && ShowInt(1) == "1" && ShowInt(5) == "5";
    assert PadStart2("25") == "25" && PadStart2("0") == "00";
    assert PadStart2("1") == "01" && PadStart2("5") == "05";
  }

  /** A string with a colon before two digits, and digits before it, is read field by field. */
  lemma ParseClockFields(r: string)
    requires |r| >= 3 && r[|r| - 3] == ':' && AllDigits(r[..|r| - 3]) && AllDigits(r[|r| - 2..])
    ensures ParseClock(r) == Some(Value(r[..|r| - 3]) * 60 + Value(r[|r| - 2..]))
  {
  }

  /** Reading the clock back gives the seconds: minutes * 60 + seconds. */
  lemma FormatClockRoundTrip(seconds: int)
    requires seconds >= 0
    ensures ParseClock(FormatClock(seconds)) == Some(seconds)
  {
    FormatClockShape(seconds);
    ParseClockFields(FormatClock(seconds));
  }

  /** Distinct non-negative second counts never show the same clock. */
  lemma FormatClockInjective(a: int, b: int)
    requires a >= 0 && b >= 0
    requires FormatClock(a) == FormatClock(b)
    ensures a == b
  {
    FormatClockRoundTrip(a);
    FormatClockRoundTrip(b);
  }

  /**
    `getProgressPercentage`. JavaScript computes it in double precision; the
    model computes it exactly, which agrees with the double result at the
    boundaries stated below.
  */
  function ProgressPercentage(timeLeft: int, totalTime: int): real {
    if totalTime == 0 then 0.0
    else ((totalTime - timeLeft) as real / totalTime as real) * 100.0
  }

  /** No progress for an empty phase or a full one; all of it when no time is left. */
  lemma ProgressBoundaries(timeLeft: int, totalTime: int)
    ensures totalTime == 0 ==> ProgressPercentage(timeLeft, totalTime) == 0.0
    ensures timeLeft == totalTime ==> ProgressPercentage(timeLeft, totalTime) == 0.0
    ensures timeLeft == 0 && totalTime != 0 ==> ProgressPercentage(timeLeft, totalTime) == 100.0
  {
    if timeLeft == 0 && totalTime != 0 {
      var t := totalTime as real;
      assert t / t == 1.0;
    }
  }

  /** The string the store uses for each of its modes. */
  function ModeKey(m: TimerStore.Mode): string {
    match m
    case Pomodoro => "pomodoro"
    case ShortBreak => "shortBreak"
    case LongBreak => "longBreak"
  }

  /** `getModeDisplayName` of the timer screen. */
  function ModeDisplayName(mode: string): string {
    if mode == "pomodoro" then "Pomodoro"
    else if mode == "shortBreak" then "Short Break"
    else if mode == "longBreak" then "Long Break"
    else "Pomodoro"
  }

  /** `getModeColor`. */
  function ModeColor(mode: string): string {
    if mode == "pomodoro" then "text-red-500"
    else if mode == "shortBreak" then "text-green-500"
    else if mode == "longBreak" then "text-blue-500"
    else "text-red-500"
  }

  /** The store's three modes get three different labels; any other string reads as a pomodoro. */
  lemma ModeDisplayNameTotal(m1: TimerStore.Mode, m2: TimerStore.Mode, other: string)
    requires other !in {"pomodoro", "shortBreak", "longBreak"}
    ensures m1 != m2 ==> ModeDisplayName(ModeKey(m1)) != ModeDisplayName(ModeKey(m2))
    ensures ModeDisplayName(ModeKey(TimerStore.ShortBreak)) == "Short Break"
    ensures ModeDisplayName(ModeKey(TimerStore.LongBreak)) == "Long Break"
    ensures ModeDisplayName(other) == "Pomodoro" == ModeDisplayName(ModeKey(TimerStore.Pomodoro))
  {
  }

  /** The store's three modes get three different colours; any other string gets the pomodoro red. */
  lemma ModeColorDistinct(m1: TimerStore.Mode, m2: TimerStore.Mode, other: string)
    requires other !in {"pomodoro", "shortBreak", "longBreak"}
    ensures m1 != m2 ==> ModeColor(ModeKey(m1)) != ModeColor(ModeKey(m2))
    ensures ModeColor(other) == "text-red-500" == ModeColor(ModeKey(TimerStore.Pomodoro))
  {
  }

  /** Within a phase the percentage stays between 0 and 100. */
  lemma ProgressRange(timeLeft: int, totalTime: int)
    requires 0 <= timeLeft <= totalTime
    ensures 0.0 <= ProgressPercentage(timeLeft, totalTime) <= 100.0
  {
    if totalTime != 0 {
      var a, t := (totalTime - timeLeft) as real, totalTime as real;
      var f := a / t;
      assert f * t == a;
    }
  }

  /** While the store is consistent its clock reads back as the time left and its progress lies in [0, 100]. */
  lemma StoreDisplayConsistent(s: TimerStore.Snapshot)
    requires TimerStore.Consistent(s)
    ensures ParseClock(FormatClock(s.timeLeft)) == Some(s.timeLeft)
    ensures 0.0 <= ProgressPercentage(s.timeLeft, TimerStore.InitialTime(s.mode, s.settings)) <= 100.0
  {
    FormatClockRoundTrip(s.timeLeft);
    ProgressRange(s.timeLeft, TimerStore.InitialTime(s.mode, s.settings));
  }
}
