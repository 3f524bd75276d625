/**
  The pure helpers of the statistics page: weekly aggregation of the daily
  rows, the `Xh Ym` duration formatter, the session mode labels and the
  client-side session filter.

  Dates are abstracted to integers: a daily row carries the key of the week it
  belongs to (the page derives it from the row's date), and a session carries
  its completion time as a number that orders like the timestamp.
*/
module Stats {
  import opened Wrappers
  import opened Decimal

  // ----- Weekly aggregation -----

  /** A `daily_stats` row, with its date already mapped to the key of its week. */
  datatype DailyRow = DailyRow(weekKey: int, completedPomodoros: int, totalFocusTime: int)

  datatype WeeklyStats = WeeklyStats(weekStart: int, totalPomodoros: int, totalFocusTime: int, averageDaily: int)

  /** The two quantities a week adds up. */
  datatype Measure = Pomodoros | FocusTime

  function Amount(d: DailyRow, m: Measure): int {
    match m
    case Pomodoros => d.completedPomodoros
    case FocusTime => d.totalFocusTime
  }

  function Reported(w: WeeklyStats, m: Measure): int {
    match m
    case Pomodoros => w.totalPomodoros
    case FocusTime => w.totalFocusTime
  }

  /** The sum of a measure over all rows. */
  function Total(days: seq<DailyRow>, m: Measure): int {
    if days == [] then 0 else Total(days[..|days| - 1], m) + Amount(days[|days| - 1], m)
  }

  /** The sum of a measure over the rows of one week. */
  function WeekSum(days: seq<DailyRow>, key: int, m: Measure): int {
    if days == [] then 0
    else
      var last := days[|days| - 1];
      WeekSum(days[..|days| - 1], key, m) + if last.weekKey == key then Amount(last, m) else 0
  }

  /** The distinct week keys that occur in the rows. */
  function WeekKeys(days: seq<DailyRow>): set<int> {
    if days == [] then {} else WeekKeys(days[..|days| - 1]) + {days[|days| - 1].weekKey}
  }

  /** The week keys an aggregated list reports. */
  function KeysOf(ws: seq<WeeklyStats>): set<int> {
    if ws == [] then {} else KeysOf(ws[..|ws| - 1]) + {ws[|ws| - 1].weekStart}
  }

  /** The sum of a measure over an aggregated list. */
  function ReportedSum(ws: seq<WeeklyStats>, m: Measure): int {
    if ws == [] then 0 else ReportedSum(ws[..|ws| - 1], m) + Reported(ws[|ws| - 1], m)
  }

  /** `Math.round(t / 7)`: the nearest integer, halves rounded up. */
  function RoundDiv7(t: int): (r: int)
    ensures 14 * r - 7 <= 2 * t < 14 * r + 7
  {
    (2 * t + 7) / 14
  }

  predicate SortedByWeek(ws: seq<WeeklyStats>) {
    forall i, j :: 0 <= i < j < |ws| ==> ws[i].weekStart < ws[j].weekStart
  }

  /** One week's entry: its totals over its rows and its rounded daily average. */
  predicate Summarises(days: seq<DailyRow>, w: WeeklyStats) {
    && w.totalPomodoros == WeekSum(days, w.weekStart, Pomodoros)
    && w.totalFocusTime == WeekSum(days, w.weekStart, FocusTime)
    && w.averageDaily == RoundDiv7(w.totalPomodoros)
  }

  /** What `calculateWeeklyStats` returns: one entry per week that has rows, in ascending week order. */
  predicate IsWeeklySummary(days: seq<DailyRow>, ws: seq<WeeklyStats>) {
    && SortedByWeek(ws)
    && KeysOf(ws) == WeekKeys(days)
    && forall i :: 0 <= i < |ws| ==> Summarises(days, ws[i])
  }

  lemma NonEmptyHasMember(keys: set<int>)
    requires keys != {}
    ensures exists k :: k in keys
  {
    if forall k :: k !in keys {
      assert false;
    }
  }

  lemma {:induction false} SmallestExists(keys: set<int>)
    requires keys != {}
    ensures exists k :: k in keys && forall j :: j in keys ==> k <= j
    decreases |keys|
  {
    NonEmptyHasMember(keys);
    var x :| x in keys;
    var others := keys - {x};
    assert keys == others + {x};
    if others != {} {
      SmallestExists(others);
      var m :| m in others && forall j :: j in others ==> m <= j;
      var least := if x < m then x else m;
      forall j | j in keys
        ensures least <= j
      {
        if j != x {
          assert j in others;
        }
      }
      assert least in keys;
    }
  }

  /** A week without rows sums to nothing. */
  lemma {:induction false} WeekSumAbsent(days: seq<DailyRow>, k: int, m: Measure)
    requires k !in WeekKeys(days)
    ensures WeekSum(days, k, m) == 0
    decreases |days|
  {
    if days != [] {
      WeekSumAbsent(days[..|days| - 1], k, m);
    }
  }

  /** One more row: its week joins the keys and its amounts join that week's sums. */
  lemma WeekPrefixStep(days: seq<DailyRow>, i: nat)
    requires i < |days|
    ensures WeekKeys(days[..i + 1]) == WeekKeys(days[..i]) + {days[i].weekKey}
    ensures forall k, m ::
              WeekSum(days[..i + 1], k, m) ==
              WeekSum(days[..i], k, m) + (if days[i].weekKey == k then Amount(days[i], m) else 0)
  {
    assert days[..i + 1][..i] == days[..i];
  }

  /** A dictionary from week keys to that week's totals over the rows. */
  predicate Grouped(days: seq<DailyRow>, acc: map<int, WeeklyStats>) {
    && acc.Keys == WeekKeys(days)
    && forall k :: k in acc ==>
      && acc[k].weekStart == k
      && acc[k].totalPomodoros == WeekSum(days, k, Pomodoros)
      && acc[k].totalFocusTime == WeekSum(days, k, FocusTime)
  }

  /**
    `calculateWeeklyStats`: group the rows by week into a dictionary, adding
    each row to its week's totals; then set every week's daily average; then
    list the weeks in ascending order of their start.
  */
  method CalculateWeeklyStats(days: seq<DailyRow>) returns (weeks: seq<WeeklyStats>)
    ensures IsWeeklySummary(days, weeks)
  {
    var acc := GroupByWeek(days);
    acc := SetAverages(days, acc);
    weeks := ListByWeek(days, acc);
  }

  /** The first loop: one dictionary entry per week, the rows' amounts added to it. */
  method GroupByWeek(days: seq<DailyRow>) returns (acc: map<int, WeeklyStats>)
    ensures Grouped(days, acc)
  {
    acc := map[];
    for i := 0 to |days|
      invariant Grouped(days[..i], acc)
    {
      WeekPrefixStep(days, i);
      var day := days[i];
      var key := day.weekKey;
      if key !in acc {
        WeekSumAbsent(days[..i], key, Pomodoros);
        WeekSumAbsent(days[..i], key, FocusTime);
        acc := acc[key := WeeklyStats(key, 0, 0, 0)];
      }
      var w := acc[key];
      acc := acc[key := w.(totalPomodoros := w.totalPomodoros + day.completedPomodoros,
                           totalFocusTime := w.totalFocusTime + day.totalFocusTime)];
    }
    assert days[..|days|] == days;
  }

  /** The second loop: every week's average is its pomodoros over seven, rounded. */
  method SetAverages(days: seq<DailyRow>, acc0: map<int, WeeklyStats>) returns (acc: map<int, WeeklyStats>)
    requires Grouped(days, acc0)
    ensures Grouped(days, acc)
    ensures forall k :: k in acc ==> acc[k].averageDaily == RoundDiv7(acc[k].totalPomodoros)
  {
    acc := acc0;
    var pending := acc.Keys;
    while pending != {}
      invariant pending <= acc.Keys && Grouped(days, acc)
      invariant forall k :: k in acc && k !in pending ==> acc[k].averageDaily == RoundDiv7(acc[k].totalPomodoros)
      decreases pending
    {
      NonEmptyHasMember(pending);
      var k :| k in pending;
      acc := acc[k := acc[k].(averageDaily := RoundDiv7(acc[k].totalPomodoros))];
      pending := pending - {k};
    }
  }

  /** The sort: the entries listed by ascending week key. */
  method ListByWeek(days: seq<DailyRow>, acc: map<int, WeeklyStats>) returns (weeks: seq<WeeklyStats>)
    requires Grouped(days, acc)
    requires forall k :: k in acc ==> acc[k].averageDaily == RoundDiv7(acc[k].totalPomodoros)
    ensures IsWeeklySummary(days, weeks)
  {
    weeks := [];
    var rest := acc.Keys;
    while rest != {}
      invariant rest <= acc.Keys
      invariant KeysOf(weeks) + rest == acc.Keys && KeysOf(weeks) !! rest
      invariant SortedByWeek(weeks)
      invariant forall i :: 0 <= i < |weeks| ==> weeks[i].weekStart in acc && weeks[i] == acc[weeks[i].weekStart]
      invariant forall i, k :: 0 <= i < |weeks| && k in rest ==> weeks[i].weekStart < k
      decreases rest
    {
      SmallestExists(rest);
      var k :| k in rest && forall j :: j in rest ==> k <= j;
      assert (weeks + [acc[k]])[..|weeks|] == weeks;
      weeks := weeks + [acc[k]];
      rest := rest - {k};
    }
  }

  lemma {:induction false} KeysBelow(ws: seq<WeeklyStats>, b: int)
    requires forall i :: 0 <= i < |ws| ==> ws[i].weekStart < b
    ensures b !in KeysOf(ws)
    decreases |ws|
  {
    if ws != [] {
      KeysBelow(ws[..|ws| - 1], b);
    }
  }

  /** The week sums of the given entries' keys, which the reported totals must equal. */
  function KeyedSum(days: seq<DailyRow>, ws: seq<WeeklyStats>, m: Measure): int {
    if ws == [] then 0
    else KeyedSum(days, ws[..|ws| - 1], m) + WeekSum(days, ws[|ws| - 1].weekStart, m)
  }

  lemma {:induction false} KeyedSumNoDays(ws: seq<WeeklyStats>, m: Measure)
    ensures KeyedSum([], ws, m) == 0
    decreases |ws|
  {
    if ws != [] {
      KeyedSumNoDays(ws[..|ws| - 1], m);
    }
  }

  /** One more row adds its amount once if its week is listed (the weeks are distinct), and not at all otherwise. */
  lemma {:induction false} KeyedSumAppendDay(days: seq<DailyRow>, d: DailyRow, ws: seq<WeeklyStats>, m: Measure)
    requires SortedByWeek(ws)
    ensures KeyedSum(days + [d], ws, m) == KeyedSum(days, ws, m) + if d.weekKey in KeysOf(ws) then Amount(d, m) else 0
    decreases |ws|
  {
    if ws != [] {
      var init, w := ws[..|ws| - 1], ws[|ws| - 1];
      KeyedSumAppendDay(days, d, init, m);
      KeysBelow(init, w.weekStart);
      assert (days + [d])[..|days|] == days;
    }
  }

  lemma {:induction false} KeyedSumIsTotal(days: seq<DailyRow>, ws: seq<WeeklyStats>, m: Measure)
    requires SortedByWeek(ws) && WeekKeys(days) <= KeysOf(ws)
    ensures KeyedSum(days, ws, m) == Total(days, m)
    decreases |days|
  {
    if days == [] {
      KeyedSumNoDays(ws, m);
    } else {
      var init, d := days[..|days| - 1], days[|days| - 1];
      assert days == init + [d];
      KeyedSumIsTotal(init, ws, m);
      KeyedSumAppendDay(init, d, ws, m);
    }
  }

  lemma {:induction false} ReportedIsKeyed(days: seq<DailyRow>, ws: seq<WeeklyStats>, m: Measure)
    requires forall i :: 0 <= i < |ws| ==> Reported(ws[i], m) == WeekSum(days, ws[i].weekStart, m)
    ensures ReportedSum(ws, m) == KeyedSum(days, ws, m)
    decreases |ws|
  {
    if ws != [] {
      ReportedIsKeyed(days, ws[..|ws| - 1], m);
    }
  }

  /** Aggregation neither loses nor invents pomodoros or focus minutes. */
  lemma WeeklyTotalsConserved(days: seq<DailyRow>, ws: seq<WeeklyStats>)
    requires IsWeeklySummary(days, ws)
    ensures ReportedSum(ws, Pomodoros) == Total(days, Pomodoros)
    ensures ReportedSum(ws, FocusTime) == Total(days, FocusTime)
  {
    ReportedIsKeyed(days, ws, Pomodoros);
    ReportedIsKeyed(days, ws, FocusTime);
    KeyedSumIsTotal(days, ws, Pomodoros);
    KeyedSumIsTotal(days, ws, FocusTime);
  }

  lemma {:induction false} DistinctKeysCount(ws: seq<WeeklyStats>)
    requires SortedByWeek(ws)
    ensures |KeysOf(ws)| == |ws|
    decreases |ws|
  {
    if ws != [] {
      DistinctKeysCount(ws[..|ws| - 1]);
      KeysBelow(ws[..|ws| - 1], ws[|ws| - 1].weekStart);
    }
  }

  lemma {:induction false} WeekKeysOccur(days: seq<DailyRow>, k: int)
    requires k in WeekKeys(days)
    ensures exists j :: 0 <= j < |days| && days[j].weekKey == k
    decreases |days|
  {
    if days[|days| - 1].weekKey != k {
      WeekKeysOccur(days[..|days| - 1], k);
      var j :| 0 <= j < |days| - 1 && days[..|days| - 1][j].weekKey == k;
      assert days[j].weekKey == k;
    }
  }

  lemma {:induction false} KeysOfListed(ws: seq<WeeklyStats>, i: nat)
    requires i < |ws|
    ensures ws[i].weekStart in KeysOf(ws)
    decreases |ws|
  {
    if i < |ws| - 1 {
      KeysOfListed(ws[..|ws| - 1], i);
    }
  }

  /** Exactly one entry per distinct week of the input, and every entry's week has at least one row. */
  lemma OneEntryPerWeek(days: seq<DailyRow>, ws: seq<WeeklyStats>)
    requires IsWeeklySummary(days, ws)
    ensures |ws| == |WeekKeys(days)|
    ensures forall i :: 0 <= i < |ws| ==> exists j :: 0 <= j < |days| && days[j].weekKey == ws[i].weekStart
  {
    DistinctKeysCount(ws);
    forall i | 0 <= i < |ws|
      ensures exists j :: 0 <= j < |days| && days[j].weekKey == ws[i].weekStart
    {
      KeysOfListed(ws, i);
      WeekKeysOccur(days, ws[i].weekStart);
    }
  }

  // ----- Minutes as `Xh Ym` -----

  /** The page's `formatTime(minutes)`: hours and minutes once there is a whole hour, minutes alone before. */
  function FormatDuration(minutes: int): string {
    var hours := minutes / 60;
    var mins := JsRem(minutes, 60);
    if hours > 0 then ShowInt(hours) + "h " + ShowInt(mins) + "m" else ShowInt(mins) + "m"
  }

  function FirstIndex(s: string, c: char): (i: nat)
    ensures i <= |s|
    ensures forall j :: 0 <= j < i ==> s[j] != c
    ensures i < |s| ==> s[i] == c
  {
    if s == [] || s[0] == c then 0 else 1 + FirstIndex(s[1..], c)
  }

  /** Reads a duration back: `<h>h <m>m` or `<m>m`. */
  function ParseDuration(r: string): Option<int> {
    if |r| == 0 || r[|r| - 1] != 'm' then None else ParseAmount(r[..|r| - 1])
  }

  /** What stands before the final `m`: minutes alone, or hours, `h`, a space and minutes. */
  function ParseAmount(body: string): Option<int> {
    var h := FirstIndex(body, 'h');
    if h == |body| then
      if |body| >= 1 && AllDigits(body) then Some(Value(body)) else None
    else if h + 1 < |body| && body[h + 1] == ' ' && AllDigits(body[..h]) && AllDigits(body[h + 2..]) then
      Some(Value(body[..h]) * 60 + Value(body[h + 2..]))
    else
      None
  }

  /** Under an hour: `<m>m`; otherwise `<h>h <r>m` with `r` below sixty. */
  lemma FormatDurationShape(minutes: int)
    requires minutes >= 0
    ensures minutes < 60 ==> FormatDuration(minutes) == Show(minutes) + "m"
    ensures minutes >= 60 ==>
      && |Show(minutes % 60)| <= 2
      && FormatDuration(minutes) == Show(minutes / 60) + "h " + Show(minutes % 60) + "m"
  {
    ShowLength(minutes % 60);
  }

  /** The first `h` after a run of digits is the one that ends the run. */
  lemma {:induction false} FirstIndexAfterDigits(digits: string, rest: string)
    requires AllDigits(digits) && |rest| >= 1 && rest[0] == 'h'
    ensures FirstIndex(digits + rest, 'h') == |digits|
    decreases |digits|
  {
    if digits != [] {
      assert (digits + rest)[1..] == digits[1..] + rest;
      FirstIndexAfterDigits(digits[1..], rest);
    } else {
      assert digits + rest == rest;
    }
  }

  /** The final `m` is dropped and the rest read as an amount. */
  lemma ParseStripsUnit(body: string)
    ensures ParseDuration(body + "m") == ParseAmount(body)
  {
    assert (body + "m")[..|body|] == body;
  }

  /** A bare run of digits before the `m` is read as minutes. */
  lemma ParseMinutesOnly(ms: string)
    requires AllDigits(ms) && |ms| >= 1
    ensures ParseDuration(ms + "m") == Some(Value(ms))
  {
    var r := ms + "m";
    assert r[..|r| - 1] == ms;
  }

  /** Where the `h`, the space and the two digit runs sit in `<hs>h <ms>`. */
  lemma HoursMinutesLayout(hs: string, ms: string, body: string)
    requires AllDigits(hs) && |ms| >= 1 && body == hs + "h " + ms
    ensures |hs| + 1 < |body| && FirstIndex(body, 'h') == |hs| && body[|hs| + 1] == ' '
    ensures body[..|hs|] == hs && body[|hs| + 2..] == ms
  {
    FirstIndexAfterDigits(hs, "h " + ms);
    assert body == hs + ("h " + ms);
  }

  /** `<hs>h <ms>` before the final `m` is read as `hs` hours and `ms` minutes. */
  lemma ParseHoursAndMinutes(hs: string, ms: string, body: string)
    requires AllDigits(hs) && AllDigits(ms) && |ms| >= 1 && body == hs + "h " + ms
    ensures ParseAmount(body) == Some(Value(hs) * 60 + Value(ms))
  {
    HoursMinutesLayout(hs, ms, body);
  }

  /** Reading a formatted duration back gives the minutes. */
  lemma FormatDurationRoundTrip(minutes: int)
    requires minutes >= 0
    ensures ParseDuration(FormatDuration(minutes)) == Some(minutes)
  {
    FormatDurationShape(minutes);
    if minutes < 60 {
      ParseMinutesOnly(Show(minutes));
      ValueOfShow(minutes);
    } else {
      var body := Show(minutes / 60) + "h " + Show(minutes % 60);
      ParseHoursAndMinutes(Show(minutes / 60), Show(minutes % 60), body);
      ParseStripsUnit(body);
      ValueOfShow(minutes / 60);
      ValueOfShow(minutes % 60);
    }
  }

  /** Distinct non-negative minute counts never read the same. */
  lemma FormatDurationInjective(a: int, b: int)
    requires a >= 0 && b >= 0 && FormatDuration(a) == FormatDuration(b)
    ensures a == b
  {
    FormatDurationRoundTrip(a);
    FormatDurationRoundTrip(b);
  }

  // ----- Session mode labels -----

  /** The page's `getModeDisplayName`: the stored snake-case modes get labels, anything else is shown as it is. */
  function SessionModeName(mode: string): string {
    if mode == "pomodoro" then "Pomodoro"
    else if mode == "short_break" then "Qisqa Dam"
    else if mode == "long_break" then "Uzoq Dam"
    else mode
  }

  /** Three distinct labels for the stored modes, any other string unchanged, and labelling twice is labelling once. */
  lemma SessionModeNameFacts(mode: string)
    ensures mode !in {"pomodoro", "short_break", "long_break"} ==> SessionModeName(mode) == mode
    ensures SessionModeName(SessionModeName(mode)) == SessionModeName(mode)
    ensures |{SessionModeName("pomodoro"), SessionModeName("short_break"), SessionModeName("long_break")}| == 3
  {
  }

  // ----- Session filter -----

  datatype Session = Session(mode: string, duration: int, completedAt: int)

  /**
    The filter inputs. An empty input is `None`; so is one JavaScript cannot
    parse, since every comparison with NaN or an invalid date is false and
    such a bound excludes nothing.
  */
  datatype SessionFilter = SessionFilter(
    dateFrom: Option<int>,
    dateTo: Option<int>,
    durationFrom: Option<int>,
    durationTo: Option<int>,
    selectedMode: string)

  const NoFilter := SessionFilter(None, None, None, None, "all")

  /** The predicate passed to `filter`, its early returns in order. */
  predicate Keep(f: SessionFilter, s: Session) {
    if f.dateFrom.Some? && s.completedAt < f.dateFrom.value then false
    else if f.dateTo.Some? && s.completedAt > f.dateTo.value then false
    else if f.durationFrom.Some? && s.duration < f.durationFrom.value then false
    else if f.durationTo.Some? && s.duration > f.durationTo.value then false
    else if f.selectedMode != "all" && s.mode != f.selectedMode then false
    else true
  }

  function FilterSessions(sessions: seq<Session>, f: SessionFilter): seq<Session> {
    if sessions == [] then []
    else (if Keep(f, sessions[0]) then [sessions[0]] else []) + FilterSessions(sessions[1..], f)
  }

  /** `a` is `b` with some elements dropped, the rest in their order. */
  predicate IsSubsequence(a: seq<Session>, b: seq<Session>)
    decreases |b|
  {
    if a == [] then true
    else if b == [] then false
    else if a[0] == b[0] then IsSubsequence(a[1..], b[1..])
    else IsSubsequence(a, b[1..])
  }

  /** A subsequence stays one when the longer sequence gains an element in front. */
  lemma {:induction false} SubsequenceDrop(a: seq<Session>, b: seq<Session>, x: Session)
    requires IsSubsequence(a, b)
    ensures IsSubsequence(a, [x] + b)
    decreases |b|, 1
  {
    assert ([x] + b)[1..] == b;
    if a != [] && a[0] == x {
      SubsequenceTail(a, b);
    }
  }

  /** A subsequence stays one when it loses its first element. */
  lemma {:induction false} SubsequenceTail(a: seq<Session>, b: seq<Session>)
    requires IsSubsequence(a, b) && a != []
    ensures IsSubsequence(a[1..], b)
    decreases |b|, 0
  {
    assert b == [b[0]] + b[1..];
    if a[0] != b[0] {
      SubsequenceTail(a, b[1..]);
    }
    SubsequenceDrop(a[1..], b[1..], b[0]);
  }

  /** The filter keeps a subsequence: sessions are dropped, never reordered or duplicated. */
  lemma {:induction false} FilterKeepsOrder(sessions: seq<Session>, f: SessionFilter)
    ensures IsSubsequence(FilterSessions(sessions, f), sessions)
    decreases |sessions|
  {
    if sessions != [] {
      FilterKeepsOrder(sessions[1..], f);
      var rest := FilterSessions(sessions[1..], f);
      if Keep(f, sessions[0]) {
        var r := [sessions[0]] + rest;
        assert FilterSessions(sessions, f) == r;
        assert r[0] == sessions[0] && r[1..] == rest;
      } else {
        assert FilterSessions(sessions, f) == rest;
        SubsequenceDrop(rest, sessions[1..], sessions[0]);
        assert [sessions[0]] + sessions[1..] == sessions;
      }
    }
  }

  /** A session is kept exactly when it is one of the input sessions that passes the predicate. */
  lemma {:induction false} FilterExact(sessions: seq<Session>, f: SessionFilter, s: Session)
    ensures s in FilterSessions(sessions, f) <==> s in sessions && Keep(f, s)
    decreases |sessions|
  {
    if sessions != [] {
      FilterExact(sessions[1..], f, s);
      assert sessions == [sessions[0]] + sessions[1..];
    }
  }

  /**
    Every kept session has the selected mode (unless the selection is `all`),
    lies within the date bounds and has a duration within the duration bounds
    that are set.
  */
  lemma FilterGuarantees(sessions: seq<Session>, f: SessionFilter, s: Session)
    requires s in FilterSessions(sessions, f)
    ensures s in sessions
    ensures f.selectedMode != "all" ==> s.mode == f.selectedMode
    ensures f.durationFrom.Some? ==> s.duration >= f.durationFrom.value
    ensures f.durationTo.Some? ==> s.duration <= f.durationTo.value
    ensures f.dateFrom.Some? ==> s.completedAt >= f.dateFrom.value
    ensures f.dateTo.Some? ==> s.completedAt <= f.dateTo.value
  {
    FilterExact(sessions, f, s);
  }

  /** With no bounds and mode `all`, every session is shown. */
  lemma {:induction false} FilterNothing(sessions: seq<Session>)
    ensures FilterSessions(sessions, NoFilter) == sessions
    decreases |sessions|
  {
    if sessions != [] {
      FilterNothing(sessions[1..]);
      assert sessions == [sessions[0]] + sessions[1..];
    }
  }

  /** Filtering again with the same inputs changes nothing. */
  lemma {:induction false} FilterIdempotent(sessions: seq<Session>, f: SessionFilter)
    ensures FilterSessions(FilterSessions(sessions, f), f) == FilterSessions(sessions, f)
    decreases |sessions|
  {
    if sessions != [] {
      FilterIdempotent(sessions[1..], f);
      var rest := FilterSessions(sessions[1..], f);
      if Keep(f, sessions[0]) {
        var r := [sessions[0]] + rest;
        assert FilterSessions(sessions, f) == r;
        assert r[0] == sessions[0] && r[1..] == rest;
        assert FilterSessions(r, f) == [sessions[0]] + FilterSessions(rest, f);
      } else {
        assert FilterSessions(sessions, f) == rest;
      }
    }
  }
}
