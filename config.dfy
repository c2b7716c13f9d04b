/** The configuration model of src/core/config.py: the default thresholds, the
    time-windowed schedules that override them, the emergency contacts, and the pure
    resolution of "which thresholds apply now". The wall clock is a parameter. */
module Config {
  import opened Wrappers
  import Text

  // ---------------------------------------------------------------- data

  /** `ThresholdsConfig`: a resolved threshold set. */
  datatype ThresholdSet = ThresholdSet(low: real, high: real, lowPersist: int, highPersist: int)

  /** `ScheduleConfig`; an override field of `None` inherits the default. */
  datatype Schedule = Schedule(
    name: string, enabled: bool, priority: int,
    startTime: string, endTime: string, days: seq<int>,
    low: Option<real>, high: Option<real>, lowPersist: Option<int>, highPersist: Option<int>)

  /** `EmergencyContactConfig`. */
  datatype Contact = Contact(
    name: string, phone: string, enabled: bool,
    messageOnLow: bool, lowSnooze: int, lowText: string,
    messageOnHigh: bool, highSnooze: int, highText: string)

  /** `AlertsConfig`. */
  datatype AlertsConfig = AlertsConfig(
    urgentLow: real, low: real, high: real, lowPersist: int, highPersist: int,
    lowSound: string, highSound: string, alertInterval: int, minVolume: int,
    schedules: seq<Schedule>, contacts: seq<Contact>)

  datatype DexcomConfig = DexcomConfig(username: string, password: string, region: string)

  datatype MonitoringConfig = MonitoringConfig(pollInterval: int, startupDelayMinutes: int)

  datatype AppConfig = AppConfig(dexcom: DexcomConfig, alerts: AlertsConfig, monitoring: MonitoringConfig)

  /** The local wall clock as `datetime.now()` gives it: weekday 0 = Monday, and the
      time of day in microseconds since midnight (`time` compares to the microsecond). */
  datatype WallClock = WallClock(weekday: int, microOfDay: int)

  /** The two exceptions the core raises: a malformed "HH:MM" (IndexError or
      ValueError from `int`/`time`) and a pydantic validation error. */
  datatype ConfigError = BadTime(text: string) | InvalidThresholds

  // ---------------------------------------------------------------- defaults and bounds

  const DefaultAlerts := AlertsConfig(2.8, 3.9, 15.0, 0, 0, "sounds/siren.mp3", "sounds/siren.mp3", 300, 50, [], [])

  /** Every `Field(gt=…, ge=…, le=…)` bound of the alert, schedule, contact and
      monitoring models. */
  predicate FieldBounds(a: AlertsConfig, m: MonitoringConfig) {
    && a.urgentLow > 0.0 && a.low > 0.0 && a.high > 0.0
    && a.lowPersist >= 0 && a.highPersist >= 0
    && a.alertInterval > 0 && 10 <= a.minVolume <= 100
    && (forall i :: 0 <= i < |a.schedules| ==> a.schedules[i].priority >= 1)
    && (forall i :: 0 <= i < |a.contacts| ==> a.contacts[i].lowSnooze >= 5 && a.contacts[i].highSnooze >= 5)
    && m.pollInterval > 0 && m.startupDelayMinutes >= 0
  }

  /** Whether pydantic accepts an `AlertsConfig` (with its `MonitoringConfig`), as written.
      The `high_threshold` validator is a field validator, and pydantic runs those only
      on values that were supplied: when `high_threshold` is left at its default
      (`highGiven` false) the "high > low" check never runs. */
  function AcceptsConfig(a: AlertsConfig, m: MonitoringConfig, highGiven: bool): (ok: bool)
    ensures ok ==> FieldBounds(a, m)
    ensures ok && highGiven ==> a.high > a.low
    ensures FieldBounds(a, m) && !highGiven ==> ok
    ensures ok <==> FieldBounds(a, m) && (highGiven ==> a.high > a.low)
  {
    FieldBounds(a, m) && (highGiven && a.low > 0.0 ==> a.high > a.low)
  }

  /** The check the validator's docstring asks for, applied whatever was supplied. */
  function AcceptsConfigStrict(a: AlertsConfig, m: MonitoringConfig): (ok: bool)
    ensures ok <==> FieldBounds(a, m) && a.high > a.low
  {
    FieldBounds(a, m) && a.high > a.low
  }

  /** The defaults themselves pass both checks. */
  lemma DefaultsAccepted(m: MonitoringConfig)
    requires m.pollInterval > 0 && m.startupDelayMinutes >= 0
    ensures AcceptsConfig(DefaultAlerts, m, false) && AcceptsConfig(DefaultAlerts, m, true)
    ensures AcceptsConfigStrict(DefaultAlerts, m)
  {
  }

  /** `MonitoringConfig.startup_delay`, in seconds. */
  function StartupDelay(m: MonitoringConfig): (seconds: int)
    ensures m.startupDelayMinutes >= 0 ==> seconds >= 0
    ensures seconds == 60 * m.startupDelayMinutes
  {
    m.startupDelayMinutes * 60
  }

  /** `Config.is_configured`: both credentials are non-empty strings. */
  predicate IsConfigured(c: AppConfig) {
    c.dexcom.username != "" && c.dexcom.password != ""
  }

  // ---------------------------------------------------------------- thresholds

  /** Constructing `ThresholdsConfig(low, high, low_persist, high_persist)`: the field
      bounds, and the validator, which runs only when `low` itself was valid. */
  function ValidateThresholds(t: ThresholdSet): (r: Result<ThresholdSet, ConfigError>)
    ensures r.Ok? <==> t.low > 0.0 && t.high > t.low && t.lowPersist >= 0 && t.highPersist >= 0
    ensures r.Ok? ==> r.value == t
  {
    if !(t.low > 0.0) || !(t.high > 0.0) || t.lowPersist < 0 || t.highPersist < 0 then Err(InvalidThresholds)
    else if t.high <= t.low then Err(InvalidThresholds)
    else Ok(t)
  }

  // ---------------------------------------------------------------- times of day

  const MicrosPerMinute := 60_000_000
  const MicrosPerDay := 86_400_000_000

  /** `time(hour, minute)`, in microseconds since midnight. */
  function TimeOfDay(hour: int, minute: int): int {
    (hour * 60 + minute) * MicrosPerMinute
  }

  /** `get_start_time` / `get_end_time`: split on ":", `int` each of the first two parts
      (extra parts are ignored; `int` allows surrounding blanks) and build `time(h, m)`,
      which rejects an hour outside 0..23 or a minute outside 0..59. */
  function ParseTime(s: string): (r: Result<int, ConfigError>)
    ensures r.Ok? ==> 0 <= r.value < MicrosPerDay && r.value % MicrosPerMinute == 0
    ensures |Text.Split(s, ':')| < 2 ==> r.Err?
    ensures r.Ok? ==> exists h, m :: 0 <= h < 24 && 0 <= m < 60 && r.value == TimeOfDay(h, m)
    ensures r.Err? ==> r.error == BadTime(s)
    ensures var parts := Text.Split(s, ':');
      |parts| >= 2 ==>
        var h, m := Text.ParseInt(Text.Strip(parts[0])), Text.ParseInt(Text.Strip(parts[1]));
        && (r.Ok? <==> h.Some? && m.Some? && 0 <= h.value < 24 && 0 <= m.value < 60)
        && (r.Ok? ==> r.value == TimeOfDay(h.value, m.value))
  {
    var parts := Text.Split(s, ':');
    if |parts| < 2 then Err(BadTime(s))
    else match (Text.ParseInt(Text.Strip(parts[0])), Text.ParseInt(Text.Strip(parts[1])))
      case (Some(h), Some(m)) =>
        if 0 <= h < 24 && 0 <= m < 60 then Ok(TimeOfDay(h, m)) else Err(BadTime(s))
      case _ => Err(BadTime(s))
  }

  function TwoDigits(n: nat): (r: string)
    requires n < 100
    ensures |r| == 2 && Text.AllDigits(r)
  {
    [Text.DigitChar(n / 10), Text.DigitChar(n % 10)]
  }

  lemma TwoDigitsValue(n: nat)
    requires n < 100
    ensures Text.DigitsValue(TwoDigits(n)) == n
  {
    var s := TwoDigits(n);
    var first := s[..1];
    assert first[..0] == [] && first[0] == s[0];
    assert s[0] as int - '0' as int == n / 10;
    assert s[1] as int - '0' as int == n % 10;
    assert Text.DigitsValue(first) == n / 10;
    assert s[..|s| - 1] == first;
  }

  /** Every well-formed "HH:MM" parses to its hour and minute. */
  lemma ParseTimeFormatted(h: nat, m: nat)
    requires h < 24 && m < 60
    ensures ParseTime(TwoDigits(h) + ":" + TwoDigits(m)) == Ok(TimeOfDay(h, m))
  {
    var hh, mm := TwoDigits(h), TwoDigits(m);
    SplitTime(hh, mm);
    TwoDigitsValue(h);
    TwoDigitsValue(m);
    StripDigits(hh);
    StripDigits(mm);
    ParseTimeParts(hh + ":" + mm, [hh, mm], h, m);
  }

  lemma ParseTimeParts(s: string, parts: seq<string>, h: int, m: int)
    requires Text.Split(s, ':') == parts && |parts| >= 2
    requires Text.ParseInt(Text.Strip(parts[0])) == Some(h) && Text.ParseInt(Text.Strip(parts[1])) == Some(m)
    requires 0 <= h < 24 && 0 <= m < 60
    ensures ParseTime(s) == Ok(TimeOfDay(h, m))
  {
  }

  lemma SplitTime(hh: string, mm: string)
    requires Text.AllDigits(hh) && Text.AllDigits(mm)
    ensures Text.Split(hh + ":" + mm, ':') == [hh, mm]
  {
    var s := hh + ":" + mm;
    var k := |hh|;
    assert s[..k] == hh && s[k] == ':' && s[k + 1..] == mm;
    assert ':' !in hh && ':' !in mm;
    Text.SplitAt(s, ':', k);
    Text.SplitNoSeparator(mm, ':');
  }

  lemma StripDigits(s: string)
    requires |s| > 0 && Text.AllDigits(s)
    ensures Text.Strip(s) == s
  {
    assert !Text.IsSpace(s[0]) && !Text.IsSpace(s[|s| - 1]);
  }

  /** Whether time of day `t` falls in the window from `start` to `end`, both ends
      included; a window whose end is before its start wraps past midnight. */
  predicate InWindow(start: int, end: int, t: int) {
    if start <= end then start <= t <= end else t >= start || t <= end
  }

  /** A wrapping window is exactly the complement of the open gap between its end and
      its start; a plain one is the closed interval. */
  lemma InWindowShape(start: int, end: int, t: int)
    ensures start <= end ==> (InWindow(start, end, t) <==> start <= t <= end)
    ensures start > end ==> (InWindow(start, end, t) <==> !(end < t < start))
    ensures InWindow(start, end, start) && InWindow(start, end, end)
  {
  }

  /** `ScheduleConfig.is_active_now`: disabled, or another weekday, is inactive without
      parsing the times; a malformed time is an error. */
  function IsActiveNow(s: Schedule, now: WallClock): (r: Result<bool, ConfigError>)
    ensures !s.enabled ==> r == Ok(false)
    ensures s.enabled && now.weekday !in s.days ==> r == Ok(false)
    ensures r == Ok(true) ==> s.enabled && now.weekday in s.days
    ensures s.enabled && now.weekday in s.days && ParseTime(s.startTime).Ok? && ParseTime(s.endTime).Ok? ==>
      r == Ok(InWindow(ParseTime(s.startTime).value, ParseTime(s.endTime).value, now.microOfDay))
    ensures s.enabled && now.weekday in s.days && (ParseTime(s.startTime).Err? || ParseTime(s.endTime).Err?) ==>
      r.Err?
    ensures r.Err? ==> s.enabled && now.weekday in s.days && (ParseTime(s.startTime).Err? || ParseTime(s.endTime).Err?)
  {
    if !s.enabled then Ok(false)
    else if now.weekday !in s.days then Ok(false)
    else match (ParseTime(s.startTime), ParseTime(s.endTime))
      case (Ok(start), Ok(end)) => Ok(InWindow(start, end, now.microOfDay))
      case (Err(e), _) => Err(e)
      case (_, Err(e)) => Err(e)
  }

  /** `[s for s in schedules if s.is_active_now()]`: the first error propagates. */
  function ActiveSchedules(ss: seq<Schedule>, now: WallClock): (r: Result<seq<Schedule>, ConfigError>)
    ensures r.Ok? <==> forall i :: 0 <= i < |ss| ==> IsActiveNow(ss[i], now).Ok?
    ensures r.Ok? ==> forall s :: s in r.value <==> (s in ss && IsActiveNow(s, now) == Ok(true))
  {
    if |ss| == 0 then Ok([])
    else
      var head := IsActiveNow(ss[0], now);
      var tail := ActiveSchedules(ss[1..], now);
      assert forall i :: 1 <= i < |ss| ==> ss[i] == ss[1..][i - 1];
      assert forall s :: s in ss <==> (s == ss[0] || s in ss[1..]);
      if head.Err? then Err(head.error)
      else if tail.Err? then tail
      else Ok(if head.value then [ss[0]] + tail.value else tail.value)
  }

  /** Python's `max(xs, key=priority)`: keeps the current best unless a later one is
      strictly greater, so the first of the maximal ones wins. */
  function MaxByPriority(best: Schedule, rest: seq<Schedule>): (r: Schedule)
    ensures r == best || r in rest
    ensures r.priority >= best.priority
    ensures forall s :: s in rest ==> s.priority <= r.priority
    decreases |rest|
  {
    if |rest| == 0 then best
    else MaxByPriority(if rest[0].priority > best.priority then rest[0] else best, rest[1..])
  }

  /** The schedule at index `k` is the first one of maximal priority. */
  predicate FirstMaximal(ss: seq<Schedule>, k: nat) {
    k < |ss|
    && (forall i :: 0 <= i < |ss| ==> ss[i].priority <= ss[k].priority)
    && (forall i :: 0 <= i < k ==> ss[i].priority < ss[k].priority)
  }

  /** Once no later schedule beats the current best, `max` keeps it. */
  lemma {:induction false} MaxKeepsBest(best: Schedule, rest: seq<Schedule>)
    requires forall i :: 0 <= i < |rest| ==> rest[i].priority <= best.priority
    ensures MaxByPriority(best, rest) == best
  {
    if |rest| > 0 {
      assert forall i :: 0 <= i < |rest[1..]| ==> rest[1..][i] == rest[i + 1];
      MaxKeepsBest(best, rest[1..]);
    }
  }

  /** When `rest[k]` is the first of the maximal ones and beats the current best, `max`
      ends on it. */
  lemma {:induction false} MaxReaches(best: Schedule, rest: seq<Schedule>, k: nat)
    requires FirstMaximal(rest, k) && best.priority < rest[k].priority
    ensures MaxByPriority(best, rest) == rest[k]
    decreases |rest|
  {
    var next := if rest[0].priority > best.priority then rest[0] else best;
    if k == 0 {
      assert forall i :: 0 <= i < |rest[1..]| ==> rest[1..][i] == rest[i + 1];
      MaxKeepsBest(rest[0], rest[1..]);
    } else {
      assert rest[0].priority < rest[k].priority;
      assert forall i :: 0 <= i < |rest[1..]| ==> rest[1..][i] == rest[i + 1];
      assert FirstMaximal(rest[1..], k - 1);
      MaxReaches(next, rest[1..], k - 1);
    }
  }

  /** `max` returns the first schedule of maximal priority. */
  lemma MaxByPriorityFirst(ss: seq<Schedule>, k: nat)
    requires FirstMaximal(ss, k)
    ensures MaxByPriority(ss[0], ss[1..]) == ss[k]
  {
    assert forall i :: 0 <= i < |ss[1..]| ==> ss[1..][i] == ss[i + 1];
    if k == 0 {
      MaxKeepsBest(ss[0], ss[1..]);
    } else {
      assert FirstMaximal(ss[1..], k - 1);
      MaxReaches(ss[0], ss[1..], k - 1);
    }
  }

  /** `get_active_schedule`: `None` when nothing is active, otherwise the active
      schedule of highest priority, the first one on ties. */
  function GetActiveSchedule(a: AlertsConfig, now: WallClock): (r: Result<Option<Schedule>, ConfigError>)
    ensures r.Ok? <==> ActiveSchedules(a.schedules, now).Ok?
    ensures r.Ok? && r.value.None? <==> ActiveSchedules(a.schedules, now) == Ok([])
    ensures r.Ok? && r.value.Some? ==> r.value.value in ActiveSchedules(a.schedules, now).value
    ensures r.Ok? && r.value.Some? ==>
      forall s :: s in ActiveSchedules(a.schedules, now).value ==> s.priority <= r.value.value.priority
  {
    match ActiveSchedules(a.schedules, now)
    case Err(e) => Err(e)
    case Ok(active) =>
      if |active| == 0 then Ok(None)
      else
        assert forall s :: s in active ==> s == active[0] || s in active[1..];
        Ok(Some(MaxByPriority(active[0], active[1..])))
  }

  /** The schedules whose flag is set, in their order. */
  function Kept(ss: seq<Schedule>, flags: seq<bool>): (r: seq<Schedule>)
    requires |flags| == |ss|
    ensures |r| <= |ss|
  {
    if |ss| == 0 then []
    else (if flags[0] then [ss[0]] else []) + Kept(ss[1..], flags[1..])
  }

  /** Whether each schedule is active now, once none of them fails. */
  function ActiveFlags(ss: seq<Schedule>, now: WallClock): (f: seq<bool>)
    requires forall i :: 0 <= i < |ss| ==> IsActiveNow(ss[i], now).Ok?
    ensures |f| == |ss| && forall i :: 0 <= i < |ss| ==> f[i] == IsActiveNow(ss[i], now).value
  {
    seq(|ss|, i requires 0 <= i < |ss| => IsActiveNow(ss[i], now).value)
  }

  /** The filter keeps exactly the active schedules, in their order. */
  lemma {:induction false} ActiveSchedulesKept(ss: seq<Schedule>, now: WallClock)
    requires ActiveSchedules(ss, now).Ok?
    ensures ActiveSchedules(ss, now).value == Kept(ss, ActiveFlags(ss, now))
  {
    if |ss| > 0 {
      var rest := ss[1..];
      assert forall i :: 0 <= i < |rest| ==> rest[i] == ss[i + 1];
      ActiveSchedulesKept(rest, now);
      assert ActiveFlags(ss, now)[1..] == ActiveFlags(rest, now);
    }
  }

  /** When `ss[k]` is kept, no kept schedule outranks it and every kept one before it
      ranks strictly lower, it is the first maximal one of the kept list, at position `j`. */
  lemma {:induction false} KeptFirstMaximal(ss: seq<Schedule>, flags: seq<bool>, k: nat) returns (j: nat)
    requires |flags| == |ss| && k < |ss| && flags[k]
    requires forall i :: 0 <= i < |ss| && flags[i] ==> ss[i].priority <= ss[k].priority
    requires forall i :: 0 <= i < k && flags[i] ==> ss[i].priority < ss[k].priority
    ensures FirstMaximal(Kept(ss, flags), j) && Kept(ss, flags)[j] == ss[k]
  {
    var r := Kept(ss, flags);
    var rest, fs := ss[1..], flags[1..];
    var t := Kept(rest, fs);
    assert forall i :: 0 <= i < |rest| ==> rest[i] == ss[i + 1] && fs[i] == flags[i + 1];
    KeptRanked(rest, fs, ss[k].priority);
    if k == 0 {
      j := 0;
      assert r == [ss[0]] + t;
    } else {
      var j' := KeptFirstMaximal(rest, fs, k - 1);
      if flags[0] {
        j := j' + 1;
        assert r == [ss[0]] + t;
      } else {
        j := j';
        assert r == t;
      }
    }
  }

  /** When no flagged schedule ranks above `p`, no kept one does. */
  lemma {:induction false} KeptRanked(ss: seq<Schedule>, flags: seq<bool>, p: int)
    requires |flags| == |ss|
    requires forall i :: 0 <= i < |ss| && flags[i] ==> ss[i].priority <= p
    ensures forall i :: 0 <= i < |Kept(ss, flags)| ==> Kept(ss, flags)[i].priority <= p
  {
    if |ss| > 0 {
      var rest, fs := ss[1..], flags[1..];
      assert forall i :: 0 <= i < |rest| ==> rest[i] == ss[i + 1] && fs[i] == flags[i + 1];
      KeptRanked(rest, fs, p);
    }
  }

  /** Among tied priorities the first active schedule, in configuration order, wins. */
  lemma GetActiveScheduleFirstOnTies(a: AlertsConfig, now: WallClock, k: nat)
    requires ActiveSchedules(a.schedules, now).Ok?
    requires k < |a.schedules| && IsActiveNow(a.schedules[k], now) == Ok(true)
    requires forall i :: 0 <= i < |a.schedules| && IsActiveNow(a.schedules[i], now) == Ok(true) ==>
      a.schedules[i].priority <= a.schedules[k].priority
    requires forall i :: 0 <= i < k && IsActiveNow(a.schedules[i], now) == Ok(true) ==>
      a.schedules[i].priority < a.schedules[k].priority
    ensures GetActiveSchedule(a, now) == Ok(Some(a.schedules[k]))
  {
    ActiveSchedulesKept(a.schedules, now);
    var flags := ActiveFlags(a.schedules, now);
    var j := KeptFirstMaximal(a.schedules, flags, k);
    MaxByPriorityFirst(ActiveSchedules(a.schedules, now).value, j);
  }

  /** A field of the winning schedule, or the default when it does not override it. */
  function Merge(s: Schedule, a: AlertsConfig): ThresholdSet {
    ThresholdSet(s.low.GetOr(a.low), s.high.GetOr(a.high),
                 s.lowPersist.GetOr(a.lowPersist), s.highPersist.GetOr(a.highPersist))
  }

  function Defaults(a: AlertsConfig): ThresholdSet {
    ThresholdSet(a.low, a.high, a.lowPersist, a.highPersist)
  }

  /** `get_effective_thresholds`: the defaults, or the winning schedule's overrides merged
      over them, built into a validated `ThresholdsConfig`. */
  function GetEffectiveThresholds(a: AlertsConfig, now: WallClock): (r: Result<ThresholdSet, ConfigError>)
    ensures r.Ok? ==> r.value.low > 0.0 && r.value.high > r.value.low
    ensures r.Ok? ==> r.value.lowPersist >= 0 && r.value.highPersist >= 0
    ensures GetActiveSchedule(a, now) == Ok(None) ==> r == ValidateThresholds(Defaults(a))
    ensures GetActiveSchedule(a, now).Ok? && GetActiveSchedule(a, now).value.Some? ==>
      r == ValidateThresholds(Merge(GetActiveSchedule(a, now).value.value, a))
    ensures GetActiveSchedule(a, now).Err? ==> r.Err?
  {
    match GetActiveSchedule(a, now)
    case Err(e) => Err(e)
    case Ok(None) => ValidateThresholds(Defaults(a))
    case Ok(Some(s)) => ValidateThresholds(Merge(s, a))
  }

  // ---------------------------------------------------------------- properties

  /** An overnight window such as 22:00–06:00 covers the late evening and the early
      morning of the listed days. */
  lemma OvernightSchedule(s: Schedule, now: WallClock)
    requires s.enabled && s.startTime == "22:00" && s.endTime == "06:00" && now.weekday in s.days
    ensures IsActiveNow(s, now) == Ok(now.microOfDay >= TimeOfDay(22, 0) || now.microOfDay <= TimeOfDay(6, 0))
  {
    ParseTimeLiterals();
  }

  lemma ParseTimeLiterals()
    ensures ParseTime("22:00") == Ok(TimeOfDay(22, 0)) && ParseTime("06:00") == Ok(TimeOfDay(6, 0))
  {
    TwoDigitLiterals();
    assert "22" + ":" + "00" == "22:00" && "06" + ":" + "00" == "06:00";
    FormattedLiteral(22, 0, "22:00");
    FormattedLiteral(6, 0, "06:00");
  }

  lemma TwoDigitLiterals()
    ensures TwoDigits(22) == "22" && TwoDigits(6) == "06" && TwoDigits(0) == "00"
  {
    assert Text.DigitChar(2) == '2' && Text.DigitChar(6) == '6' && Text.DigitChar(0) == '0';
  }

  lemma FormattedLiteral(h: nat, m: nat, s: string)
    requires h < 24 && m < 60 && s == TwoDigits(h) + ":" + TwoDigits(m)
    ensures ParseTime(s) == Ok(TimeOfDay(h, m))
  {
    ParseTimeFormatted(h, m);
  }

  /** Without schedules the effective thresholds are the defaults, validated. */
  lemma NoSchedulesUsesDefaults(a: AlertsConfig, now: WallClock)
    requires a.schedules == []
    ensures GetEffectiveThresholds(a, now) == ValidateThresholds(Defaults(a))
  {
  }

  /** The configuration `{alerts: {low_threshold: 16}}` with everything else left at
      its default. */
  const InvertedAlerts := DefaultAlerts.(low := 16.0)

  /** As written, that configuration is accepted, yet every later resolution of the
      thresholds fails: the default high of 15.0 is below the low of 16.0. */
  lemma InvertedThresholdsAccepted(m: MonitoringConfig, now: WallClock)
    requires m.pollInterval > 0 && m.startupDelayMinutes >= 0
    ensures AcceptsConfig(InvertedAlerts, m, false)
    ensures GetEffectiveThresholds(InvertedAlerts, now).Err?
  {
    NoSchedulesUsesDefaults(InvertedAlerts, now);
  }

  /** With the strict check no accepted configuration fails that way: when no schedule
      applies, the defaults always resolve. */
  lemma StrictAcceptsResolvable(a: AlertsConfig, m: MonitoringConfig, now: WallClock)
    requires AcceptsConfigStrict(a, m)
    requires GetActiveSchedule(a, now) == Ok(None)
    ensures GetEffectiveThresholds(a, now) == Ok(Defaults(a))
  {
  }

  /** The strict check rejects the configuration the written one lets through. */
  lemma StrictRejectsInverted(m: MonitoringConfig)
    ensures !AcceptsConfigStrict(InvertedAlerts, m)
  {
  }
}
