/** The alert decisions of the second desktop interface, `BearAlarmApp` in
    src/ui_qt/app.py: `_check_thresholds` on the default thresholds with the urgent low
    checked before the snooze, the snooze handlers, the trend arrow chosen for a reading
    and the section merge of `_handle_save_settings`. The clock is the `now` parameter,
    in seconds. */
module QtApp {
  import opened Wrappers
  import Text
  import Config
  import Alerts
  import Database
  import Models
  import FletApp
  import opened AppState

  // ---------------------------------------------------------------- evaluation

  /** One evaluation: the new tracking state and what happens to the alarm. */
  datatype Step = Step(next: Tracking, action: Action)

  /** `_check_thresholds`: an urgent low sounds at once, whatever the snooze, and restarts
      the low clock; otherwise a running snooze ends the evaluation, one that has run out is
      cleared, and the default thresholds decide, a condition still inside its persistence
      window clearing the alarm. */
  function Evaluate(t: Tracking, cfg: Config.AlertsConfig, now: int, g: real): (s: Step)
    ensures g <= cfg.urgentLow ==>
      s == Step(t.(lowStarted := Some(now), highStarted := None), SoundLow)
    ensures s.action == Nothing <==> !(g <= cfg.urgentLow) && SnoozeRunning(t, now)
    ensures s.action == Nothing ==> s.next == t
    ensures !(g <= cfg.urgentLow) && !SnoozeRunning(t, now) ==>
      && s.next.isSnoozed == ExpireSnooze(t).isSnoozed && s.next.snoozeUntil == ExpireSnooze(t).snoozeUntil
      && (g <= cfg.low ==>
            s.next.lowStarted == Some(t.lowStarted.GetOr(now)) && s.next.highStarted.None?
            && (s.action == SoundLow <==> Persisted(t.lowStarted.GetOr(now), now, cfg.lowPersist))
            && (s.action == SoundLow || s.action == Silence))
      && (!(g <= cfg.low) && g >= cfg.high ==>
            s.next.highStarted == Some(t.highStarted.GetOr(now)) && s.next.lowStarted.None?
            && (s.action == SoundHigh <==> Persisted(t.highStarted.GetOr(now), now, cfg.highPersist))
            && (s.action == SoundHigh || s.action == Silence))
      && (cfg.low < g < cfg.high ==>
            s.action == Silence && s.next.lowStarted.None? && s.next.highStarted.None?)
  {
    if g <= cfg.urgentLow then Step(t.(lowStarted := Some(now), highStarted := None), SoundLow)
    else if SnoozeRunning(t, now) then Step(t, Nothing)
    else
      var t1 := ExpireSnooze(t);
      if g <= cfg.low then
        var start := t1.lowStarted.GetOr(now);
        Step(t1.(lowStarted := Some(start), highStarted := None),
             if Persisted(start, now, cfg.lowPersist) then SoundLow else Silence)
      else if g >= cfg.high then
        var start := t1.highStarted.GetOr(now);
        Step(t1.(highStarted := Some(start), lowStarted := None),
             if Persisted(start, now, cfg.highPersist) then SoundHigh else Silence)
      else Step(t1.(lowStarted := None, highStarted := None), Silence)
  }

  /** Schedules play no part: two configurations that differ only in their schedules give
      the same evaluation. */
  lemma SchedulesIgnored(t: Tracking, cfg: Config.AlertsConfig, ss: seq<Config.Schedule>, now: int, g: real)
    ensures Evaluate(t, cfg.(schedules := ss), now, g) == Evaluate(t, cfg, now, g)
  {
  }

  /** An urgent low sounds even while snoozed, and leaves the snooze as it was. */
  lemma UrgentLowBypassesSnooze(t: Tracking, cfg: Config.AlertsConfig, start: int, minutes: int, now: int, g: real)
    requires g <= cfg.urgentLow
    ensures var snoozed := Snooze(t, start, minutes);
      var s := Evaluate(snoozed, cfg, now, g);
      s.action == SoundLow && s.next.isSnoozed && s.next.snoozeUntil == snoozed.snoozeUntil
  {
  }

  /** A low that persists: the first low tick records its time and clears the alarm unless
      no persistence is asked for; a later low tick sounds exactly once the persistence
      minutes have passed since that first tick. */
  lemma LowPersistence(cfg: Config.AlertsConfig, t0: int, t1: int, g0: real, g1: real)
    requires cfg.urgentLow < g0 <= cfg.low && cfg.urgentLow < g1 <= cfg.low
    ensures var first := Evaluate(Fresh, cfg, t0, g0);
      var second := Evaluate(first.next, cfg, t1, g1);
      && first.next.lowStarted == Some(t0)
      && first.action == (if cfg.lowPersist <= 0 then SoundLow else Silence)
      && second.next.lowStarted == Some(t0)
      && second.action == (if t1 - t0 >= 60 * cfg.lowPersist then SoundLow else Silence)
  {
    var first := Evaluate(Fresh, cfg, t0, g0);
    assert first.next == Tracking(false, None, Some(t0), None);
  }

  /** An urgent tick restarts the low clock: a low that follows it counts its persistence
      from the urgent tick, not from where the low began. */
  lemma UrgentRestartsLowClock(t: Tracking, cfg: Config.AlertsConfig, t0: int, t1: int, g0: real, g1: real)
    requires g0 <= cfg.urgentLow && cfg.urgentLow < g1 <= cfg.low && !t.isSnoozed
    ensures var second := Evaluate(Evaluate(t, cfg, t0, g0).next, cfg, t1, g1);
      second.next.lowStarted == Some(t0)
      && (second.action == SoundLow <==> t1 - t0 >= 60 * cfg.lowPersist)
  {
  }

  /** Against the first interface, on a configuration without schedules whose defaults are
      valid and a reading above the urgent low: both reach the same tracking state and the
      same alarm, except that a condition inside its persistence window is cleared here
      and left alone there. At or below the urgent low with no snooze running, both sound
      the low alarm. */
  lemma AgreesWithFlet(t: Tracking, cfg: Config.AlertsConfig, clock: Config.WallClock, now: int, g: real)
    requires cfg.schedules == [] && Config.ValidateThresholds(Config.Defaults(cfg)).Ok?
    ensures var q := Evaluate(t, cfg, now, g);
      var f := FletApp.Evaluate(t, cfg, clock, now, g);
      && !f.raised
      && (!(g <= cfg.urgentLow) ==>
            && q.next == f.next
            && (q.action == f.action || (q.action == Silence && f.action == Nothing && !SnoozeRunning(t, now))))
      && (g <= cfg.urgentLow && !SnoozeRunning(t, now) ==> q.action == SoundLow && f.action == SoundLow)
  {
    Config.NoSchedulesUsesDefaults(cfg, clock);
  }

  // ---------------------------------------------------------------- trend arrows

  /** The fallback table of `_fetch_glucose`, keys as written. */
  const TrendTable: map<string, string> := map[
    "steady" := "→", "flat" := "→",
    "rising" := "↗", "fortyFiveUp" := "↗",
    "falling" := "↘", "fortyFiveDown" := "↘",
    "risingQuickly" := "⬆", "singleUp" := "⬆",
    "fallingQuickly" := "⬇", "singleDown" := "⬇",
    "risingRapidly" := "⬆⬆", "doubleUp" := "⬆⬆",
    "fallingRapidly" := "⬇⬇", "doubleDown" := "⬇⬇"]

  /** The trend recorded for a reading, and the arrow shown: a description that is a trend
      value gives that trend and its arrow; any other description, or none, is lower-cased
      and looked up in `table`, with "→" when it is not there, and no trend is recorded. */
  function ArrowWith(table: map<string, string>, desc: Option<string>): (r: (Option<Models.Trend>, string))
    ensures desc.Some? && Models.TrendFromValue(desc.value).Some? ==>
      r == (Models.TrendFromValue(desc.value), Models.Arrow(Models.TrendFromValue(desc.value).value))
    ensures !(desc.Some? && Models.TrendFromValue(desc.value).Some?) ==> r.0.None?
    ensures desc.None? ==> r.1 == (if "" in table then table[""] else "→")
    ensures desc.Some? && Models.TrendFromValue(desc.value).None? ==>
      var key := Text.Lower(desc.value);
      r.1 == (if key in table then table[key] else "→")
  {
    var t := if desc.Some? then Models.TrendFromValue(desc.value) else None;
    if t.Some? then (t, Models.Arrow(t.value))
    else
      var key := if desc.Some? then Text.Lower(desc.value) else "";
      (None, if key in table then table[key] else "→")
  }

  /** The arrow as the source computes it, with the camel-case keys as written. */
  function TrendArrowAsWritten(desc: Option<string>): (r: (Option<Models.Trend>, string))
    ensures desc.None? ==> r == (None, "→")
  {
    ArrowWith(TrendTable, desc)
  }

  /** As written, a key holding an upper-case letter is never found, since the lookup is
      on a lower-cased description; so "singleUp", listed as "⬆", shows "→". */
  lemma CamelCaseKeysUnreachable(desc: string, key: string)
    requires key in TrendTable && Text.HasUpper(key)
    ensures Text.Lower(desc) != key
  {
    Text.LowerHasNoUpper(desc);
  }

  lemma SingleUpShowsSteady()
    ensures TrendArrowAsWritten(Some("singleUp")) == (None, "→")
  {
    assert Text.Lower("singleUp") == "singleup";
  }

  /** The table with every key lower-cased, so that the lookup on the lower-cased
      description can reach each entry. */
  const LoweredTrendTable: map<string, string> := map[
    "steady" := "→", "flat" := "→",
    "rising" := "↗", "fortyfiveup" := "↗",
    "falling" := "↘", "fortyfivedown" := "↘",
    "risingquickly" := "⬆", "singleup" := "⬆",
    "fallingquickly" := "⬇", "singledown" := "⬇",
    "risingrapidly" := "⬆⬆", "doubleup" := "⬆⬆",
    "fallingrapidly" := "⬇⬇", "doubledown" := "⬇⬇"]

  /** The arrow with the lowered table. */
  function TrendArrow(desc: Option<string>): (r: (Option<Models.Trend>, string))
    ensures desc.None? ==> r == (None, "→")
  {
    ArrowWith(LoweredTrendTable, desc)
  }

  /** With the lowered table, every description the source's table lists, in the spelling
      it lists, shows the arrow listed for it. */
  lemma EveryListedSpellingReached(key: string)
    requires key in TrendTable
    ensures TrendArrow(Some(key)) == (None, TrendTable[key])
  {
    LoweredKey(key);
  }

  /** Each key of the source's table, lower-cased, is a key of the lowered table with the
      same arrow, and no key is a trend value. */
  lemma LoweredKey(key: string)
    requires key in TrendTable
    ensures Models.TrendFromValue(key).None?
    ensures Text.Lower(key) in LoweredTrendTable && LoweredTrendTable[Text.Lower(key)] == TrendTable[key]
  {
    if key == "steady" || key == "flat" {
      LoweredSteady(key);
    } else if key == "rising" || key == "fortyFiveUp" {
      LoweredRising(key);
    } else if key == "falling" || key == "fortyFiveDown" {
      LoweredFalling(key);
    } else if key == "risingQuickly" || key == "singleUp" {
      LoweredRisingQuickly(key);
    } else if key == "fallingQuickly" || key == "singleDown" {
      LoweredFallingQuickly(key);
    } else if key == "risingRapidly" || key == "doubleUp" {
      LoweredRisingRapidly(key);
    } else {
      LoweredFallingRapidly(key);
    }
  }

  /** The two spellings the table gives for one arrow. */
  lemma LoweredSteady(key: string)
    requires key == "steady" || key == "flat"
    ensures Models.TrendFromValue(key).None?
    ensures Text.Lower(key) in LoweredTrendTable && LoweredTrendTable[Text.Lower(key)] == TrendTable[key]
  {
    if key == "steady" {
      assert Text.Lower(key) == "steady";
    } else {
      assert Text.Lower(key) == "flat";
    }
  }

  lemma LoweredRising(key: string)
    requires key == "rising" || key == "fortyFiveUp"
    ensures Models.TrendFromValue(key).None?
    ensures Text.Lower(key) in LoweredTrendTable && LoweredTrendTable[Text.Lower(key)] == TrendTable[key]
  {
    if key == "rising" {
      assert Text.Lower(key) == "rising";
    } else {
      assert Text.Lower(key) == "fortyfiveup";
    }
  }

  lemma LoweredFalling(key: string)
    requires key == "falling" || key == "fortyFiveDown"
    ensures Models.TrendFromValue(key).None?
    ensures Text.Lower(key) in LoweredTrendTable && LoweredTrendTable[Text.Lower(key)] == TrendTable[key]
  {
    if key == "falling" {
      assert Text.Lower(key) == "falling";
    } else {
      assert Text.Lower(key) == "fortyfivedown";
    }
  }

  lemma LoweredRisingQuickly(key: string)
    requires key == "risingQuickly" || key == "singleUp"
    ensures Models.TrendFromValue(key).None?
    ensures Text.Lower(key) in LoweredTrendTable && LoweredTrendTable[Text.Lower(key)] == TrendTable[key]
  {
    if key == "risingQuickly" {
      assert Text.Lower(key) == "risingquickly";
    } else {
      assert Text.Lower(key) == "singleup";
    }
  }

  lemma LoweredFallingQuickly(key: string)
    requires key == "fallingQuickly" || key == "singleDown"
    ensures Models.TrendFromValue(key).None?
    ensures Text.Lower(key) in LoweredTrendTable && LoweredTrendTable[Text.Lower(key)] == TrendTable[key]
  {
    if key == "fallingQuickly" {
      assert Text.Lower(key) == "fallingquickly";
    } else {
      assert Text.Lower(key) == "singledown";
    }
  }

  lemma LoweredRisingRapidly(key: string)
    requires key == "risingRapidly" || key == "doubleUp"
    ensures Models.TrendFromValue(key).None?
    ensures Text.Lower(key) in LoweredTrendTable && LoweredTrendTable[Text.Lower(key)] == TrendTable[key]
  {
    if key == "risingRapidly" {
      assert Text.Lower(key) == "risingrapidly";
    } else {
      assert Text.Lower(key) == "doubleup";
    }
  }

  lemma LoweredFallingRapidly(key: string)
    requires key == "fallingRapidly" || key == "doubleDown"
    ensures Models.TrendFromValue(key).None?
    ensures Text.Lower(key) in LoweredTrendTable && LoweredTrendTable[Text.Lower(key)] == TrendTable[key]
  {
    if key == "fallingRapidly" {
      assert Text.Lower(key) == "fallingrapidly";
    } else {
      assert Text.Lower(key) == "doubledown";
    }
  }

  // ---------------------------------------------------------------- settings merge

  /** A value of the dumped configuration: a section (a dict) or any other value. */
  datatype Value = Dict(entries: map<string, Value>) | Plain(text: string)

  /** Updating a section whose current value is not a dict fails (the `update` call raises)
      and the configuration is not saved. */
  datatype MergeError = NotADict(section: string)

  /** One section of `new_config`: a missing section starts as `{}`; a dict is merged
      into the current dict, given keys winning; any other value replaces the section. */
  function MergeSection(current: map<string, Value>, section: string, values: Value): (r: Result<map<string, Value>, MergeError>)
    ensures r.Err? <==> values.Dict? && section in current && current[section].Plain?
    ensures r.Ok? ==> r.value.Keys == current.Keys + {section}
    ensures r.Ok? ==> forall key :: key in current && key != section ==> r.value[key] == current[key]
    ensures r.Ok? && values.Plain? ==> r.value[section] == values
    ensures r.Ok? && values.Dict? ==>
      r.value[section] == Dict((if section in current then current[section].entries else map[]) + values.entries)
  {
    var existing := if section in current then current[section] else Dict(map[]);
    match values
    case Plain(_) => Ok(current[section := values])
    case Dict(given) =>
      if existing.Plain? then Err(NotADict(section))
      else Ok(current[section := Dict(existing.entries + given)])
  }

  /** The sections of `new_config` from position `from` on, in order. */
  function MergeFrom(current: map<string, Value>, updates: seq<(string, Value)>, from: nat): (r: Result<map<string, Value>, MergeError>)
    requires from <= |updates|
    decreases |updates| - from
  {
    if from == |updates| then Ok(current)
    else
      match MergeSection(current, updates[from].0, updates[from].1)
      case Err(e) => Err(e)
      case Ok(next) => MergeFrom(next, updates, from + 1)
  }

  /** The whole loop. */
  function Merge(current: map<string, Value>, updates: seq<(string, Value)>): (r: Result<map<string, Value>, MergeError>) {
    MergeFrom(current, updates, 0)
  }

  /** The sections a dict names, each once. */
  predicate DistinctSections(updates: seq<(string, Value)>) {
    forall i, j :: 0 <= i < j < |updates| ==> updates[i].0 != updates[j].0
  }

  /** What the merge promises for the sections it is given: for a distinct list, with the
      current dict `current`, from position `from` on. */
  predicate MergedAsPromised(current: map<string, Value>, updates: seq<(string, Value)>, from: nat, m: map<string, Value>)
    requires from <= |updates|
  {
    && (forall key :: key in current && (forall i :: from <= i < |updates| ==> updates[i].0 != key) ==>
          key in m && m[key] == current[key])
    && (forall i :: from <= i < |updates| ==> updates[i].0 in m && Promised(current, updates[i].0, updates[i].1, m[updates[i].0]))
    && m.Keys == current.Keys + (set i | from <= i < |updates| :: updates[i].0)
  }

  /** The value a section ends with. */
  predicate Promised(current: map<string, Value>, section: string, values: Value, result: Value) {
    match values
    case Plain(_) => result == values
    case Dict(given) => result == Dict((if section in current && current[section].Dict? then current[section].entries else map[]) + given)
  }

  /** A section that would fail. */
  predicate Blocked(current: map<string, Value>, section: string, values: Value) {
    values.Dict? && section in current && current[section].Plain?
  }

  /** Sections the loop has not reached keep their values for it. */
  lemma MergeSectionKeepsOthers(current: map<string, Value>, updates: seq<(string, Value)>, from: nat, next: map<string, Value>)
    requires from < |updates| && DistinctSections(updates)
    requires MergeSection(current, updates[from].0, updates[from].1) == Ok(next)
    ensures forall i :: from + 1 <= i < |updates| ==> Blocked(next, updates[i].0, updates[i].1) == Blocked(current, updates[i].0, updates[i].1)
    ensures forall i :: from + 1 <= i < |updates| ==>
      (updates[i].0 in next <==> updates[i].0 in current)
      && (updates[i].0 in current ==> next[updates[i].0] == current[updates[i].0])
  {
  }

  /** The merge fails exactly when some given dict meets a current value that is not a
      dict; otherwise sections not given are unchanged, given dicts are shallow-updated
      (a missing section counting as `{}`) and other given values replace their section. */
  lemma {:induction false} MergeFromSpec(current: map<string, Value>, updates: seq<(string, Value)>, from: nat)
    requires from <= |updates| && DistinctSections(updates)
    ensures MergeFrom(current, updates, from).Err? <==> exists i :: from <= i < |updates| && Blocked(current, updates[i].0, updates[i].1)
    ensures MergeFrom(current, updates, from).Ok? ==> MergedAsPromised(current, updates, from, MergeFrom(current, updates, from).value)
    decreases |updates| - from
  {
    if from < |updates| {
      var section, values := updates[from].0, updates[from].1;
      match MergeSection(current, section, values)
      case Err(_) =>
        assert Blocked(current, section, values);
      case Ok(next) =>
        MergeFromSpec(next, updates, from + 1);
        MergeSectionKeepsOthers(current, updates, from, next);
        var r := MergeFrom(next, updates, from + 1);
        assert MergeFrom(current, updates, from) == r;
        assert !Blocked(current, section, values);
        if r.Ok? {
          var m := r.value;
          assert section in m && m[section] == next[section] by {
            assert forall i :: from + 1 <= i < |updates| ==> updates[i].0 != section;
          }
          assert Promised(current, section, values, m[section]);
          forall i | from + 1 <= i < |updates|
            ensures updates[i].0 in m && Promised(current, updates[i].0, updates[i].1, m[updates[i].0])
          {
            assert Promised(next, updates[i].0, updates[i].1, m[updates[i].0]);
          }
          forall key | key in current && (forall i :: from <= i < |updates| ==> updates[i].0 != key)
            ensures key in m && m[key] == current[key]
          {
            assert key != section && key in next;
          }
          assert (set i | from <= i < |updates| :: updates[i].0)
            == {section} + (set i | from + 1 <= i < |updates| :: updates[i].0);
        }
    }
  }

  /** `_handle_save_settings`'s loop over `new_config`, on the dumped configuration, in
      the order of the given sections. */
  method MergeSettings(current: map<string, Value>, updates: seq<(string, Value)>) returns (r: Result<map<string, Value>, MergeError>)
    ensures r == Merge(current, updates)
  {
    var merged := current;
    var i := 0;
    while i < |updates|
      invariant 0 <= i <= |updates|
      invariant MergeFrom(merged, updates, i) == Merge(current, updates)
    {
      var (section, values) := updates[i];
      ghost var before := merged;
      if section !in merged {
        merged := merged[section := Dict(map[])];
      }
      assert MergeSection(merged, section, values) == MergeSection(before, section, values) by {
        if section !in before {
          assert merged[section := values] == before[section := values];
          if values.Dict? {
            var v := Dict(map[] + values.entries);
            assert merged[section := v] == before[section := v];
          }
        }
      }
      if values.Dict? {
        if merged[section].Plain? {
          return Err(NotADict(section));
        }
        merged := merged[section := Dict(merged[section].entries + values.entries)];
      } else {
        merged := merged[section := values];
      }
      i := i + 1;
    }
    r := Ok(merged);
  }

  // ---------------------------------------------------------------- the application object

  /** What `get_current_glucose_reading` hands back. */
  datatype DexcomReading = DexcomReading(mmol: real, mgdl: int, description: Option<string>)

  /** The fields of the Qt `BearAlarmApp` the decisions use. */
  class App {
    const cfg: Config.AlertsConfig
    const alerts: Alerts.AlertSystem
    const db: Database.Store
    var isSnoozed: bool
    var snoozeUntil: Option<int>
    var lowStarted: Option<int>
    var highStarted: Option<int>
    var currentGlucose: Option<real>

    function State(): Tracking
      reads this
    {
      Tracking(isSnoozed, snoozeUntil, lowStarted, highStarted)
    }

    constructor (config: Config.AlertsConfig, system: Alerts.AlertSystem, store: Database.Store)
      ensures cfg == config && alerts == system && db == store
      ensures State() == Fresh && currentGlucose.None?
    {
      cfg := config;
      alerts := system;
      db := store;
      isSnoozed := false;
      snoozeUntil := None;
      lowStarted := None;
      highStarted := None;
      currentGlucose := None;
    }

    /** `_check_thresholds`. */
    method CheckThresholds(g: real, now: int)
      modifies this, alerts
      ensures var s := Evaluate(old(State()), cfg, now, g);
        State() == s.next && alerts.Model() == ApplyAction(old(alerts.Model()), s.action)
      ensures currentGlucose == old(currentGlucose)
    {
      ghost var s := Evaluate(State(), cfg, now, g);
      if g <= cfg.urgentLow {
        alerts.TriggerLowAlert();
        lowStarted := Some(now);
        highStarted := None;
        return;
      }
      if isSnoozed && snoozeUntil.Some? {
        if now >= snoozeUntil.value {
          isSnoozed := false;
          snoozeUntil := None;
        } else {
          return;
        }
      }
      if g <= cfg.low {
        if lowStarted.None? {
          lowStarted := Some(now);
        }
        if now - lowStarted.value >= 60 * cfg.lowPersist {
          alerts.TriggerLowAlert();
        } else {
          alerts.ClearAlert();
        }
        highStarted := None;
      } else if g >= cfg.high {
        if highStarted.None? {
          highStarted := Some(now);
        }
        if now - highStarted.value >= 60 * cfg.highPersist {
          alerts.TriggerHighAlert();
        } else {
          alerts.ClearAlert();
        }
        lowStarted := None;
      } else {
        alerts.ClearAlert();
        lowStarted := None;
        highStarted := None;
      }
    }

    /** `_fetch_glucose` once the client has answered: no reading changes nothing; a
        reading becomes the current glucose, is stored with the trend it names (if any),
        and is checked. The arrow shown is returned. */
    method FetchGlucose(reading: Option<DexcomReading>, now: int) returns (arrow: Option<string>)
      requires db.Valid()
      modifies this, alerts, db
      ensures reading.None? ==>
        arrow.None? && State() == old(State()) && currentGlucose == old(currentGlucose)
        && alerts.Model() == old(alerts.Model()) && db.readings == old(db.readings)
        && db.nextReadingId == old(db.nextReadingId)
      ensures reading.Some? ==>
        var r := reading.value;
        var shown := TrendArrowAsWritten(r.description);
        var s := Evaluate(old(State()), cfg, now, r.mmol);
        && arrow == Some(shown.1) && currentGlucose == Some(r.mmol)
        && db.readings == old(db.readings) + [Database.StoredRow(old(db.nextReadingId), now, r.mmol, r.mgdl, shown.0)]
        && State() == s.next && alerts.Model() == ApplyAction(old(alerts.Model()), s.action)
        && db.nextReadingId == old(db.nextReadingId) + 1
      ensures db.snoozes == old(db.snoozes) && db.settings == old(db.settings) && db.nextSnoozeId == old(db.nextSnoozeId)
      ensures db.Valid()
    {
      if reading.None? {
        return None;
      }
      var r := reading.value;
      var shown := TrendArrowAsWritten(r.description);
      currentGlucose := Some(r.mmol);
      var _ := db.AddReading(r.mmol, r.mgdl, shown.0, None, now);
      CheckThresholds(r.mmol, now);
      arrow := Some(shown.1);
    }

    /** `_handle_snooze`: snoozed until `minutes` from now and the alarm cleared. */
    method HandleSnooze(minutes: int, now: int)
      modifies this, alerts
      ensures State() == Snooze(old(State()), now, minutes) && currentGlucose == old(currentGlucose)
      ensures alerts.Model() == Alerts.Clear(old(alerts.Model()))
    {
      isSnoozed := true;
      snoozeUntil := Some(now + 60 * minutes);
      alerts.ClearAlert();
    }

    /** `_handle_cancel_snooze`: the snooze is dropped and nothing is evaluated again. */
    method HandleCancelSnooze()
      modifies this
      ensures State() == CancelSnooze(old(State())) && currentGlucose == old(currentGlucose)
    {
      isSnoozed := false;
      snoozeUntil := None;
    }
  }
}
