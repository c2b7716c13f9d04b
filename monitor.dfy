/** The command-line monitor of src/core/monitor.py: classify each reading against the
    default thresholds, drive the alarm, and count consecutive failed polls. The
    Dexcom client is replaced by the outcome of each fetch. */
module Monitor {
  import opened Wrappers
  import Alerts

  /** What `_check_glucose_level` decides. */
  datatype Verdict = SoundLow | SoundHigh | BackToNormal

  /** Low is checked first, so it wins even when the thresholds overlap. */
  function Classify(g: real, low: real, high: real): (v: Verdict)
    ensures v == SoundLow <==> g <= low
    ensures v == SoundHigh <==> !(g <= low) && g >= high
    ensures v == BackToNormal <==> low < g < high
  {
    if g <= low then SoundLow else if g >= high then SoundHigh else BackToNormal
  }

  function ApplyVerdict(a: Alerts.Alarm, v: Verdict): Alerts.Alarm {
    match v
    case SoundLow => Alerts.Trigger(a, Alerts.LowAlert)
    case SoundHigh => Alerts.Trigger(a, Alerts.HighAlert)
    case BackToNormal => Alerts.Clear(a)
  }

  /** After a check the alarm state is the verdict: low, high or normal. */
  lemma VerdictSetsState(a: Alerts.Alarm, g: real, low: real, high: real)
    ensures var r := ApplyVerdict(a, Classify(g, low, high));
      (g <= low ==> r.state == Alerts.LowAlert)
      && (!(g <= low) && g >= high ==> r.state == Alerts.HighAlert)
      && (low < g < high ==> r.state == Alerts.Normal)
  {
  }

  /** How one call of `get_glucose_mmol` went. */
  datatype Fetch = Reading(mmol: real) | NoReading | ClientError | OtherError

  /** `_consecutive_errors` after one poll: a reading resets it, a missing reading leaves
      it, either kind of exception adds one. */
  function NextErrors(errors: nat, f: Fetch): (e: nat)
    ensures f.Reading? ==> e == 0
    ensures f.NoReading? ==> e == errors
    ensures (f.ClientError? || f.OtherError?) ==> e == errors + 1
  {
    match f
    case Reading(_) => 0
    case NoReading => errors
    case _ => errors + 1
  }

  /** The counter after a run of polls. */
  function ErrorsAfter(errors: nat, fs: seq<Fetch>): nat
    decreases |fs|
  {
    if |fs| == 0 then errors else ErrorsAfter(NextErrors(errors, fs[0]), fs[1..])
  }

  predicate IsFailure(f: Fetch) { f.ClientError? || f.OtherError? }

  /** The number of failures since the last reading (all of them when there was none). */
  function TrailingFailures(fs: seq<Fetch>): nat
    decreases |fs|
  {
    if |fs| == 0 then 0
    else if fs[|fs| - 1].Reading? then 0
    else TrailingFailures(fs[..|fs| - 1]) + (if IsFailure(fs[|fs| - 1]) then 1 else 0)
  }

  predicate HasReading(fs: seq<Fetch>) { exists i :: 0 <= i < |fs| && fs[i].Reading? }

  /** The counter holds exactly the failures since the last successful reading; missing
      readings neither count nor reset. */
  lemma {:induction false} ErrorsCountTrailingFailures(errors: nat, fs: seq<Fetch>)
    ensures ErrorsAfter(errors, fs) == (if HasReading(fs) then 0 else errors) + TrailingFailures(fs)
    decreases |fs|
  {
    if |fs| > 0 {
      var init, last := fs[..|fs| - 1], fs[|fs| - 1];
      ErrorsAfterSnoc(errors, init, last);
      ErrorsCountTrailingFailures(errors, init);
      assert fs == init + [last];
      assert HasReading(fs) <==> HasReading(init) || last.Reading? by {
        assert forall i :: 0 <= i < |init| ==> init[i] == fs[i];
      }
    }
  }

  lemma {:induction false} ErrorsAfterSnoc(errors: nat, fs: seq<Fetch>, f: Fetch)
    ensures ErrorsAfter(errors, fs + [f]) == NextErrors(ErrorsAfter(errors, fs), f)
    decreases |fs|
  {
    if |fs| == 0 {
      assert ([f])[1..] == [];
    } else {
      assert (fs + [f])[0] == fs[0] && (fs + [f])[1..] == fs[1..] + [f];
      ErrorsAfterSnoc(NextErrors(errors, fs[0]), fs[1..], f);
    }
  }

  /** `GlucoseMonitor` with its alert system; the thresholds are the configured defaults. */
  class GlucoseMonitor {
    const low: real
    const high: real
    const alerts: Alerts.AlertSystem
    var running: bool
    var errors: nat

    constructor (lowThreshold: real, highThreshold: real, system: Alerts.AlertSystem)
      ensures low == lowThreshold && high == highThreshold && alerts == system
      ensures !running && errors == 0
    {
      low := lowThreshold;
      high := highThreshold;
      alerts := system;
      running := false;
      errors := 0;
    }

    /** `_check_glucose_level`. */
    method CheckGlucoseLevel(g: real)
      modifies alerts
      ensures alerts.Model() == ApplyVerdict(old(alerts.Model()), Classify(g, low, high))
    {
      if g <= low {
        alerts.TriggerLowAlert();
      } else if g >= high {
        alerts.TriggerHighAlert();
      } else {
        alerts.ClearAlert();
      }
    }

    /** `_poll_once`: true exactly when a reading arrived and was checked. */
    method PollOnce(f: Fetch) returns (ok: bool)
      modifies this, alerts
      ensures ok <==> f.Reading?
      ensures errors == NextErrors(old(errors), f)
      ensures f.Reading? ==> alerts.Model() == ApplyVerdict(old(alerts.Model()), Classify(f.mmol, low, high))
      ensures !f.Reading? ==> alerts.Model() == old(alerts.Model())
      ensures running == old(running)
    {
      match f
      case Reading(g) =>
        CheckGlucoseLevel(g);
        errors := 0;
        ok := true;
      case NoReading =>
        ok := false;
      case _ =>
        errors := errors + 1;
        ok := false;
    }

    /** `run_once`: the reading (checked) or `None`; the counter is not touched. */
    method RunOnce(f: Fetch) returns (r: Option<real>)
      modifies alerts
      ensures f.Reading? ==> r == Some(f.mmol) && alerts.Model() == ApplyVerdict(old(alerts.Model()), Classify(f.mmol, low, high))
      ensures !f.Reading? ==> r == None && alerts.Model() == old(alerts.Model())
    {
      if f.Reading? {
        CheckGlucoseLevel(f.mmol);
        r := Some(f.mmol);
      } else {
        r := None;
      }
    }

    /** `stop`: nothing when not running; otherwise stop and shut the alarm down. */
    method Stop()
      modifies this, alerts
      ensures !running && errors == old(errors)
      ensures old(running) ==> alerts.Model() == Alerts.Shutdown(old(alerts.Model()))
      ensures !old(running) ==> alerts.Model() == old(alerts.Model())
    {
      if !running {
        return;
      }
      running := false;
      alerts.ShutdownSystem();
    }
  }
}
