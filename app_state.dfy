/** The evaluation state both desktop interfaces keep beside their alarm
    (src/ui/app.py:48-59 and src/ui_qt/app.py:42-48): the snooze flag and deadline, and
    when the current low or high condition was first seen. Times are integer seconds. */
module AppState {
  import opened Wrappers
  import Alerts

  datatype Tracking = Tracking(isSnoozed: bool, snoozeUntil: Option<int>, lowStarted: Option<int>, highStarted: Option<int>)

  /** The state of a freshly built application object. */
  const Fresh := Tracking(false, None, None, None)

  /** What an evaluation does to the alarm: nothing, trigger it low or high, or clear it. */
  datatype Action = Nothing | SoundLow | SoundHigh | Silence

  function ApplyAction(a: Alerts.Alarm, act: Action): (r: Alerts.Alarm)
    ensures act == Nothing ==> r == a
    ensures act == SoundLow ==> r.state == Alerts.LowAlert
    ensures act == SoundHigh ==> r.state == Alerts.HighAlert
    ensures act == Silence ==> r.state == Alerts.Normal
    ensures Alerts.Consistent(a) ==> Alerts.Consistent(r)
  {
    match act
    case Nothing => a
    case SoundLow => Alerts.Trigger(a, Alerts.LowAlert)
    case SoundHigh => Alerts.Trigger(a, Alerts.HighAlert)
    case Silence => Alerts.Clear(a)
  }

  /** `(now - start).total_seconds() / 60 >= minutes`, on whole seconds. */
  predicate Persisted(start: int, now: int, minutes: int) {
    now - start >= 60 * minutes
  }

  /** The integer form agrees with the division the source performs. */
  lemma PersistedIsElapsedMinutes(start: int, now: int, minutes: int)
    ensures Persisted(start, now, minutes) <==> (now - start) as real / 60.0 >= minutes as real
  {
    var e := (now - start) as real;
    assert e / 60.0 * 60.0 == e;
    if e / 60.0 >= minutes as real {
      assert e >= (minutes as real) * 60.0;
    } else {
      assert e < (minutes as real) * 60.0;
    }
  }

  /** `_is_snoozed and _snooze_until` with the deadline still ahead. */
  predicate SnoozeRunning(t: Tracking, now: int) {
    t.isSnoozed && t.snoozeUntil.Some? && now < t.snoozeUntil.value
  }

  /** The snooze test when it does not return: a snooze that has run out is cleared, any
      other state is left as it is. */
  function ExpireSnooze(t: Tracking): (r: Tracking)
    ensures r.lowStarted == t.lowStarted && r.highStarted == t.highStarted
    ensures t.isSnoozed && t.snoozeUntil.Some? ==> !r.isSnoozed && r.snoozeUntil.None?
    ensures !(t.isSnoozed && t.snoozeUntil.Some?) ==> r == t
  {
    if t.isSnoozed && t.snoozeUntil.Some? then t.(isSnoozed := false, snoozeUntil := None) else t
  }

  /** `_handle_snooze`: snoozed until `minutes` from now. */
  function Snooze(t: Tracking, now: int, minutes: int): (r: Tracking)
    ensures r.isSnoozed && r.snoozeUntil == Some(now + 60 * minutes)
    ensures r.lowStarted == t.lowStarted && r.highStarted == t.highStarted
  {
    t.(isSnoozed := true, snoozeUntil := Some(now + 60 * minutes))
  }

  /** `_handle_cancel_snooze`: the flag and the deadline are dropped. */
  function CancelSnooze(t: Tracking): (r: Tracking)
    ensures !r.isSnoozed && r.snoozeUntil.None?
    ensures r.lowStarted == t.lowStarted && r.highStarted == t.highStarted
  {
    t.(isSnoozed := false, snoozeUntil := None)
  }

  /** A snooze runs for exactly its minutes: before the deadline it is running, from the
      deadline on it is not, and cancelling ends it at once. */
  lemma SnoozeWindow(t: Tracking, start: int, minutes: int, now: int)
    ensures SnoozeRunning(Snooze(t, start, minutes), now) <==> now < start + 60 * minutes
    ensures !SnoozeRunning(CancelSnooze(t), now)
    ensures ExpireSnooze(CancelSnooze(t)) == CancelSnooze(t)
  {
  }
}
