/** The alert decisions of the first desktop interface, `BearAlarmApp` in src/ui/app.py:
    `_check_thresholds` with schedule-aware thresholds and persistence, the rate-limited
    contact messages of `_send_alert_messages`, and the snooze handlers. Both clocks the
    source reads (seconds for persistence, the wall clock for schedules) are parameters,
    and so is the result of each `send_imessage` call. */
module FletApp {
  import opened Wrappers
  import Config
  import Alerts
  import Database
  import Models
  import opened AppState

  // ---------------------------------------------------------------- evaluation

  /** One evaluation: the new tracking state, what happens to the alarm (and, with a
      trigger, the messages of that kind), and whether resolving the thresholds raised. */
  datatype Decision = Decision(next: Tracking, action: Action, raised: bool)

  /** `_check_thresholds` as written: the snooze is consulted first, then the thresholds
      are resolved, and only then is the urgent low checked. */
  function Evaluate(t: Tracking, cfg: Config.AlertsConfig, clock: Config.WallClock, now: int, g: real): (d: Decision)
    ensures SnoozeRunning(t, now) ==> d == Decision(t, Nothing, false)
    ensures !SnoozeRunning(t, now) ==>
      d.next.isSnoozed == ExpireSnooze(t).isSnoozed && d.next.snoozeUntil == ExpireSnooze(t).snoozeUntil
    ensures d.raised <==> !SnoozeRunning(t, now) && Config.GetEffectiveThresholds(cfg, clock).Err?
    ensures d.raised ==> d.action == Nothing && d.next == ExpireSnooze(t)
    ensures !SnoozeRunning(t, now) && !d.raised && g <= cfg.urgentLow ==>
      d.action == SoundLow && d.next.lowStarted == Some(t.lowStarted.GetOr(now)) && d.next.highStarted.None?
    ensures !SnoozeRunning(t, now) && !d.raised && !(g <= cfg.urgentLow) ==>
      var th := Config.GetEffectiveThresholds(cfg, clock).value;
      && (g <= th.low ==>
            d.next.lowStarted == Some(t.lowStarted.GetOr(now)) && d.next.highStarted.None?
            && (d.action == SoundLow <==> Persisted(t.lowStarted.GetOr(now), now, th.lowPersist))
            && (d.action == SoundLow || d.action == Nothing))
      && (!(g <= th.low) && g >= th.high ==>
            d.next.highStarted == Some(t.highStarted.GetOr(now)) && d.next.lowStarted.None?
            && (d.action == SoundHigh <==> Persisted(t.highStarted.GetOr(now), now, th.highPersist))
            && (d.action == SoundHigh || d.action == Nothing))
      && (th.low < g < th.high ==>
            d.action == Silence && d.next.lowStarted.None? && d.next.highStarted.None?)
  {
    if SnoozeRunning(t, now) then Decision(t, Nothing, false)
    else
      var t1 := ExpireSnooze(t);
      match Config.GetEffectiveThresholds(cfg, clock)
      case Err(_) => Decision(t1, Nothing, true)
      case Ok(th) =>
        if g <= cfg.urgentLow then
          Decision(t1.(lowStarted := Some(t1.lowStarted.GetOr(now)), highStarted := None), SoundLow, false)
        else if g <= th.low then
          var start := t1.lowStarted.GetOr(now);
          Decision(t1.(lowStarted := Some(start), highStarted := None),
                   if Persisted(start, now, th.lowPersist) then SoundLow else Nothing, false)
        else if g >= th.high then
          var start := t1.highStarted.GetOr(now);
          Decision(t1.(highStarted := Some(start), lowStarted := None),
                   if Persisted(start, now, th.highPersist) then SoundHigh else Nothing, false)
        else Decision(t1.(lowStarted := None, highStarted := None), Silence, false)
  }

  /** A low that persists: the first low tick records its time, and later low ticks keep
      that time and sound exactly once the persistence minutes have passed since it. */
  lemma LowPersistence(cfg: Config.AlertsConfig, clock: Config.WallClock, t0: int, t1: int, g0: real, g1: real)
    requires Config.GetEffectiveThresholds(cfg, clock).Ok?
    requires var th := Config.GetEffectiveThresholds(cfg, clock).value;
      cfg.urgentLow < g0 <= th.low && cfg.urgentLow < g1 <= th.low
    ensures var th := Config.GetEffectiveThresholds(cfg, clock).value;
      var first := Evaluate(Fresh, cfg, clock, t0, g0);
      var second := Evaluate(first.next, cfg, clock, t1, g1);
      && first.next.lowStarted == Some(t0)
      && (first.action == SoundLow <==> th.lowPersist <= 0)
      && second.next.lowStarted == Some(t0)
      && (second.action == SoundLow <==> t1 - t0 >= 60 * th.lowPersist)
  {
    var first := Evaluate(Fresh, cfg, clock, t0, g0);
    assert first.next == Tracking(false, None, Some(t0), None);
  }

  /** A normal reading restarts the persistence clock: the next low is a first low tick. */
  lemma NormalRestartsPersistence(t: Tracking, cfg: Config.AlertsConfig, clock: Config.WallClock, t0: int, t1: int, g0: real, g1: real)
    requires !SnoozeRunning(t, t0) && !t.isSnoozed
    requires Config.GetEffectiveThresholds(cfg, clock).Ok?
    requires var th := Config.GetEffectiveThresholds(cfg, clock).value;
      th.low < g0 < th.high && cfg.urgentLow < g1 <= th.low
    ensures var second := Evaluate(Evaluate(t, cfg, clock, t0, g0).next, cfg, clock, t1, g1);
      second.next.lowStarted == Some(t1)
  {
    var first := Evaluate(t, cfg, clock, t0, g0);
    assert !first.next.isSnoozed && first.next.lowStarted.None?;
  }

  // ---------------------------------------------------------------- finding: urgent low under a snooze

  /** A configuration without schedules or contacts: urgent low 2.8, low 3.9, high 15.0. */
  const PlainConfig := Config.DefaultAlerts

  /** As written, a reading of 2.0 (below the urgent low of 2.8) during a snooze is
      ignored: no alarm and no state change. */
  lemma UrgentLowSuppressedBySnooze()
    ensures var t := Snooze(Fresh, 0, 30);
      Evaluate(t, PlainConfig, Config.WallClock(0, 0), 60, 2.0) == Decision(t, Nothing, false)
  {
  }

  /** The evaluation the comment at the urgent-low test asks for: an urgent low alerts
      before anything else, the snooze included, and leaves the snooze running. */
  function EvaluateUrgentFirst(t: Tracking, cfg: Config.AlertsConfig, clock: Config.WallClock, now: int, g: real): (d: Decision)
    ensures g <= cfg.urgentLow ==> d.action == SoundLow && !d.raised
    ensures g <= cfg.urgentLow ==> d.next == t.(lowStarted := Some(t.lowStarted.GetOr(now)), highStarted := None)
    ensures !(g <= cfg.urgentLow) ==> d == Evaluate(t, cfg, clock, now, g)
  {
    if g <= cfg.urgentLow then Decision(t.(lowStarted := Some(t.lowStarted.GetOr(now)), highStarted := None), SoundLow, false)
    else Evaluate(t, cfg, clock, now, g)
  }

  /** With the urgent low first, no snooze and no unresolvable schedule can silence an
      urgent low, and everywhere else the two evaluations agree. */
  lemma UrgentFirstNeverSuppressed(t: Tracking, cfg: Config.AlertsConfig, clock: Config.WallClock, now: int, g: real)
    ensures g <= cfg.urgentLow ==> EvaluateUrgentFirst(t, cfg, clock, now, g).action == SoundLow
    ensures !SnoozeRunning(t, now) && Config.GetEffectiveThresholds(cfg, clock).Ok? ==>
      EvaluateUrgentFirst(t, cfg, clock, now, g).action == Evaluate(t, cfg, clock, now, g).action
  {
  }

  // ---------------------------------------------------------------- contact messages

  datatype Kind = LowKind | HighKind

  function KindName(k: Kind): string {
    match k
    case LowKind => "low"
    case HighKind => "high"
  }

  /** `f"{contact.phone}_{alert_type}"`. */
  function SnoozeKey(phone: string, k: Kind): string {
    phone + "_" + KindName(k)
  }

  /** Different phones or different kinds never share a snooze entry. */
  lemma SnoozeKeyInjective(p1: string, k1: Kind, p2: string, k2: Kind)
    ensures SnoozeKey(p1, k1) == SnoozeKey(p2, k2) <==> p1 == p2 && k1 == k2
  {
    var a, b := SnoozeKey(p1, k1), SnoozeKey(p2, k2);
    if k1 != k2 {
      assert a[|a| - 1] == (if k1 == LowKind then 'w' else 'h');
      assert b[|b| - 1] == (if k2 == LowKind then 'w' else 'h');
    } else if a == b {
      assert |p1| == |p2|;
      assert p1 == a[..|p1|] && p2 == b[..|p2|];
    }
  }

  /** The contact asks for messages of this kind. */
  predicate Wants(c: Config.Contact, k: Kind) {
    c.enabled && (if k == LowKind then c.messageOnLow else c.messageOnHigh)
  }

  function SnoozeMinutes(c: Config.Contact, k: Kind): int {
    if k == LowKind then c.lowSnooze else c.highSnooze
  }

  /** No entry, or its time has come. */
  predicate Due(snoozes: map<string, int>, key: string, now: int) {
    key !in snoozes || now >= snoozes[key]
  }

  /** The entry for `key` is the same in both maps (present in both with one value, or
      absent from both). */
  predicate SameEntry(m1: map<string, int>, m2: map<string, int>, key: string) {
    (key in m1 <==> key in m2) && (key in m1 ==> m1[key] == m2[key])
  }

  /** The snooze keys of the contacts from position `from` on. */
  function Keys(cs: seq<Config.Contact>, k: Kind, from: nat): set<string> {
    set j | from <= j < |cs| :: SnoozeKey(cs[j].phone, k)
  }

  /** One contact's turn: whether it is messaged. */
  predicate Attempts(c: Config.Contact, k: Kind, snoozes: map<string, int>, now: int) {
    Wants(c, k) && Due(snoozes, SnoozeKey(c.phone, k), now)
  }

  /** One contact's turn: the snooze map after it; only a message that went through moves
      the contact's entry. */
  function AfterContact(c: Config.Contact, k: Kind, snoozes: map<string, int>, now: int, sent: bool): (r: map<string, int>)
    ensures forall key :: key != SnoozeKey(c.phone, k) ==> SameEntry(r, snoozes, key)
    ensures Attempts(c, k, snoozes, now) && sent ==> r == snoozes[SnoozeKey(c.phone, k) := now + 60 * SnoozeMinutes(c, k)]
    ensures !(Attempts(c, k, snoozes, now) && sent) ==> r == snoozes
  {
    if Attempts(c, k, snoozes, now) && sent then snoozes[SnoozeKey(c.phone, k) := now + 60 * SnoozeMinutes(c, k)]
    else snoozes
  }

  /** What `_send_alert_messages` leaves: the snooze map, and for each contact whether a
      message was attempted. */
  datatype Sending = Sending(snoozes: map<string, int>, attempted: seq<bool>)

  /** The loop over the contacts from position `from` on, in order; `ok[i]` is what
      `send_imessage` gives for the i-th contact. A contact sharing a phone with an
      earlier one sees that contact's new entry. */
  function SendFrom(cs: seq<Config.Contact>, k: Kind, snoozes: map<string, int>, now: int, ok: seq<bool>, from: nat): (r: Sending)
    requires |ok| == |cs| && from <= |cs|
    ensures |r.attempted| == |cs| - from
    decreases |cs| - from
  {
    if from == |cs| then Sending(snoozes, [])
    else
      var rest := SendFrom(cs, k, AfterContact(cs[from], k, snoozes, now, ok[from]), now, ok, from + 1);
      Sending(rest.snoozes, [Attempts(cs[from], k, snoozes, now)] + rest.attempted)
  }

  /** The whole loop. */
  function SendMessages(cs: seq<Config.Contact>, k: Kind, snoozes: map<string, int>, now: int, ok: seq<bool>): (r: Sending)
    requires |ok| == |cs|
    ensures |r.attempted| == |cs|
  {
    SendFrom(cs, k, snoozes, now, ok, 0)
  }

  /** One turn of the loop. */
  lemma SendStep(cs: seq<Config.Contact>, k: Kind, snoozes: map<string, int>, now: int, ok: seq<bool>, from: nat)
    requires |ok| == |cs| && from < |cs|
    ensures var rest := SendFrom(cs, k, AfterContact(cs[from], k, snoozes, now, ok[from]), now, ok, from + 1);
      SendFrom(cs, k, snoozes, now, ok, from) == Sending(rest.snoozes, [Attempts(cs[from], k, snoozes, now)] + rest.attempted)
  {
  }

  /** Only contacts that ask for this kind are messaged; only their entries can change;
      no entry is ever removed; and when no message goes through the map is unchanged. */
  lemma {:induction false} SendFrame(cs: seq<Config.Contact>, k: Kind, snoozes: map<string, int>, now: int, ok: seq<bool>, from: nat)
    requires |ok| == |cs| && from <= |cs|
    ensures var r := SendFrom(cs, k, snoozes, now, ok, from);
      && (forall i :: from <= i < |cs| && r.attempted[i - from] ==> Wants(cs[i], k))
      && (forall key :: key !in Keys(cs, k, from) ==> SameEntry(r.snoozes, snoozes, key))
      && snoozes.Keys <= r.snoozes.Keys
      && ((forall i :: from <= i < |cs| ==> !ok[i]) ==> r.snoozes == snoozes)
    decreases |cs| - from
  {
    if from < |cs| {
      var s1 := AfterContact(cs[from], k, snoozes, now, ok[from]);
      SendFrame(cs, k, s1, now, ok, from + 1);
      SendStep(cs, k, snoozes, now, ok, from);
      var rest := SendFrom(cs, k, s1, now, ok, from + 1);
      var r := SendFrom(cs, k, snoozes, now, ok, from);
      assert Keys(cs, k, from) == {SnoozeKey(cs[from].phone, k)} + Keys(cs, k, from + 1);
      forall i | from <= i < |cs| && r.attempted[i - from] ensures Wants(cs[i], k) {
        if i > from { assert r.attempted[i - from] == rest.attempted[i - (from + 1)]; }
      }
    }
  }

  /** Every contact has a phone of its own. */
  predicate DistinctPhones(cs: seq<Config.Contact>) {
    forall a, b :: 0 <= a < b < |cs| ==> cs[a].phone != cs[b].phone
  }

  /** With distinct phones, the contacts after `from` do not touch its entry. */
  lemma LaterContactsKeepEntry(cs: seq<Config.Contact>, k: Kind, snoozes: map<string, int>, now: int, ok: seq<bool>, from: nat)
    requires |ok| == |cs| && from < |cs| && DistinctPhones(cs)
    ensures var key := SnoozeKey(cs[from].phone, k);
      SameEntry(SendFrom(cs, k, snoozes, now, ok, from).snoozes, AfterContact(cs[from], k, snoozes, now, ok[from]), key)
  {
    var key := SnoozeKey(cs[from].phone, k);
    SendStep(cs, k, snoozes, now, ok, from);
    SendFrame(cs, k, AfterContact(cs[from], k, snoozes, now, ok[from]), now, ok, from + 1);
    if key in Keys(cs, k, from + 1) {
      var j :| from + 1 <= j < |cs| && key == SnoozeKey(cs[j].phone, k);
      SnoozeKeyInjective(cs[from].phone, k, cs[j].phone, k);
      assert false;
    }
  }

  /** The loop from `from` on, seen from contact `i`: with distinct phones what happens
      to contact `i` depends only on the map it started from. */
  lemma {:induction false} DistinctFrom(cs: seq<Config.Contact>, k: Kind, snoozes: map<string, int>, now: int, ok: seq<bool>, from: nat, i: nat)
    requires |ok| == |cs| && from <= i < |cs| && DistinctPhones(cs)
    ensures var r := SendFrom(cs, k, snoozes, now, ok, from);
      var key := SnoozeKey(cs[i].phone, k);
      && (r.attempted[i - from] <==> Attempts(cs[i], k, snoozes, now))
      && SameEntry(r.snoozes, AfterContact(cs[i], k, snoozes, now, ok[i]), key)
    decreases i - from
  {
    SendStep(cs, k, snoozes, now, ok, from);
    if i == from {
      LaterContactsKeepEntry(cs, k, snoozes, now, ok, from);
    } else {
      var s1 := AfterContact(cs[from], k, snoozes, now, ok[from]);
      var key := SnoozeKey(cs[i].phone, k);
      SnoozeKeyInjective(cs[from].phone, k, cs[i].phone, k);
      assert SameEntry(s1, snoozes, key);
      DistinctFrom(cs, k, s1, now, ok, from + 1, i);
      assert Attempts(cs[i], k, s1, now) == Attempts(cs[i], k, snoozes, now);
      assert SameEntry(AfterContact(cs[i], k, s1, now, ok[i]), AfterContact(cs[i], k, snoozes, now, ok[i]), key);
    }
  }

  /** When every contact has a phone of its own, each contact is handled on its own: a
      message is attempted exactly when the contact wants this kind and its entry is due,
      a successful attempt sets the entry to the snooze minutes from now, and otherwise
      the entry is kept. */
  lemma DistinctContacts(cs: seq<Config.Contact>, k: Kind, snoozes: map<string, int>, now: int, ok: seq<bool>, i: nat)
    requires |ok| == |cs| && i < |cs| && DistinctPhones(cs)
    ensures var r := SendMessages(cs, k, snoozes, now, ok);
      var key := SnoozeKey(cs[i].phone, k);
      && (r.attempted[i] <==> Wants(cs[i], k) && Due(snoozes, key, now))
      && (r.attempted[i] && ok[i] ==> key in r.snoozes && r.snoozes[key] == now + 60 * SnoozeMinutes(cs[i], k))
      && (!(r.attempted[i] && ok[i]) ==> SameEntry(r.snoozes, snoozes, key))
  {
    DistinctFrom(cs, k, snoozes, now, ok, 0, i);
  }

  /** Two enabled contacts with one phone: once the first message goes through, the
      second contact gets none, since the shared entry now lies in the future. */
  lemma SharedPhoneMessagedOnce(c1: Config.Contact, c2: Config.Contact, k: Kind, now: int)
    requires Wants(c1, k) && Wants(c2, k) && c1.phone == c2.phone && SnoozeMinutes(c1, k) > 0
    ensures SendMessages([c1, c2], k, map[], now, [true, true]).attempted == [true, false]
  {
    var cs, ok := [c1, c2], [true, true];
    var s1 := AfterContact(c1, k, map[], now, true);
    SendStep(cs, k, map[], now, ok, 0);
    SendStep(cs, k, s1, now, ok, 1);
    assert !Attempts(c2, k, s1, now);
  }

  /** The snooze map after an evaluation: a trigger sends the messages of its kind. */
  function Notified(act: Action, cs: seq<Config.Contact>, snoozes: map<string, int>, now: int, ok: seq<bool>): map<string, int>
    requires |ok| == |cs|
  {
    match act
    case SoundLow => SendMessages(cs, LowKind, snoozes, now, ok).snoozes
    case SoundHigh => SendMessages(cs, HighKind, snoozes, now, ok).snoozes
    case _ => snoozes
  }

  /** One turn of the loop keeps the relation between what is done and the whole loop. */
  lemma SendLoopStep(cs: seq<Config.Contact>, k: Kind, snoozes: map<string, int>, now: int, ok: seq<bool>, i: nat,
                     attempted: seq<bool>, total: Sending)
    requires |ok| == |cs| && i < |cs|
    requires SendFrom(cs, k, snoozes, now, ok, i).snoozes == total.snoozes
    requires attempted + SendFrom(cs, k, snoozes, now, ok, i).attempted == total.attempted
    ensures var s1 := AfterContact(cs[i], k, snoozes, now, ok[i]);
      && SendFrom(cs, k, s1, now, ok, i + 1).snoozes == total.snoozes
      && (attempted + [Attempts(cs[i], k, snoozes, now)]) + SendFrom(cs, k, s1, now, ok, i + 1).attempted == total.attempted
  {
    SendStep(cs, k, snoozes, now, ok, i);
    var rest := SendFrom(cs, k, AfterContact(cs[i], k, snoozes, now, ok[i]), now, ok, i + 1);
    assert (attempted + [Attempts(cs[i], k, snoozes, now)]) + rest.attempted
      == attempted + ([Attempts(cs[i], k, snoozes, now)] + rest.attempted);
  }

  /** The loop of `_send_alert_messages` over the contacts, in order, on a snooze map. */
  method SendAll(cs: seq<Config.Contact>, k: Kind, start: map<string, int>, now: int, ok: seq<bool>)
    returns (snoozes: map<string, int>, attempted: seq<bool>)
    requires |ok| == |cs|
    ensures SendMessages(cs, k, start, now, ok) == Sending(snoozes, attempted)
  {
    snoozes := start;
    ghost var total := SendFrom(cs, k, snoozes, now, ok, 0);
    attempted := [];
    var i := 0;
    while i < |cs|
      invariant 0 <= i <= |cs|
      invariant SendFrom(cs, k, snoozes, now, ok, i).snoozes == total.snoozes
      invariant attempted + SendFrom(cs, k, snoozes, now, ok, i).attempted == total.attempted
    {
      var c := cs[i];
      var key := SnoozeKey(c.phone, k);
      ghost var before := snoozes;
      var attempt := Wants(c, k) && (key !in snoozes || now >= snoozes[key]);
      if attempt && ok[i] {
        snoozes := snoozes[key := now + 60 * SnoozeMinutes(c, k)];
      }
      assert attempt == Attempts(c, k, before, now);
      assert snoozes == AfterContact(c, k, before, now, ok[i]);
      SendLoopStep(cs, k, before, now, ok, i, attempted, total);
      attempted := attempted + [attempt];
      i := i + 1;
    }
  }

  // ---------------------------------------------------------------- the application object

  /** The fields of `BearAlarmApp` the decisions use. The emergency set of line 58 is only
      ever cleared and is not kept. */
  class App {
    const cfg: Config.AlertsConfig
    const alerts: Alerts.AlertSystem
    const db: Database.Store
    var isSnoozed: bool
    var snoozeUntil: Option<int>
    var lowStarted: Option<int>
    var highStarted: Option<int>
    var messageSnooze: map<string, int>
    var currentGlucose: Option<real>

    function State(): Tracking
      reads this
    {
      Tracking(isSnoozed, snoozeUntil, lowStarted, highStarted)
    }

    constructor (config: Config.AlertsConfig, system: Alerts.AlertSystem, store: Database.Store)
      ensures cfg == config && alerts == system && db == store
      ensures State() == Fresh && messageSnooze == map[] && currentGlucose.None?
    {
      cfg := config;
      alerts := system;
      db := store;
      isSnoozed := false;
      snoozeUntil := None;
      lowStarted := None;
      highStarted := None;
      messageSnooze := map[];
      currentGlucose := None;
    }

    /** `_send_alert_messages`: the loop over the contacts, updating the snooze map. */
    method SendAlertMessages(k: Kind, now: int, ok: seq<bool>) returns (attempted: seq<bool>)
      requires |ok| == |cfg.contacts|
      modifies this`messageSnooze
      ensures var r := SendMessages(cfg.contacts, k, old(messageSnooze), now, ok);
        messageSnooze == r.snoozes && attempted == r.attempted
    {
      messageSnooze, attempted := SendAll(cfg.contacts, k, messageSnooze, now, ok);
    }

    /** `_check_thresholds`, sending the messages of the kind it triggers. */
    method CheckThresholds(g: real, now: int, clock: Config.WallClock, ok: seq<bool>) returns (raised: bool)
      requires |ok| == |cfg.contacts|
      modifies this, alerts
      ensures var d := Evaluate(old(State()), cfg, clock, now, g);
        && State() == d.next && raised == d.raised
        && alerts.Model() == ApplyAction(old(alerts.Model()), d.action)
        && messageSnooze == Notified(d.action, cfg.contacts, old(messageSnooze), now, ok)
      ensures currentGlucose == old(currentGlucose)
    {
      ghost var t0 := State();
      ghost var m0 := messageSnooze;
      ghost var d := Evaluate(t0, cfg, clock, now, g);
      raised := false;
      if isSnoozed && snoozeUntil.Some? {
        if now >= snoozeUntil.value {
          isSnoozed := false;
          snoozeUntil := None;
        } else {
          assert d == Decision(t0, Nothing, false);
          return;
        }
      }
      ghost var t1 := State();
      assert t1 == ExpireSnooze(t0) && !SnoozeRunning(t0, now);
      var thresholds := Config.GetEffectiveThresholds(cfg, clock);
      if thresholds.Err? {
        assert d == Decision(t1, Nothing, true);
        raised := true;
        return;
      }
      var th := thresholds.value;
      if g <= cfg.urgentLow {
        assert d.action == SoundLow;
        alerts.TriggerLowAlert();
        var _ := SendAlertMessages(LowKind, now, ok);
        assert messageSnooze == Notified(SoundLow, cfg.contacts, m0, now, ok);
        lowStarted := Some(lowStarted.GetOr(now));
        highStarted := None;
        return;
      }
      if g <= th.low {
        if lowStarted.None? {
          lowStarted := Some(now);
        }
        if now - lowStarted.value >= 60 * th.lowPersist {
          assert d.action == SoundLow;
          alerts.TriggerLowAlert();
          var _ := SendAlertMessages(LowKind, now, ok);
          assert messageSnooze == Notified(SoundLow, cfg.contacts, m0, now, ok);
        } else {
          assert d.action == Nothing;
        }
        highStarted := None;
      } else if g >= th.high {
        if highStarted.None? {
          highStarted := Some(now);
        }
        if now - highStarted.value >= 60 * th.highPersist {
          assert d.action == SoundHigh;
          alerts.TriggerHighAlert();
          var _ := SendAlertMessages(HighKind, now, ok);
          assert messageSnooze == Notified(SoundHigh, cfg.contacts, m0, now, ok);
        } else {
          assert d.action == Nothing;
        }
        lowStarted := None;
      } else {
        assert d.action == Silence;
        alerts.ClearAlert();
        lowStarted := None;
        highStarted := None;
      }
    }

    /** A new reading from the poll (src/ui/app.py:445 and 463): it becomes the current
        glucose and is checked. */
    method OnReading(g: real, now: int, clock: Config.WallClock, ok: seq<bool>) returns (raised: bool)
      requires |ok| == |cfg.contacts|
      modifies this, alerts
      ensures currentGlucose == Some(g)
      ensures var d := Evaluate(old(State()), cfg, clock, now, g);
        && State() == d.next && raised == d.raised && alerts.Model() == ApplyAction(old(alerts.Model()), d.action)
        && messageSnooze == Notified(d.action, cfg.contacts, old(messageSnooze), now, ok)
    {
      currentGlucose := Some(g);
      raised := CheckThresholds(g, now, clock, ok);
    }

    /** `_handle_snooze`: snoozed until `minutes` from now, the alarm cleared, and the
        snooze recorded in the database. */
    method HandleSnooze(minutes: int, now: int)
      requires db.Valid()
      modifies this, alerts, db
      ensures State() == Snooze(old(State()), now, minutes)
      ensures messageSnooze == old(messageSnooze) && currentGlucose == old(currentGlucose)
      ensures alerts.Model() == Alerts.Clear(old(alerts.Model()))
      ensures db.Valid() && db.snoozes == old(db.snoozes) + [Models.SnoozeEvent(Some(old(db.nextSnoozeId)), now, minutes, None)]
      ensures db.readings == old(db.readings) && db.settings == old(db.settings)
      ensures db.nextReadingId == old(db.nextReadingId) && db.nextSnoozeId == old(db.nextSnoozeId) + 1
    {
      isSnoozed := true;
      snoozeUntil := Some(now + 60 * minutes);
      alerts.ClearAlert();
      var _ := db.AddSnooze(minutes, None, now);
    }

    /** `_handle_cancel_snooze`: the snooze is dropped, the database's active snooze is
        cut short, and a current reading other than 0.0 is evaluated again. */
    method HandleCancelSnooze(now: int, clock: Config.WallClock, ok: seq<bool>) returns (raised: bool)
      requires db.Valid() && |ok| == |cfg.contacts|
      modifies this, alerts, db
      ensures db.Valid()
      ensures db.readings == old(db.readings) && db.settings == old(db.settings)
      ensures db.snoozes == Database.CancelledSnoozes(old(db.snoozes), now)
      ensures db.nextReadingId == old(db.nextReadingId) && db.nextSnoozeId == old(db.nextSnoozeId)
      ensures currentGlucose == old(currentGlucose)
      ensures old(currentGlucose).Some? && old(currentGlucose).value != 0.0 ==>
        var d := Evaluate(CancelSnooze(old(State())), cfg, clock, now, old(currentGlucose).value);
        && State() == d.next && raised == d.raised && alerts.Model() == ApplyAction(old(alerts.Model()), d.action)
        && messageSnooze == Notified(d.action, cfg.contacts, old(messageSnooze), now, ok)
      ensures !(old(currentGlucose).Some? && old(currentGlucose).value != 0.0) ==>
        State() == CancelSnooze(old(State())) && !raised && alerts.Model() == old(alerts.Model())
        && messageSnooze == old(messageSnooze)
    {
      ghost var t1 := CancelSnooze(State());
      ghost var m0 := messageSnooze;
      ghost var a0 := alerts.Model();
      isSnoozed := false;
      snoozeUntil := None;
      assert State() == t1;
      ghost var cut := Database.CancelledSnoozes(db.snoozes, now);
      var _ := db.CancelSnooze(now);
      assert db.snoozes == cut;
      assert State() == t1 && messageSnooze == m0 && alerts.Model() == a0;
      raised := false;
      if currentGlucose.Some? && currentGlucose.value != 0.0 {
        ghost var d := Evaluate(t1, cfg, clock, now, currentGlucose.value);
        raised := CheckThresholds(currentGlucose.value, now, clock, ok);
        assert State() == d.next && raised == d.raised;
        assert alerts.Model() == ApplyAction(a0, d.action) && messageSnooze == Notified(d.action, cfg.contacts, m0, now, ok);
        assert db.snoozes == cut;
      } else {
        assert State() == t1 && messageSnooze == m0 && alerts.Model() == a0;
      }
    }
  }
}
