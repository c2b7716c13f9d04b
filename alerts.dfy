/** The alarm of src/core/alerts.py: a three-state machine that owns at most one
    repeating playback loop. The playback thread is modelled as an abstract loop value
    (its kind) plus a count of loop starts; the stop event is a flag. Stopping a loop
    is taken to complete (the join's two-second timeout is not modelled). */
module Alerts {
  import opened Wrappers
  import Text
  import Paths

  /** `AlertState`. */
  datatype AlertState = Normal | LowAlert | HighAlert

  function StateValue(s: AlertState): string {
    match s
    case Normal => "normal"
    case LowAlert => "low_alert"
    case HighAlert => "high_alert"
  }

  // ---------------------------------------------------------------- the state machine

  /** What the alarm object holds: the state, the running loop (its kind), how many
      loops were ever started, and whether the stop event is set. */
  datatype Alarm = Alarm(state: AlertState, loop: Option<AlertState>, loopStarts: nat, stopSet: bool)

  const Initial := Alarm(Normal, None, 0, false)

  /** The loop, when one runs, is of the current kind and has not been told to stop;
      in NORMAL no loop runs. */
  predicate Consistent(a: Alarm) {
    && (a.loop.Some? ==> a.loop.value == a.state && a.state != Normal && !a.stopSet)
    && (a.state == Normal ==> a.loop.None?)
  }

  /** `_stop_current_alert`: a running loop is signalled and forgotten. */
  function StopLoop(a: Alarm): (r: Alarm)
    ensures r.loop.None? && r.state == a.state && r.loopStarts == a.loopStarts
    ensures a.loop.None? ==> r == a
    ensures a.loop.Some? ==> r.stopSet
  {
    if a.loop.Some? then a.(loop := None, stopSet := true) else a
  }

  /** `trigger_low_alert` (kind LOW_ALERT) and `trigger_high_alert` (kind HIGH_ALERT). */
  function Trigger(a: Alarm, kind: AlertState): Alarm
    requires kind != Normal
  {
    if a.state == kind then a
    else StopLoop(a).(state := kind, stopSet := false, loop := Some(kind), loopStarts := a.loopStarts + 1)
  }

  /** `clear_alert`. */
  function Clear(a: Alarm): Alarm {
    if a.state == Normal then a else StopLoop(a).(state := Normal)
  }

  /** `shutdown`: the loop stops, the state stays. */
  function Shutdown(a: Alarm): Alarm {
    StopLoop(a)
  }

  predicate IsAlerting(a: Alarm) { a.state != Normal }

  /** A trigger for the kind already active changes nothing; any other trigger replaces
      the loop with exactly one new loop of that kind. */
  lemma TriggerEffect(a: Alarm, kind: AlertState)
    requires kind != Normal
    ensures a.state == kind ==> Trigger(a, kind) == a
    ensures a.state != kind ==>
      var t := Trigger(a, kind);
      t.state == kind && t.loop == Some(kind) && t.loopStarts == a.loopStarts + 1 && !t.stopSet
    ensures Trigger(Trigger(a, kind), kind) == Trigger(a, kind)
  {
  }

  /** Clearing from NORMAL is a no-op; from an alarm it stops the loop and returns to NORMAL. */
  lemma ClearEffect(a: Alarm)
    ensures a.state == Normal ==> Clear(a) == a
    ensures a.state != Normal ==> Clear(a).state == Normal && Clear(a).loop.None? && Clear(a).loopStarts == a.loopStarts
    ensures !IsAlerting(Clear(a))
  {
  }

  /** Every operation keeps the alarm consistent, starting from the initial state. */
  lemma ConsistentPreserved(a: Alarm, kind: AlertState)
    requires Consistent(a) && kind != Normal
    ensures Consistent(Initial)
    ensures Consistent(Trigger(a, kind)) && Consistent(Clear(a)) && Consistent(Shutdown(a))
  {
  }

  /** `shutdown` leaves the state in place, so a later trigger of the same kind starts no
      loop: the alarm stays silent although it still reports alerting. */
  lemma ShutdownThenTriggerSilent(a: Alarm)
    requires a.state == LowAlert
    ensures Trigger(Shutdown(a), LowAlert).loop.None?
    ensures IsAlerting(Trigger(Shutdown(a), LowAlert))
  {
  }

  // ---------------------------------------------------------------- sound files

  /** What the file system says about a sound path: `exists()` and `is_file()`. */
  datatype FileKind = Missing | NotAFile | RegularFile

  /** `_validate_sound_file`. */
  predicate ValidSoundFile(k: FileKind) { k == RegularFile }

  /** `PurePath.suffix` of the last component: from its last dot, when that dot is neither
      the first nor the last character. */
  function Suffix(p: Paths.Path): (r: string)
    ensures r != [] ==> r[0] == '.' && |r| >= 2 && '.' !in r[1..]
  {
    var name := if |p.parts| == 0 then "" else p.parts[|p.parts| - 1];
    match Text.LastIndexOf(name, '.')
    case Some(i) => if 0 < i < |name| - 1 then name[i..] else ""
    case None => ""
  }

  /** `_is_mp3`: the lower-cased suffix is ".mp3" or ".mpeg". */
  predicate IsMp3(p: Paths.Path) {
    var x := Text.Lower(Suffix(p));
    x == ".mp3" || x == ".mpeg"
  }

  /** The suffix of `stem.ext` is `.ext` whenever the stem is non-empty. */
  lemma SuffixOfName(abs: bool, dir: seq<string>, stem: string, ext: string)
    requires |stem| > 0 && |ext| > 0 && '.' !in ext
    ensures Suffix(Paths.Path(abs, dir + [stem + "." + ext])) == "." + ext
  {
    var name := stem + "." + ext;
    assert (dir + [name])[|dir|] == name;
    assert name[|stem|] == '.' && name[|stem| + 1..] == ext;
    assert name[|stem|..] == "." + ext;
  }

  /** Detection ignores case: "alarm.MP3" plays through the music module. */
  lemma UpperCaseMp3(abs: bool, dir: seq<string>)
    ensures IsMp3(Paths.Path(abs, dir + ["alarm.MP3"]))
  {
    assert "alarm" + "." + "MP3" == "alarm.MP3";
    SuffixOfName(abs, dir, "alarm", "MP3");
    assert Text.Lower(".MP3") == ".mp3";
  }

  /** A hidden file named ".mp3" has no suffix, so it is not treated as MP3. */
  lemma HiddenNameHasNoSuffix(abs: bool, dir: seq<string>)
    ensures Suffix(Paths.Path(abs, dir + [".mp3"])) == ""
    ensures !IsMp3(Paths.Path(abs, dir + [".mp3"]))
  {
    assert (dir + [".mp3"])[|dir|] == ".mp3";
    assert Text.LastIndexOf(".mp3", '.') == Some(0);
  }

  /** Which path `_play_sound` takes. */
  datatype PlayOutcome = NoMixer | BadFile | NoMusicModule | PlayerError | PlayedMusic | PlayedSound

  predicate Played(o: PlayOutcome) { o == PlayedMusic || o == PlayedSound }

  /** `_play_sound`: the guards in order, then the music module for MP3 files and a
      `Sound` object otherwise; `playerOk` is whether pygame raised. */
  function PlaySound(mixer: bool, music: bool, file: FileKind, p: Paths.Path, playerOk: bool): (o: PlayOutcome)
    ensures Played(o) <==> mixer && ValidSoundFile(file) && (IsMp3(p) ==> music) && playerOk
    ensures o == PlayedMusic ==> IsMp3(p)
    ensures o == PlayedSound ==> !IsMp3(p)
    ensures !mixer ==> o == NoMixer
  {
    if !mixer then NoMixer
    else if !ValidSoundFile(file) then BadFile
    else if IsMp3(p) then
      if !music then NoMusicModule
      else if playerOk then PlayedMusic else PlayerError
    else if playerOk then PlayedSound else PlayerError
  }

  // ---------------------------------------------------------------- the object

  /** One attempt of the repeat loop: when (seconds after the loop started), which file,
      and whether it played. */
  datatype Attempt = Attempt(at: int, sound: Paths.Path, played: bool)

  /** The index of the first wait that the stop event interrupted. */
  function FirstStop(waits: seq<bool>): (k: nat)
    requires true in waits
    ensures k < |waits| && waits[k] && forall i :: 0 <= i < k ==> !waits[i]
  {
    if waits[0] then 0 else FirstStop(waits[1..]) + 1
  }

  /** `AlertSystem`. The pygame initialisation outcome and the file system are inputs. */
  class AlertSystem {
    const lowSound: Paths.Path
    const highSound: Paths.Path
    const interval: int
    const mixer: bool
    const music: bool
    var state: AlertState
    var loop: Option<AlertState>
    var loopStarts: nat
    var stopSet: bool

    function Model(): Alarm
      reads this
    {
      Alarm(state, loop, loopStarts, stopSet)
    }

    /** `__init__` with `_initialize_mixer`: both paths resolved under `resources`, the
        music module available only when the mixer came up. */
    constructor (resources: Paths.Path, low: string, high: string, alertInterval: int, mixerOk: bool, musicOk: bool)
      ensures lowSound == Paths.ResolveSoundPath(resources, low)
      ensures highSound == Paths.ResolveSoundPath(resources, high)
      ensures interval == alertInterval
      ensures mixer == mixerOk && music == (mixerOk && musicOk)
      ensures Model() == Initial
    {
      lowSound := Paths.ResolveSoundPath(resources, low);
      highSound := Paths.ResolveSoundPath(resources, high);
      interval := alertInterval;
      mixer := mixerOk;
      music := mixerOk && musicOk;
      state := Normal;
      loop := None;
      loopStarts := 0;
      stopSet := false;
    }

    method StopCurrentAlert()
      modifies this
      ensures Model() == StopLoop(old(Model()))
    {
      if loop.Some? {
        stopSet := true;
        loop := None;
      }
    }

    method TriggerLowAlert()
      modifies this
      ensures Model() == Trigger(old(Model()), LowAlert)
    {
      if state == LowAlert {
        return;
      }
      StopCurrentAlert();
      state := LowAlert;
      stopSet := false;
      loop := Some(LowAlert);
      loopStarts := loopStarts + 1;
    }

    method TriggerHighAlert()
      modifies this
      ensures Model() == Trigger(old(Model()), HighAlert)
    {
      if state == HighAlert {
        return;
      }
      StopCurrentAlert();
      state := HighAlert;
      stopSet := false;
      loop := Some(HighAlert);
      loopStarts := loopStarts + 1;
    }

    method ClearAlert()
      modifies this
      ensures Model() == Clear(old(Model()))
    {
      if state == Normal {
        return;
      }
      StopCurrentAlert();
      state := Normal;
    }

    /** `shutdown`; `pygame.mixer.quit` is outside the model. */
    method ShutdownSystem()
      modifies this
      ensures Model() == Shutdown(old(Model()))
    {
      StopCurrentAlert();
    }

    function GetState(): (s: AlertState)
      reads this
      ensures s == Model().state
    {
      state
    }

    function IsAlertingNow(): (b: bool)
      reads this
      ensures b <==> IsAlerting(Model())
      ensures b <==> state == LowAlert || state == HighAlert
    {
      state != Normal
    }

    /** The sound the loop of `kind` plays: the low sound for LOW_ALERT, the high sound
        for anything else. */
    function SoundFor(kind: AlertState): (p: Paths.Path)
      reads this
      ensures kind == LowAlert ==> p == lowSound
      ensures kind != LowAlert ==> p == highSound
    {
      if kind == LowAlert then lowSound else highSound
    }

    /** `_alert_loop`: one attempt straight away, then one after every wait that ran to
        its timeout, until a wait is interrupted by the stop event. `waits[i]` says
        whether the i-th wait was interrupted; `file` and `playerOk` are what the file
        system and pygame answer throughout. A failed attempt does not end the loop. */
    method AlertLoop(kind: AlertState, file: FileKind, playerOk: bool, waits: seq<bool>) returns (attempts: seq<Attempt>)
      requires true in waits
      ensures |attempts| == FirstStop(waits) + 1
      ensures forall i :: 0 <= i < |attempts| ==>
        attempts[i] == Attempt(i * interval, SoundFor(kind), Played(PlaySound(mixer, music, file, SoundFor(kind), playerOk)))
      ensures forall i :: 0 <= i < |attempts| ==>
        attempts[i].sound == (if kind == LowAlert then lowSound else highSound)
    {
      var sound := if kind == LowAlert then lowSound else highSound;
      var played := Played(PlaySound(mixer, music, file, sound, playerOk));
      attempts := [Attempt(0, sound, played)];
      var i := 0;
      var stop := FirstStop(waits);
      while true
        invariant 0 <= i <= stop
        invariant |attempts| == i + 1
        invariant forall j :: 0 <= j < |attempts| ==> attempts[j] == Attempt(j * interval, sound, played)
        decreases stop - i
      {
        if waits[i] {
          break;
        }
        i := i + 1;
        attempts := attempts + [Attempt(i * interval, sound, played)];
      }
    }
  }
}
