/** The start-up of the headless monitor, src/cli.py `main`: refuse to run without
    credentials, check both alert sounds, then read the start-up delay typed by the user.
    What the file system says about each sound and the typed line are inputs. */
module Cli {
  import opened Wrappers
  import Text
  import Paths
  import Alerts
  import Config

  /** The one complaint recorded about a sound file. */
  datatype SoundProblem = NotFound | NotAFile | UnsupportedFormat(suffix: string)

  /** Which alarm the sound belongs to. */
  datatype Which = LowSound | HighSound

  datatype SoundError = SoundError(which: Which, path: Paths.Path, problem: SoundProblem)

  predicate SupportedSuffix(p: Paths.Path) {
    var x := Text.Lower(Alerts.Suffix(p));
    x == ".wav" || x == ".mp3" || x == ".mpeg"
  }

  /** The checks in their order: missing, then not a regular file, then the suffix,
      compared without regard to case. */
  function CheckSound(file: Alerts.FileKind, p: Paths.Path): (r: Option<SoundProblem>)
    ensures file == Alerts.Missing ==> r == Some(NotFound)
    ensures file == Alerts.NotAFile ==> r == Some(NotAFile)
    ensures r.None? <==> file == Alerts.RegularFile && SupportedSuffix(p)
    ensures file == Alerts.RegularFile && !SupportedSuffix(p) ==> r == Some(UnsupportedFormat(Alerts.Suffix(p)))
  {
    match file
    case Missing => Some(NotFound)
    case NotAFile => Some(NotAFile)
    case RegularFile => if !SupportedSuffix(p) then Some(UnsupportedFormat(Alerts.Suffix(p))) else None
  }

  /** Every file the alarm can play passes the start-up check's suffix test. */
  lemma Mp3IsSupported(p: Paths.Path)
    requires Alerts.IsMp3(p)
    ensures CheckSound(Alerts.RegularFile, p).None?
  {
  }

  /** The `errors` list: the low sound's complaint, then the high sound's. */
  function Complaints(low: Paths.Path, lowFile: Alerts.FileKind, high: Paths.Path, highFile: Alerts.FileKind)
    : (errors: seq<SoundError>)
    ensures |errors| <= 2
    ensures errors == [] <==> CheckSound(lowFile, low).None? && CheckSound(highFile, high).None?
    ensures CheckSound(lowFile, low).Some? ==> errors[0] == SoundError(LowSound, low, CheckSound(lowFile, low).value)
    ensures CheckSound(highFile, high).Some? ==>
      errors[|errors| - 1] == SoundError(HighSound, high, CheckSound(highFile, high).value)
    ensures |errors| == (if CheckSound(lowFile, low).Some? then 1 else 0) + (if CheckSound(highFile, high).Some? then 1 else 0)
  {
    var l := CheckSound(lowFile, low);
    var h := CheckSound(highFile, high);
    (if l.Some? then [SoundError(LowSound, low, l.value)] else [])
    + (if h.Some? then [SoundError(HighSound, high, h.value)] else [])
  }

  /** Building the list one check at a time, as `main` does. */
  method CollectSoundErrors(low: Paths.Path, lowFile: Alerts.FileKind, high: Paths.Path, highFile: Alerts.FileKind)
    returns (errors: seq<SoundError>)
    ensures errors == Complaints(low, lowFile, high, highFile)
  {
    errors := [];
    var l := CheckSound(lowFile, low);
    if l.Some? {
      errors := errors + [SoundError(LowSound, low, l.value)];
    }
    var h := CheckSound(highFile, high);
    if h.Some? {
      errors := errors + [SoundError(HighSound, high, h.value)];
    }
  }

  /** The delay typed at the prompt, after `strip()`: empty or not a number gives the
      configured default, a negative number gives 0. */
  function NormaliseDelay(typed: string, default: int): (minutes: int)
    ensures Text.Strip(typed) == "" ==> minutes == default
    ensures Text.ParseInt(Text.Strip(typed)).None? ==> minutes == default
    ensures Text.ParseInt(Text.Strip(typed)).Some? ==>
      var v := Text.ParseInt(Text.Strip(typed)).value;
      minutes == if v < 0 then 0 else v
    ensures default >= 0 ==> minutes >= 0
  {
    var s := Text.Strip(typed);
    if s == "" then default
    else match Text.ParseInt(s)
      case None => default
      case Some(v) => if v < 0 then 0 else v
  }

  /** Typing a number gives that number when it is not negative. */
  lemma TypedNumberKept(n: nat, default: int)
    ensures NormaliseDelay(Text.IntToString(n), default) == n
  {
    var s := Text.IntToString(n);
    assert !Text.IsSpace(s[0]) && !Text.IsSpace(s[|s| - 1]);
    Text.ParseIntToString(n);
  }

  /** How `main` ends before the monitor takes over. */
  datatype Outcome = ExitNotConfigured | ExitSoundErrors(errors: seq<SoundError>) | StartMonitoring(monitoring: Config.MonitoringConfig)

  /** `main` up to the start of the monitor: an unconfigured installation exits before
      anything else; sound errors exit; otherwise the typed delay replaces the configured
      one. */
  method Startup(c: Config.AppConfig, resources: Paths.Path, lowFile: Alerts.FileKind, highFile: Alerts.FileKind, typed: string)
    returns (o: Outcome)
    ensures !Config.IsConfigured(c) ==> o == ExitNotConfigured
    ensures Config.IsConfigured(c) ==> !o.ExitNotConfigured?
    ensures o.ExitSoundErrors? ==> Config.IsConfigured(c) && |o.errors| > 0
    ensures var errors := Complaints(Paths.ResolveSoundPath(resources, c.alerts.lowSound), lowFile,
                                     Paths.ResolveSoundPath(resources, c.alerts.highSound), highFile);
      Config.IsConfigured(c) && errors != [] ==> o == ExitSoundErrors(errors)
    ensures o.StartMonitoring? && c.monitoring.startupDelayMinutes >= 0 ==> Config.StartupDelay(o.monitoring) >= 0
    ensures o.StartMonitoring? ==>
      Config.IsConfigured(c)
      && CheckSound(lowFile, Paths.ResolveSoundPath(resources, c.alerts.lowSound)).None?
      && CheckSound(highFile, Paths.ResolveSoundPath(resources, c.alerts.highSound)).None?
      && o.monitoring == c.monitoring.(startupDelayMinutes := NormaliseDelay(typed, c.monitoring.startupDelayMinutes))
    ensures (Config.IsConfigured(c)
      && CheckSound(lowFile, Paths.ResolveSoundPath(resources, c.alerts.lowSound)).None?
      && CheckSound(highFile, Paths.ResolveSoundPath(resources, c.alerts.highSound)).None?) ==> o.StartMonitoring?
  {
    if !Config.IsConfigured(c) {
      return ExitNotConfigured;
    }
    var low := Paths.ResolveSoundPath(resources, c.alerts.lowSound);
    var high := Paths.ResolveSoundPath(resources, c.alerts.highSound);
    var errors := CollectSoundErrors(low, lowFile, high, highFile);
    if errors != [] {
      return ExitSoundErrors(errors);
    }
    var delay := NormaliseDelay(typed, c.monitoring.startupDelayMinutes);
    o := StartMonitoring(c.monitoring.(startupDelayMinutes := delay));
  }
}
