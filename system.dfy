/** Host checks of src/core/system.py: whether the speakers can be heard, the volume
    reported by `amixer`, and the process that keeps a Mac awake. The probes and the
    process calls are inputs. */
module HostSystem {
  import opened Wrappers
  import Text

  // ---------------------------------------------------------------- volume

  /** `check_volume_status`: muted wins, then a known volume below the minimum; an
      unknown volume is taken as adequate. */
  function CheckVolumeStatus(muted: Option<bool>, volume: Option<int>, minVolume: int): (r: (bool, string))
    ensures muted == Some(true) ==> r == (false, "🔇 MUTED")
    ensures muted != Some(true) && volume.Some? && volume.value < minVolume ==>
      r == (false, "🔈 Volume low: " + Text.IntToString(volume.value) + "%")
    ensures r.0 <==> muted != Some(true) && !(volume.Some? && volume.value < minVolume)
    ensures r.0 <==> r.1 == ""
  {
    if muted == Some(true) then (false, "🔇 MUTED")
    else if volume.Some? && volume.value < minVolume then
      (false, "🔈 Volume low: " + Text.IntToString(volume.value) + "%")
    else (true, "")
  }

  /** The length of the run of ASCII digits at the start of `s`. */
  function DigitRun(s: string): (n: nat)
    ensures n <= |s| && Text.AllDigits(s[..n])
    ensures n < |s| ==> !Text.IsDigit(s[n])
  {
    if |s| > 0 && Text.IsDigit(s[0]) then
      var n := DigitRun(s[1..]) + 1;
      assert s[..n] == [s[0]] + s[1..][..n - 1];
      n
    else 0
  }

  /** `\[(\d+)%\]` matched at position `i`: the number inside. */
  function MatchAt(s: string, i: nat): (r: Option<nat>)
    requires i <= |s|
  {
    var rest := s[i..];
    if |rest| >= 1 && rest[0] == '[' then
      var n := DigitRun(rest[1..]);
      if n >= 1 && n + 3 <= |rest| && rest[n + 1] == '%' && rest[n + 2] == ']' then
        Some(Text.DigitsValue(rest[1..][..n]))
      else None
    else None
  }

  /** `re.search`: the leftmost match from position `i` on. */
  function SearchFrom(s: string, i: nat): (r: Option<nat>)
    requires i <= |s|
    ensures r.Some? ==> exists k :: i <= k <= |s| && MatchAt(s, k) == r && forall j :: i <= j < k ==> MatchAt(s, j).None?
    ensures r.None? ==> forall j :: i <= j <= |s| ==> MatchAt(s, j).None?
    decreases |s| - i
  {
    if MatchAt(s, i).Some? then MatchAt(s, i)
    else if i == |s| then None
    else SearchFrom(s, i + 1)
  }

  /** The Linux branch of `get_system_volume`: the number inside the first `[N%]` of the
      `amixer` output, or `None`. */
  function ParseAmixerVolume(output: string): (r: Option<nat>)
    ensures r.Some? ==> exists k :: 0 <= k <= |output| && MatchAt(output, k) == r && forall j :: 0 <= j < k ==> MatchAt(output, j).None?
    ensures r.None? ==> forall j :: 0 <= j <= |output| ==> MatchAt(output, j).None?
  {
    SearchFrom(output, 0)
  }

  /** A bracketed percentage is read back as its number. */
  lemma MatchPercent(n: nat, tail: string)
    ensures MatchAt("[" + Text.NatToString(n) + "%]" + tail, 0) == Some(n)
  {
    var digits := Text.NatToString(n);
    var s := "[" + digits + "%]" + tail;
    var rest := s[0..];
    assert rest == s;
    assert rest[1..] == digits + ("%]" + tail);
    assert ("%]" + tail)[0] == '%';
    DigitRunOf(digits, "%]" + tail);
    var k := |digits|;
    assert DigitRun(rest[1..]) == k && k >= 1;
    assert rest[k + 1] == '%' && rest[k + 2] == ']' && k + 3 <= |rest|;
    assert rest[1..][..k] == digits;
    Text.DigitsOfNatToString(n);
  }

  lemma DigitRunOf(digits: string, tail: string)
    requires Text.AllDigits(digits) && (|tail| == 0 || !Text.IsDigit(tail[0]))
    ensures DigitRun(digits + tail) == |digits|
    decreases |digits|
  {
    if |digits| > 0 {
      assert (digits + tail)[1..] == digits[1..] + tail;
      DigitRunOf(digits[1..], tail);
    } else {
      assert digits + tail == tail;
    }
  }

  // ---------------------------------------------------------------- sleep prevention

  /** How starting `caffeinate -i` went: a process handle, or the exception raised. */
  datatype Spawn = Spawned(pid: int) | NotFound | SpawnFailed

  /** The module-level `_caffeinate_process` and the `allow_sleep` hooks registered with
      `atexit`. */
  class SleepGuard {
    var process: Option<int>
    var exitHooks: nat

    constructor ()
      ensures process.None? && exitHooks == 0
    {
      process := None;
      exitHooks := 0;
    }

    /** `prevent_sleep`: only on macOS; a held process is kept and reported. */
    method PreventSleep(system: string, spawn: Spawn) returns (ok: bool)
      modifies this
      ensures system != "Darwin" ==> !ok && process == old(process) && exitHooks == old(exitHooks)
      ensures system == "Darwin" && old(process).Some? ==> ok && process == old(process) && exitHooks == old(exitHooks)
      ensures system == "Darwin" && old(process).None? ==>
        (ok <==> spawn.Spawned?)
        && (spawn.Spawned? ==> process == Some(spawn.pid) && exitHooks == old(exitHooks) + 1)
        && (!spawn.Spawned? ==> process.None? && exitHooks == old(exitHooks))
      ensures ok <==> system == "Darwin" && process.Some?
    {
      if system != "Darwin" {
        return false;
      }
      if process.Some? {
        return true;
      }
      match spawn
      case Spawned(pid) =>
        process := Some(pid);
        exitHooks := exitHooks + 1;
        ok := true;
      case _ =>
        ok := false;
    }

    /** `allow_sleep`: whether terminating succeeds, the handle is dropped. */
    method AllowSleep(terminated: bool)
      modifies this
      ensures process.None? && exitHooks == old(exitHooks)
    {
      if process.Some? {
        process := None;
      }
    }
  }
}
