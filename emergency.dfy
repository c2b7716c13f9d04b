/** The macOS emergency actions of src/core/emergency.py. Each action builds the command
    it would run; whether `subprocess.run` succeeded, failed with a non-zero exit, or
    raised something else is an input. */
module Emergency {
  import opened Wrappers
  import Text

  /** `phone.replace(" ", "").replace("-", "")`. */
  function CleanPhone(phone: string): (r: string)
    ensures ' ' !in r && '-' !in r
    ensures |r| <= |phone|
  {
    Text.ReplaceChar(Text.ReplaceChar(phone, ' ', ""), '-', "")
  }

  /** Cleaning keeps every other character, and cleaning twice is cleaning once. */
  lemma CleanPhoneProperties(phone: string, c: char)
    requires c != ' ' && c != '-'
    ensures Text.Count(CleanPhone(phone), c) == Text.Count(phone, c)
    ensures CleanPhone(CleanPhone(phone)) == CleanPhone(phone)
  {
    Text.ReplaceKeepsOthers(phone, ' ', c);
    Text.ReplaceKeepsOthers(Text.ReplaceChar(phone, ' ', ""), '-', c);
    var once := CleanPhone(phone);
    Text.ReplaceAbsent(once, ' ', "");
    Text.ReplaceAbsent(once, '-', "");
  }

  /** The command line of a subprocess. */
  datatype Command = Command(args: seq<string>)

  /** How `subprocess.run(..., check=True)` ended. */
  datatype RunOutcome = Succeeded | CalledProcessError | OtherException

  function FaceTimeUrl(phone: string): (url: string)
    ensures url == "facetime://" + CleanPhone(phone)
  {
    "facetime://" + CleanPhone(phone)
  }

  /** What an action did: its result and the commands it ran, in order. */
  datatype Effect = Effect(ok: bool, ran: seq<Command>)

  /** `call_facetime`. */
  function CallFaceTime(system: string, phone: string, run: RunOutcome): (e: Effect)
    ensures system != "Darwin" ==> e == Effect(false, [])
    ensures system == "Darwin" ==> e.ran == [Command(["open", FaceTimeUrl(phone)])]
    ensures e.ok <==> system == "Darwin" && run == Succeeded
  {
    if system != "Darwin" then Effect(false, [])
    else Effect(run == Succeeded, [Command(["open", FaceTimeUrl(phone)])])
  }

  // ---------------------------------------------------------------- AppleScript text

  /** The primary escaping: `"` becomes `\"`, then `'` becomes `\'`. */
  function EscapePrimary(message: string): string {
    Text.ReplaceChar(Text.ReplaceChar(message, '"', "\\\""), '\'', "\\'")
  }

  /** The fallback escaping: only `"` becomes `\"`. */
  function EscapeFallback(message: string): string {
    Text.ReplaceChar(message, '"', "\\\"")
  }

  /** A text without quotes or apostrophes is left as it is by both. */
  lemma EscapingPlainText(message: string)
    requires '"' !in message && '\'' !in message
    ensures EscapePrimary(message) == message && EscapeFallback(message) == message
  {
    Text.ReplaceAbsent(message, '"', "\\\"");
    Text.ReplaceAbsent(message, '\'', "\\'");
  }

  /** The fallback escaping leaves no bare `"`: every quote in its output is preceded by a
      backslash. */
  lemma EscapedQuotesAreEscaped(message: string)
    ensures forall i :: 0 <= i < |EscapeFallback(message)| && EscapeFallback(message)[i] == '"' ==>
      i > 0 && EscapeFallback(message)[i - 1] == '\\'
  {
    QuotesPreceded(message, '"', "\\\"");
  }

  lemma {:induction false} QuotesPreceded(s: string, c: char, rep: string)
    requires |rep| == 2 && rep[0] == '\\' && rep[1] == c && c != '\\'
    ensures forall i :: 0 <= i < |Text.ReplaceChar(s, c, rep)| && Text.ReplaceChar(s, c, rep)[i] == c ==>
      i > 0 && Text.ReplaceChar(s, c, rep)[i - 1] == '\\'
  {
    if |s| > 0 {
      QuotesPreceded(s[1..], c, rep);
      var head := if s[0] == c then rep else [s[0]];
      var tail := Text.ReplaceChar(s[1..], c, rep);
      assert Text.ReplaceChar(s, c, rep) == head + tail;
      forall i | 0 <= i < |head + tail| && (head + tail)[i] == c
        ensures i > 0 && (head + tail)[i - 1] == '\\'
      {
        if i >= |head| {
          assert (head + tail)[i] == tail[i - |head|];
          if i - |head| > 0 {
            assert (head + tail)[i - 1] == tail[i - |head| - 1];
          } else {
            assert false;
          }
        }
      }
    }
  }

  /** How AppleScript reads the body of a double-quoted string literal: `\"` is a quote,
      `\\` a backslash, `\n`, `\t` and `\r` the control characters, any other escaped
      character stands for itself; an unescaped `"` ends the literal too early and a
      trailing lone backslash leaves it unterminated, and both make the script fail to
      compile (`None`). */
  function ReadLiteral(body: string): (r: Option<string>)
    decreases |body|
  {
    if |body| == 0 then Some("")
    else if body[0] == '"' then None
    else if body[0] == '\\' then
      if |body| == 1 then None
      else match ReadLiteral(body[2..])
        case None => None
        case Some(rest) => Some([Unescape(body[1])] + rest)
    else match ReadLiteral(body[1..])
      case None => None
      case Some(rest) => Some([body[0]] + rest)
  }

  function Unescape(c: char): char {
    if c == 'n' then '\n' else if c == 't' then '\t' else if c == 'r' then '\r' else c
  }

  /** A lone backslash: both escapings leave it alone, and the literal it ends no longer
      closes. */
  const Backslash := "\\"

  /** As written, a message that ends in a backslash makes both scripts fail, and one
      holding a backslash before `n` is delivered with a line break in its place. */
  lemma BackslashBreaksLiteral()
    ensures EscapePrimary(Backslash) == Backslash && EscapeFallback(Backslash) == Backslash
    ensures ReadLiteral(EscapePrimary(Backslash)).None?
    ensures ReadLiteral(EscapeFallback("\\n")) == Some("\n")
  {
    EscapingPlainText(Backslash);
    EscapingPlainText("\\n");
    var body := "\\n";
    assert |body| == 2 && body[0] == '\\' && body[1] == 'n' && body[2..] == "";
    assert ReadLiteral(body[2..]) == Some("");
    assert ReadLiteral(body) == Some([Unescape('n')] + "");
    assert [Unescape('n')] + "" == "\n";
    assert EscapeFallback(body) == body;
  }

  /** Escaping backslashes first, then quotes: every message reads back exactly. */
  function EscapeForAppleScript(message: string): (r: string)
    ensures |r| >= |message|
  {
    if |message| == 0 then ""
    else
      (if message[0] == '\\' then "\\\\" else if message[0] == '"' then "\\\"" else [message[0]])
      + EscapeForAppleScript(message[1..])
  }

  lemma {:induction false} EscapeRoundTrip(message: string)
    ensures ReadLiteral(EscapeForAppleScript(message)) == Some(message)
  {
    if |message| > 0 {
      EscapeRoundTrip(message[1..]);
      var rest := EscapeForAppleScript(message[1..]);
      var c := message[0];
      if c == '\\' || c == '"' {
        var body := [ '\\', c] + rest;
        assert EscapeForAppleScript(message) == body;
        assert body[2..] == rest;
      } else {
        var body := [c] + rest;
        assert EscapeForAppleScript(message) == body;
        assert body[1..] == rest;
      }
      assert message == [c] + message[1..];
    }
  }

  // ---------------------------------------------------------------- iMessage

  function PrimaryScript(phone: string, message: string): string {
    "\n        tell application \"Messages\"\n"
    + "            set targetService to 1st account whose service type = iMessage\n"
    + "            set targetBuddy to participant \"" + CleanPhone(phone) + "\" of targetService\n"
    + "            send \"" + EscapePrimary(message) + "\" to targetBuddy\n"
    + "        end tell\n        "
  }

  function FallbackScript(phone: string, message: string): string {
    "\n        tell application \"Messages\"\n"
    + "            send \"" + EscapeFallback(message) + "\" to buddy \"" + CleanPhone(phone) + "\"\n"
    + "        end tell\n        "
  }

  function Osascript(script: string): Command {
    Command(["osascript", "-e", script])
  }

  /** `_send_imessage_fallback`: any exception means false. */
  function SendFallback(phone: string, message: string, run: RunOutcome): (e: Effect)
    ensures e == Effect(run == Succeeded, [Osascript(FallbackScript(phone, message))])
  {
    Effect(run == Succeeded, [Osascript(FallbackScript(phone, message))])
  }

  /** `send_imessage`: only a non-zero exit of the primary script tries the fallback. */
  function SendIMessage(system: string, phone: string, message: string, primary: RunOutcome, fallback: RunOutcome): (e: Effect)
    ensures system != "Darwin" ==> e == Effect(false, [])
    ensures system == "Darwin" && primary == Succeeded ==> e == Effect(true, [Osascript(PrimaryScript(phone, message))])
    ensures system == "Darwin" && primary == CalledProcessError ==>
      e.ok == SendFallback(phone, message, fallback).ok
      && e.ran == [Osascript(PrimaryScript(phone, message))] + SendFallback(phone, message, fallback).ran
    ensures system == "Darwin" && primary == OtherException ==> e == Effect(false, [Osascript(PrimaryScript(phone, message))])
  {
    if system != "Darwin" then Effect(false, [])
    else
      var first := Osascript(PrimaryScript(phone, message));
      match primary
      case Succeeded => Effect(true, [first])
      case CalledProcessError =>
        var f := SendFallback(phone, message, fallback);
        Effect(f.ok, [first] + f.ran)
      case OtherException => Effect(false, [first])
  }

  /** `open_messages_app`: a non-empty phone opens its conversation. */
  function OpenMessagesApp(system: string, phone: Option<string>, run: RunOutcome): (e: Effect)
    ensures system != "Darwin" ==> e == Effect(false, [])
    ensures system == "Darwin" && phone.Some? && phone.value != "" ==>
      e.ran == [Command(["open", "imessage://" + CleanPhone(phone.value)])]
    ensures system == "Darwin" && !(phone.Some? && phone.value != "") ==>
      e.ran == [Command(["open", "-a", "Messages"])]
    ensures e.ok <==> system == "Darwin" && run == Succeeded
  {
    if system != "Darwin" then Effect(false, [])
    else if phone.Some? && phone.value != "" then
      Effect(run == Succeeded, [Command(["open", "imessage://" + CleanPhone(phone.value)])])
    else Effect(run == Succeeded, [Command(["open", "-a", "Messages"])])
  }
}
