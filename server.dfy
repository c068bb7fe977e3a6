/**
 * The HTTP front of server.py: `process_text` with its "ignore window" for
 * routine printer notifications, the audio URL it answers with, and the
 * range check of `set_volume`.
 *
 * The assistant (`llm.get_response`), emoji removal and speech synthesis
 * are foreign: what they return is an input (`Answer`, `audioPath`). The
 * clock reading `time.time()` is the input `now`.
 */
module Server {
  import opened Wrappers
  import opened Strings
  import Notifications
  import EventListenerSpec

  /** Seconds after a user request during which routine notifications are dropped. */
  const IgnoreWindow: real := 30.0

  // The keys of `patterns_to_ignore`; each regular expression starts with its key and ": ".
  const BedTargetKey: string := "Nuevo objetivo de temperatura de la cama"
  const ExtruderTargetKey: string := "Nuevo objetivo de temperatura del extrusor"
  const FileAddedKey: string := "Se ha agregado un nuevo archivo a mainsail"
  const PrintingKey: string := "Se va a imprimir"

  /**
   * One entry of `patterns_to_ignore`: the regular expression is
   * `^<key>: .*°C$` when `endsInDegrees`, else `^<key>: .*`.
   */
  datatype Pattern = Pattern(key: string, endsInDegrees: bool)

  /** The patterns in the dictionary's order. */
  const Patterns: seq<Pattern> := [
    Pattern(BedTargetKey, true),
    Pattern(ExtruderTargetKey, true),
    Pattern(FileAddedKey, false),
    Pattern(PrintingKey, false)
  ]

  function Prefix(p: Pattern): string {
    p.key + ": "
  }

  /**
   * `.*°C$` at the start of `rest`: a run without line breaks ('.' does not
   * match "\n"), then "°C", then the end of the text or a final "\n"
   * (Python's `$` also matches just before a trailing newline).
   */
  predicate DegreesTail(rest: string) {
    (EndsWith(rest, EventListenerSpec.Degrees) && '\n' !in rest[..|rest| - 2]) ||
    (EndsWith(rest, EventListenerSpec.Degrees + "\n") && '\n' !in rest[..|rest| - 3])
  }

  /** `re.match(pattern, content)` succeeds. */
  predicate Matches(p: Pattern, content: string) {
    StartsWith(content, Prefix(p)) &&
    (!p.endsInDegrees || DegreesTail(content[|Prefix(p)|..]))
  }

  /** The key of the first pattern that matches, as the `for ... break` loop finds it. */
  function FirstMatch(ps: seq<Pattern>, content: string): (r: Option<string>)
    ensures r.None? <==> forall i :: 0 <= i < |ps| ==> !Matches(ps[i], content)
    ensures r.Some? ==>
              exists i :: 0 <= i < |ps| && Matches(ps[i], content) && r.value == ps[i].key &&
                          forall j :: 0 <= j < i ==> !Matches(ps[j], content)
  {
    if ps == [] then None
    else if Matches(ps[0], content) then Some(ps[0].key)
    else
      var r := FirstMatch(ps[1..], content);
      assert forall i :: 1 <= i < |ps| ==> ps[i] == ps[1..][i - 1];
      r
  }

  /** The loop of `process_text` that picks `message_type`. */
  method MessageType(content: string) returns (messageType: Option<string>)
    ensures messageType == FirstMatch(Patterns, content)
  {
    var i := 0;
    while i < |Patterns|
      invariant 0 <= i <= |Patterns|
      invariant FirstMatch(Patterns[i..], content) == FirstMatch(Patterns, content)
    {
      assert Patterns[i..][1..] == Patterns[i + 1..];
      if Matches(Patterns[i], content) {
        return Some(Patterns[i].key);
      }
      i := i + 1;
    }
    return None;
  }

  /** `in_ignore_period`: a user request started the window less than 30 s ago. */
  predicate InIgnorePeriod(ignoreStart: real, now: real) {
    ignoreStart > 0.0 && now - ignoreStart < IgnoreWindow
  }

  /**
   * What `llm.get_response` did: it returned a function name, its
   * arguments, the reply text and (emoji removed) the text to speak; or it
   * raised.
   */
  datatype Answer =
    | Answered(functionName: Option<string>, args: Option<map<string, string>>, message: string, spoken: string)
    | Raised

  /** The HTTP answer of `process_text`. */
  datatype Reply =
    | NoContent
    | Processed(functionName: Option<string>, args: Option<map<string, string>>, message: string, audioUrl: Option<string>)
    | ServerError

  /** The reply, the text handed to `tts.speak` (if any), and the new `ignore_start_time`. */
  datatype Outcome = Outcome(reply: Reply, spoken: Option<string>, ignoreStart: real)

  /** The URL of a synthesised file, or none when synthesis returned "". */
  function AudioUrl(audioPath: string): (r: Option<string>)
    ensures r.Some? <==> audioPath != ""
    ensures r.Some? ==> StartsWith(r.value, "/static/") && '/' !in r.value[|"/static/"|..]
  {
    if audioPath != "" then Some("/static/" + Basename(audioPath)) else None
  }

  /**
   * `process_text` as written. When the assistant raises, the handler goes
   * on to speak the request text, then reads the never-bound `message` and
   * fails with status 500, before a plain request could restart the window.
   */
  function Process(ignoreStart: real, text: string, now: real, answer: Answer, audioPath: string): Outcome {
    var spoken := if answer.Answered? then answer.spoken else text;
    var reply := if answer.Answered? then Processed(answer.functionName, answer.args, answer.message, AudioUrl(audioPath))
                 else ServerError;
    if StartsWith(text, Notifications.NotifyPrefix) then
      var content := Strip(text[|Notifications.NotifyPrefix|..]);
      if InIgnorePeriod(ignoreStart, now) && FirstMatch(Patterns, content).Some? then Outcome(NoContent, None, ignoreStart)
      else Outcome(reply, Some(spoken), ignoreStart)
    else
      Outcome(reply, Some(spoken), if answer.Answered? then now else ignoreStart)
  }

  /**
   * `process_text` as its `except` branch intends: the request text is
   * spoken and answered without a function call, and a plain request
   * always restarts the window.
   */
  function ProcessIntended(ignoreStart: real, text: string, now: real, answer: Answer, audioPath: string): Outcome {
    var spoken := if answer.Answered? then answer.spoken else text;
    var reply := if answer.Answered? then Processed(answer.functionName, answer.args, answer.message, AudioUrl(audioPath))
                 else Processed(None, None, text, AudioUrl(audioPath));
    if StartsWith(text, Notifications.NotifyPrefix) then
      var content := Strip(text[|Notifications.NotifyPrefix|..]);
      if InIgnorePeriod(ignoreStart, now) && FirstMatch(Patterns, content).Some? then Outcome(NoContent, None, ignoreStart)
      else Outcome(reply, Some(spoken), ignoreStart)
    else
      Outcome(reply, Some(spoken), now)
  }

  /** `set_volume`'s answer: the `pactl` command it ran and its message, or the error detail. */
  datatype VolumeReply = VolumeSet(command: seq<string>, message: string) | VolumeFailed(detail: string)

  const VolumeErrorPrefix: string := "Error al ajustar el volumen: "
  const VolumeRangeError: string := "El nivel de volumen debe estar entre 0 y 100"

  /** `set_volume(level)`; `commandError` is what the `pactl` call raised, if it ran and raised. */
  function SetVolume(level: int, commandError: Option<string>): VolumeReply {
    if !(0 <= level <= 100) then VolumeFailed(VolumeErrorPrefix + VolumeRangeError)
    else if commandError.Some? then VolumeFailed(VolumeErrorPrefix + commandError.value)
    else
      var percent := IntToString(level) + "%";
      VolumeSet(["pactl", "set-sink-volume", "@DEFAULT_SINK@", percent], "Volumen ajustado a " + percent)
  }

  // ------------------------------------------------------------ the object

  /** The module global `ignore_start_time` that `process_text` reassigns. */
  class Handler {
    var ignoreStartTime: real

    constructor ()
      ensures ignoreStartTime == 0.0
    {
      ignoreStartTime := 0.0;
    }

    /**
     * One `POST /process` with body `text`, with the assistant's failure
     * handled as the `except` branch intends (see `ProcessIntended`).
     */
    method ProcessText(text: string, now: real, answer: Answer, audioPath: string)
      returns (reply: Reply, spoken: Option<string>)
      modifies this
      ensures Outcome(reply, spoken, ignoreStartTime) == ProcessIntended(old(ignoreStartTime), text, now, answer, audioPath)
    {
      var inIgnorePeriod := false;
      if ignoreStartTime > 0.0 && now - ignoreStartTime < IgnoreWindow {
        inIgnorePeriod := true;
      }
      var functionName, args, message, cleaned;
      if answer.Answered? {
        functionName, args, message, cleaned := answer.functionName, answer.args, answer.message, answer.spoken;
      } else {
        functionName, args, message, cleaned := None, None, text, text;
      }
      if StartsWith(text, Notifications.NotifyPrefix) {
        var content := Strip(text[|Notifications.NotifyPrefix|..]);
        var messageType := MessageType(content);
        if inIgnorePeriod && messageType.Some? {
          return NoContent, None;
        }
        return Processed(functionName, args, message, AudioUrl(audioPath)), Some(cleaned);
      }
      ignoreStartTime := now;
      return Processed(functionName, args, message, AudioUrl(audioPath)), Some(cleaned);
    }
  }

  // ------------------------------------------------------------ properties

  /**
   * A request is answered 204 without consulting the assistant exactly when
   * it is a notification whose stripped content matches a pattern while the
   * window is open.
   */
  lemma DroppedIff(ignoreStart: real, text: string, now: real, answer: Answer, audioPath: string)
    ensures Process(ignoreStart, text, now, answer, audioPath).reply == NoContent <==>
              StartsWith(text, Notifications.NotifyPrefix) && InIgnorePeriod(ignoreStart, now) &&
              exists i :: 0 <= i < |Patterns| && Matches(Patterns[i], Strip(text[|Notifications.NotifyPrefix|..]))
    ensures Process(ignoreStart, text, now, answer, audioPath).reply == NoContent <==>
              Process(ignoreStart, text, now, answer, audioPath).spoken.None?
  {
  }

  /**
   * Notifications never move the window; a plain request the assistant
   * answers restarts it at `now`.
   */
  lemma WindowStart(ignoreStart: real, text: string, now: real, answer: Answer, audioPath: string)
    ensures StartsWith(text, Notifications.NotifyPrefix) ==>
              Process(ignoreStart, text, now, answer, audioPath).ignoreStart == ignoreStart
    ensures !StartsWith(text, Notifications.NotifyPrefix) && answer.Answered? ==>
              Process(ignoreStart, text, now, answer, audioPath).ignoreStart == now
  {
  }

  /** The window is closed before any plain request, and closes exactly 30 s after one. */
  lemma WindowBounds(ignoreStart: real, now: real)
    ensures !InIgnorePeriod(0.0, now)
    ensures ignoreStart > 0.0 ==> (InIgnorePeriod(ignoreStart, now) <==> now < ignoreStart + IgnoreWindow)
  {
  }

  /** The two target patterns need the text to end in "°C" (or "°C" and a newline). */
  lemma TargetPatternsNeedDegrees(content: string, i: int)
    requires 0 <= i < 2 && Matches(Patterns[i], content)
    ensures EndsWith(content, EventListenerSpec.Degrees) || EndsWith(content, EventListenerSpec.Degrees + "\n")
  {
    var rest := content[|Prefix(Patterns[i])|..];
    if EndsWith(rest, EventListenerSpec.Degrees) {
      assert content[|content| - 2..] == rest[|rest| - 2..];
    } else {
      assert content[|content| - 3..] == rest[|rest| - 3..];
    }
  }

  /** The file-added and printing patterns need nothing but their prefix. */
  lemma PrefixPatternsNeedOnlyPrefix(content: string, i: int)
    requires 2 <= i < 4
    ensures Matches(Patterns[i], content) <==> StartsWith(content, Patterns[i].key + ": ")
  {
  }

  /**
   * A notification whose content matches a pattern and has no surrounding
   * blanks to strip is dropped inside the window.
   */
  lemma NotificationDropped(message: string, i: int, ignoreStart: real, now: real, answer: Answer, audioPath: string)
    requires 0 <= i < |Patterns| && Matches(Patterns[i], message)
    requires !IsSpace(message[0]) && !IsSpace(message[|message| - 1])
    requires InIgnorePeriod(ignoreStart, now)
    ensures Process(ignoreStart, Notifications.NotifyPrefix + message, now, answer, audioPath).reply == NoContent
  {
    assert (Notifications.NotifyPrefix + message)[|Notifications.NotifyPrefix|..] == message;
    StripOfTrimmed(message);
  }

  /** The patterns' prefixes are the prefixes the event monitor writes. */
  lemma SamePrefixes()
    ensures Prefix(Patterns[0]) == EventListenerSpec.NewTargetPrefix(EventListenerSpec.Bed)
    ensures Prefix(Patterns[1]) == EventListenerSpec.NewTargetPrefix(EventListenerSpec.Extruder)
    ensures Prefix(Patterns[2]) == EventListenerSpec.AddedPrefix
    ensures Prefix(Patterns[3]) == EventListenerSpec.PrintingFilePrefix
    ensures forall i :: 0 <= i < |Patterns| ==> !IsSpace(Prefix(Patterns[i])[0])
  {
    forall i | 0 <= i < |Patterns|
      ensures !IsSpace(Prefix(Patterns[i])[0])
    {
      assert Prefix(Patterns[i])[0] == Patterns[i].key[0];
      assert Patterns[i] == [Pattern(BedTargetKey, true), Pattern(ExtruderTargetKey, true),
                             Pattern(FileAddedKey, false), Pattern(PrintingKey, false)][i];
      assert BedTargetKey[0] == ExtruderTargetKey[0] == 'N';
      assert FileAddedKey[0] == PrintingKey[0] == 'S';
    }
  }

  lemma DegreesMatch(p: Pattern, target: string)
    requires '\n' !in target
    ensures Matches(p, Prefix(p) + target + EventListenerSpec.Degrees)
  {
    var message := Prefix(p) + target + EventListenerSpec.Degrees;
    assert message[..|Prefix(p)|] == Prefix(p);
    var rest := message[|Prefix(p)|..];
    assert rest == target + EventListenerSpec.Degrees;
    assert rest[..|rest| - 2] == target;
  }

  /**
   * The notice the event monitor queues for a new heater target is dropped
   * inside the window, as long as the target's text holds no line break.
   */
  lemma QueuedTargetDropped(ch: EventListenerSpec.Channel, target: string, ignoreStart: real, now: real,
                            answer: Answer, audioPath: string)
    requires '\n' !in target
    requires InIgnorePeriod(ignoreStart, now)
    ensures Process(ignoreStart, Notifications.NotifyPrefix + EventListenerSpec.Text(EventListenerSpec.NewTargetNotice(ch, target)),
                    now, answer, audioPath).reply == NoContent
  {
    var i := if ch.Bed? then 0 else 1;
    var p := Patterns[i];
    SamePrefixes();
    var message := Prefix(p) + target + EventListenerSpec.Degrees;
    assert EventListenerSpec.Text(EventListenerSpec.NewTargetNotice(ch, target)) == message;
    DegreesMatch(p, target);
    assert message[0] == Prefix(p)[0];
    assert message[|message| - 1] == 'C';
    NotificationDropped(message, i, ignoreStart, now, answer, audioPath);
  }

  /**
   * The notices for a new file and for a print about to start are dropped
   * inside the window, as long as the name ends in a non-blank character.
   */
  lemma QueuedFileNoticeDropped(n: EventListenerSpec.Notice, ignoreStart: real, now: real,
                                answer: Answer, audioPath: string)
    requires (n.FileNotice? && n.change == EventListenerSpec.Added) || n.PrintingFileNotice?
    requires n.name != [] && !IsSpace(n.name[|n.name| - 1])
    requires InIgnorePeriod(ignoreStart, now)
    ensures Process(ignoreStart, Notifications.NotifyPrefix + EventListenerSpec.Text(n), now, answer, audioPath).reply == NoContent
  {
    var i := if n.FileNotice? then 2 else 3;
    var p := Patterns[i];
    SamePrefixes();
    var message := Prefix(p) + n.name;
    assert EventListenerSpec.Text(n) == message;
    assert message[..|Prefix(p)|] == Prefix(p);
    assert message[0] == Prefix(p)[0];
    assert message[|message| - 1] == n.name[|n.name| - 1];
    NotificationDropped(message, i, ignoreStart, now, answer, audioPath);
  }

  /** A synthesised file joined under a folder is served under /static/ by its own name. */
  lemma AudioUrlOfJoin(folder: string, name: string)
    requires name != "" && '/' !in name
    ensures AudioUrl(PathJoin(folder, name)) == Some("/static/" + name)
    ensures AudioUrl("") == None
  {
    BasenameOfJoin(folder, name);
  }

  /**
   * The volume is set exactly for levels 0 to 100 whose command succeeds;
   * an out-of-range level fails before any command runs.
   */
  lemma VolumeRange(level: int, commandError: Option<string>)
    ensures SetVolume(level, commandError).VolumeSet? <==> 0 <= level <= 100 && commandError.None?
    ensures !(0 <= level <= 100) ==> SetVolume(level, commandError) == VolumeFailed(VolumeErrorPrefix + VolumeRangeError)
  {
  }

  /** The percentage handed to `pactl` reads back as the requested level. */
  lemma VolumeCommandRoundTrip(level: int)
    requires 0 <= level <= 100
    ensures var r := SetVolume(level, None);
            r.VolumeSet? && |r.command| == 4 && EndsWith(r.command[3], "%") &&
            ParseInt(r.command[3][..|r.command[3]| - 1]) == Ok(level)
  {
    var percent := IntToString(level) + "%";
    assert percent[..|percent| - 1] == IntToString(level);
    ParseIntOfString(level);
  }

  // ------------------------------------------------------------ finding

  /**
   * As written, a request the assistant fails on is spoken yet answered
   * with status 500, and a plain one leaves the window where it was.
   */
  lemma RaisedAnswerFails(ignoreStart: real, text: string, now: real, audioPath: string)
    requires !StartsWith(text, Notifications.NotifyPrefix)
    ensures Process(ignoreStart, text, now, Raised, audioPath) == Outcome(ServerError, Some(text), ignoreStart)
  {
  }

  /**
   * As intended, every request that is not dropped is answered with what
   * was spoken, and a plain request always restarts the window; the two
   * versions agree whenever the assistant answers.
   */
  lemma IntendedAlwaysAnswers(ignoreStart: real, text: string, now: real, answer: Answer, audioPath: string)
    ensures var o := ProcessIntended(ignoreStart, text, now, answer, audioPath);
            (o.reply == NoContent || o.reply.Processed?) &&
            (answer.Raised? && o.reply != NoContent ==> o.reply.message == text && o.spoken == Some(text)) &&
            (!StartsWith(text, Notifications.NotifyPrefix) ==> o.ignoreStart == now)
    ensures answer.Answered? ==> ProcessIntended(ignoreStart, text, now, answer, audioPath) == Process(ignoreStart, text, now, answer, audioPath)
  {
  }
}
