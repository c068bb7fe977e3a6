/**
 * The speech front end of the voice assistant (`transcriber.py`): the
 * fixed-size framer that feeds the voice-activity detector, the ring-buffer
 * trigger machine that collects voiced frames, the bounded capture buffer
 * with its cleanup and error counters, and the first-word keyword decision.
 *
 * The microphone, the speech recognisers and the voice-activity detector
 * itself are inputs: a captured clip is a byte sequence, a recognition is
 * an `Option<string>` (None when the recogniser raised), and the detector's
 * decisions are a sequence of booleans, one per frame.
 */
module Transcriber {
  import opened Wrappers
  import opened Strings

  type Bytes = seq<bv8>

  /** `b''.join(parts)`. */
  function Concat(parts: seq<Bytes>): Bytes
    decreases |parts|
  {
    if parts == [] then [] else Concat(parts[..|parts| - 1]) + parts[|parts| - 1]
  }

  // ------------------------------------------------------------ frame_generator

  /** `int(sample_rate * (frame_duration_ms / 1000.0) * 2)`: bytes per frame of 16-bit samples. */
  function FrameSize(sampleRate: nat, frameMs: nat): int {
    ((sampleRate as real) * ((frameMs as real) / 1000.0) * 2.0).Floor
  }

  /** The recorder's 30 ms frames at 16 kHz are 960 bytes long. */
  lemma RecorderFrameSize()
    ensures FrameSize(16000, 30) == 960
  {
    assert (16000 as real) * ((30 as real) / 1000.0) * 2.0 == 960.0;
  }

  /**
   * `frame_generator`: consecutive non-overlapping slices of exactly
   * `frameSize` bytes; a trailing partial slice is dropped.
   */
  method FrameGenerator(frameSize: nat, audio: Bytes) returns (frames: seq<Bytes>)
    requires frameSize > 0
    ensures |frames| * frameSize <= |audio| < |frames| * frameSize + frameSize
    ensures forall i :: 0 <= i < |frames| ==> |frames[i]| == frameSize
    ensures Concat(frames) == audio[..|frames| * frameSize]
  {
    frames := [];
    var offset := 0;
    while offset + frameSize <= |audio|
      invariant offset == |frames| * frameSize <= |audio|
      invariant forall i :: 0 <= i < |frames| ==> |frames[i]| == frameSize
      invariant Concat(frames) == audio[..offset]
      decreases |audio| - offset
    {
      var frame := audio[offset..offset + frameSize];
      assert audio[..offset + frameSize] == audio[..offset] + frame;
      frames := frames + [frame];
      assert frames[..|frames| - 1] + [frame] == frames;
      offset := offset + frameSize;
    }
  }

  // ------------------------------------------------------------ vad_collector

  /** One ring entry: a frame and the detector's decision on it. */
  type Entry = (Bytes, bool)

  /** `int(400 / frame_duration_ms)`: the ring's `maxlen`, 400 ms of padding. */
  function PaddingFrames(frameMs: nat): nat
    requires frameMs > 0
  {
    400 / frameMs
  }

  /** `deque.append` on a deque bounded by `maxLen`: the oldest entries fall out. */
  function Push(ring: seq<Entry>, e: Entry, maxLen: nat): (r: seq<Entry>)
    ensures |r| <= maxLen && |r| <= |ring| + 1
    ensures |ring| < maxLen ==> r == ring + [e]
  {
    var s := ring + [e];
    if |s| > maxLen then s[|s| - maxLen..] else s
  }

  /** `len([f for f, speech in ring if speech])`. */
  function Voiced(ring: seq<Entry>): (n: nat)
    ensures n <= |ring|
  {
    if ring == [] then 0 else Voiced(ring[1..]) + (if ring[0].1 then 1 else 0)
  }

  /** `len([f for f, speech in ring if not speech])`. */
  function Unvoiced(ring: seq<Entry>): (n: nat)
    ensures n <= |ring|
  {
    if ring == [] then 0 else Unvoiced(ring[1..]) + (if ring[0].1 then 0 else 1)
  }

  /** The frames of the ring, oldest first. */
  function FramesOf(ring: seq<Entry>): (r: seq<Bytes>)
    ensures |r| == |ring|
  {
    seq(|ring|, i requires 0 <= i < |ring| => ring[i].0)
  }

  /** `num_voiced > 0.9 * ring_buffer.maxlen`. */
  predicate Triggers(voiced: nat, maxLen: nat) {
    (voiced as real) > 0.9 * (maxLen as real)
  }

  /** The collector's local state: the ring, the trigger flag, the voiced frames and the segments yielded. */
  datatype Vad = Vad(ring: seq<Entry>, triggered: bool, voiced: seq<Bytes>, segments: seq<Bytes>)

  /** One iteration of the `for frame in frames` loop. */
  function VadStep(maxLen: nat, s: Vad, frame: Bytes, speech: bool): Vad {
    if !s.triggered then
      var ring := Push(s.ring, (frame, speech), maxLen);
      if Triggers(Voiced(ring), maxLen) then Vad([], true, s.voiced + FramesOf(ring), s.segments)
      else Vad(ring, false, s.voiced, s.segments)
    else
      var voiced := s.voiced + [frame];
      var ring := Push(s.ring, (frame, speech), maxLen);
      if Unvoiced(ring) > maxLen then Vad([], false, [], s.segments + [Concat(voiced)])
      else Vad(ring, true, voiced, s.segments)
  }

  /** The state after the loop has consumed `frames` with the decisions `speech`. */
  function VadRun(maxLen: nat, frames: seq<Bytes>, speech: seq<bool>): Vad
    requires |frames| == |speech|
    decreases |frames|
  {
    if frames == [] then Vad([], false, [], [])
    else
      var n := |frames| - 1;
      VadStep(maxLen, VadRun(maxLen, frames[..n], speech[..n]), frames[n], speech[n])
  }

  /** Every segment `vad_collector` yields, the final `if voiced_frames` one included. */
  function VadOutput(maxLen: nat, frames: seq<Bytes>, speech: seq<bool>): seq<Bytes>
    requires |frames| == |speech|
  {
    var s := VadRun(maxLen, frames, speech);
    s.segments + if s.voiced != [] then [Concat(s.voiced)] else []
  }

  /** `vad_collector`, with the detector's decision on each frame given as `speech`. */
  method VadCollector(frameMs: nat, frames: seq<Bytes>, speech: seq<bool>) returns (segments: seq<Bytes>)
    requires frameMs > 0 && |frames| == |speech|
    ensures segments == VadOutput(PaddingFrames(frameMs), frames, speech)
  {
    var maxLen := 400 / frameMs;
    var ring: seq<Entry> := [];
    var triggered := false;
    var voiced: seq<Bytes> := [];
    segments := [];
    for i := 0 to |frames|
      invariant Vad(ring, triggered, voiced, segments) == VadRun(maxLen, frames[..i], speech[..i])
    {
      assert frames[..i + 1][..i] == frames[..i] && speech[..i + 1][..i] == speech[..i];
      if !triggered {
        ring := Push(ring, (frames[i], speech[i]), maxLen);
        if Triggers(Voiced(ring), maxLen) {
          triggered := true;
          voiced := voiced + FramesOf(ring);
          ring := [];
        }
      } else {
        voiced := voiced + [frames[i]];
        ring := Push(ring, (frames[i], speech[i]), maxLen);
        if Unvoiced(ring) > maxLen {
          triggered := false;
          segments := segments + [Concat(voiced)];
          ring := [];
          voiced := [];
        }
      }
    }
    assert frames[..|frames|] == frames && speech[..|speech|] == speech;
    if voiced != [] {
      segments := segments + [Concat(voiced)];
    }
  }

  // ------------------------------------------------------------ vad_collector, closed form

  /** The index of the oldest of the last `maxLen` entries among the first `n`. */
  function Lo(maxLen: nat, n: nat): nat {
    if n > maxLen then n - maxLen else 0
  }

  /** The entries `lo` up to `hi` of the input, as the ring holds them. */
  function Slice(frames: seq<Bytes>, speech: seq<bool>, lo: nat, hi: nat): (r: seq<Entry>)
    requires lo <= hi <= |frames| == |speech|
    ensures |r| == hi - lo
  {
    seq(hi - lo, i requires 0 <= i < hi - lo => (frames[lo + i], speech[lo + i]))
  }

  /** The last `maxLen` entries among the first `n`. */
  function Window(maxLen: nat, frames: seq<Bytes>, speech: seq<bool>, n: nat): seq<Entry>
    requires n <= |frames| == |speech|
  {
    Slice(frames, speech, Lo(maxLen, n), n)
  }

  /** The first `j < n` at which the window ending with frame `j` holds enough voiced frames. */
  function FirstTrigger(maxLen: nat, frames: seq<Bytes>, speech: seq<bool>, n: nat): (t: Option<nat>)
    requires n <= |frames| == |speech|
    ensures t.Some? ==> t.value < n
  {
    if n == 0 then None
    else
      var before := FirstTrigger(maxLen, frames, speech, n - 1);
      if before.Some? then before
      else if Triggers(Voiced(Window(maxLen, frames, speech, n)), maxLen) then Some(n - 1)
      else None
  }

  /** Appending the next entry to the window of the first `n` gives the window of the first `n + 1`. */
  lemma PushWindow(maxLen: nat, frames: seq<Bytes>, speech: seq<bool>, n: nat)
    requires n < |frames| == |speech|
    ensures Push(Window(maxLen, frames, speech, n), (frames[n], speech[n]), maxLen) ==
            Window(maxLen, frames, speech, n + 1)
  {
    var w := Window(maxLen, frames, speech, n);
    var s := w + [(frames[n], speech[n])];
    var w' := Window(maxLen, frames, speech, n + 1);
    if |s| > maxLen {
      assert |s[|s| - maxLen..]| == |w'|;
      forall i | 0 <= i < |w'|
        ensures s[|s| - maxLen..][i] == w'[i]
      {
        assert s[|s| - maxLen..][i] == s[|s| - maxLen + i];
      }
    } else {
      assert |s| == |w'|;
      forall i | 0 <= i < |w'|
        ensures s[i] == w'[i]
      {
      }
    }
  }

  /** The frames of a slice are the corresponding input frames. */
  lemma FramesOfSlice(frames: seq<Bytes>, speech: seq<bool>, lo: nat, hi: nat)
    requires lo <= hi <= |frames| == |speech|
    ensures FramesOf(Slice(frames, speech, lo, hi)) == frames[lo..hi]
  {
  }

  /**
   * The collector's state after `n` frames: nothing has been yielded, the
   * ring never exceeds `maxLen`; before the first trigger the ring is the
   * last `maxLen` entries and nothing is collected; after a trigger at
   * frame `t` the collected frames are exactly the input frames from the
   * start of that window up to now.
   */
  ghost predicate VadInvariant(maxLen: nat, frames: seq<Bytes>, speech: seq<bool>, n: nat, s: Vad)
    requires n <= |frames| == |speech|
  {
    var t := FirstTrigger(maxLen, frames, speech, n);
    s.segments == [] && |s.ring| <= maxLen &&
    (s.triggered <==> t.Some?) &&
    (t.None? ==> s.voiced == [] && s.ring == Window(maxLen, frames, speech, n)) &&
    (t.Some? ==> s.voiced == frames[Lo(maxLen, t.value + 1)..n])
  }

  /** Before the trigger, one more frame keeps the invariant. */
  lemma VadStepUntriggered(maxLen: nat, frames: seq<Bytes>, speech: seq<bool>, m: nat, s: Vad)
    requires m < |frames| == |speech|
    requires VadInvariant(maxLen, frames, speech, m, s) && !s.triggered
    ensures VadInvariant(maxLen, frames, speech, m + 1, VadStep(maxLen, s, frames[m], speech[m]))
  {
    PushWindow(maxLen, frames, speech, m);
    FramesOfSlice(frames, speech, Lo(maxLen, m + 1), m + 1);
  }

  /** After the trigger, one more frame is collected and the end-of-voice branch cannot fire. */
  lemma VadStepTriggered(maxLen: nat, frames: seq<Bytes>, speech: seq<bool>, m: nat, s: Vad)
    requires m < |frames| == |speech|
    requires VadInvariant(maxLen, frames, speech, m, s) && s.triggered
    ensures VadInvariant(maxLen, frames, speech, m + 1, VadStep(maxLen, s, frames[m], speech[m]))
  {
    var lo := Lo(maxLen, FirstTrigger(maxLen, frames, speech, m).value + 1);
    assert frames[lo..m + 1] == frames[lo..m] + [frames[m]];
  }

  /** The invariant holds after every prefix of the input. */
  lemma {:induction false} VadRunState(maxLen: nat, frames: seq<Bytes>, speech: seq<bool>, n: nat)
    requires n <= |frames| == |speech|
    ensures VadInvariant(maxLen, frames, speech, n, VadRun(maxLen, frames[..n], speech[..n]))
    decreases n
  {
    if n > 0 {
      var m := n - 1;
      VadRunState(maxLen, frames, speech, m);
      assert frames[..n][..m] == frames[..m] && speech[..n][..m] == speech[..m];
      var s := VadRun(maxLen, frames[..m], speech[..m]);
      assert VadRun(maxLen, frames[..n], speech[..n]) == VadStep(maxLen, s, frames[m], speech[m]);
      if s.triggered {
        VadStepTriggered(maxLen, frames, speech, m, s);
      } else {
        VadStepUntriggered(maxLen, frames, speech, m, s);
      }
    }
  }

  /**
   * `vad_collector` yields at most one segment, at the end of the input:
   * when some window of the last `maxLen` frames is voiced enough, the
   * concatenation, in order, of every input frame from the start of the
   * first such window to the end; otherwise nothing. The end-of-voice
   * branch never fires, since the ring never holds more than `maxLen`
   * entries.
   */
  lemma VadOutputClosedForm(maxLen: nat, frames: seq<Bytes>, speech: seq<bool>)
    requires |frames| == |speech|
    ensures var t := FirstTrigger(maxLen, frames, speech, |frames|);
            VadOutput(maxLen, frames, speech) ==
              if t.None? then [] else [Concat(frames[Lo(maxLen, t.value + 1)..])]
  {
    VadRunState(maxLen, frames, speech, |frames|);
    assert frames[..|frames|] == frames && speech[..|speech|] == speech;
  }

  /** With the recorder's 30 ms frames the ring holds 13 entries, and triggering needs 12 voiced ones. */
  lemma RecorderPadding(voiced: nat)
    ensures PaddingFrames(30) == 13
    ensures Triggers(voiced, 13) <==> voiced >= 12
  {
  }

  // ------------------------------------------------------------ detect_keyword_in_segment

  /** The longest prefix of `s` without whitespace. */
  function WordAt(s: string): (r: string)
    ensures |r| <= |s| && r == s[..|r|]
    ensures forall i :: 0 <= i < |r| ==> !IsSpace(r[i])
    ensures |r| < |s| ==> IsSpace(s[|r|])
  {
    if s == [] || IsSpace(s[0]) then [] else [s[0]] + WordAt(s[1..])
  }

  /** `text.split()[0]`, or None when the text is blank. */
  function FirstWord(text: string): (w: Option<string>)
    ensures w.Some? ==> w.value != [] && !IsSpace(w.value[0]) && !IsSpace(w.value[|w.value| - 1])
  {
    var t := TrimStart(text);
    if t == [] then None else Some(WordAt(t))
  }

  /** `text[k:]` for an index from `str.find`: -1 counts from the end, as in Python. */
  function SliceFrom(text: string, k: int): string {
    if k >= 0 then text[if k <= |text| then k else |text|..]
    else text[if |text| + k >= 0 then |text| + k else 0..]
  }

  const Stop: string := "stop"
  const StopAnswer: string := "Stop"
  const RecognizedPrefix: string := "Texto reconocido: "

  /** The similarity above which a word counts as the keyword or as "stop". */
  const Threshold: real := 80.0

  /**
   * `detect_keyword_in_segment`, given what the recogniser returned (None
   * when it raised): only the first word is compared. `fromKeyword` says
   * what is returned when that word is the keyword.
   */
  function DetectWith(recognized: Option<string>, keyword: string, ratio: (string, string) -> real,
                      fromKeyword: (string, string) -> string): Option<string>
  {
    if recognized.None? then None
    else
      var text := recognized.value;
      var w := FirstWord(text);
      if w.None? then None
      else if ratio(Lower(w.value), Lower(keyword)) > Threshold then Some(fromKeyword(text, w.value))
      else if ratio(Lower(w.value), Lower(Stop)) > Threshold then Some(StopAnswer)
      else Some(RecognizedPrefix + text)
  }

  /** `text[text.lower().find(word):].strip()`, as written: the word itself is not lower-cased. */
  function FromWordAsWritten(text: string, word: string): string {
    Strip(SliceFrom(text, Find(Lower(text), word)))
  }

  /** The text from the keyword on, found by comparing lower case with lower case. */
  function FromWord(text: string, word: string): string {
    Strip(SliceFrom(text, Find(Lower(text), Lower(word))))
  }

  function DetectAsWritten(recognized: Option<string>, keyword: string, ratio: (string, string) -> real): Option<string> {
    DetectWith(recognized, keyword, ratio, FromWordAsWritten)
  }

  function DetectKeyword(recognized: Option<string>, keyword: string, ratio: (string, string) -> real): Option<string> {
    DetectWith(recognized, keyword, ratio, FromWord)
  }

  /** Lower-casing never produces an ASCII capital. */
  lemma LowerCharNotUpper(c: char)
    ensures !('A' <= LowerChar(c) <= 'Z')
  {
  }

  /** Lower-casing leaves whitespace alone. */
  lemma LowerCharSpace(c: char)
    requires IsSpace(c)
    ensures LowerChar(c) == c
  {
  }

  /** Nothing is detected exactly when the recogniser raised or heard only whitespace. */
  lemma DetectNone(recognized: Option<string>, keyword: string, ratio: (string, string) -> real,
                   fromKeyword: (string, string) -> string)
    ensures DetectWith(recognized, keyword, ratio, fromKeyword).None? <==>
              recognized.None? || forall i :: 0 <= i < |recognized.value| ==> IsSpace(recognized.value[i])
  {
    if recognized.Some? {
      var text := recognized.value;
      var t := TrimStart(text);
      if t != [] {
        assert !IsSpace(text[|text| - |t|]);
      }
    }
  }

  /** The first word sits where the leading whitespace ends, and its lower-case form is first found there. */
  lemma FindFirstWord(text: string, w: string)
    requires FirstWord(text) == Some(w)
    ensures Find(Lower(text), Lower(w)) == |text| - |TrimStart(text)|
  {
    var t := TrimStart(text);
    var p := |text| - |t|;
    assert w == WordAt(t) && t[..|w|] == w;
    assert text[p..p + |w|] == t[..|w|];
    LowerAtWord(text, w, p);
    LowerCharNotSpace(w[0]);
    NotInLeadingSpace(text, Lower(w), p);
    FindFrom0(Lower(text), Lower(w), p);
  }

  /** A word found at `p` in the text is found at `p`, lower-cased, in the lower-cased text. */
  lemma LowerAtWord(text: string, w: string, p: nat)
    requires p + |w| <= |text| && text[p..p + |w|] == w
    ensures OccursAt(Lower(text), Lower(w), p)
  {
    var lt := Lower(text);
    var lw := Lower(w);
    forall i | 0 <= i < |w|
      ensures lt[p..p + |w|][i] == lw[i]
    {
      assert text[p + i] == w[i];
    }
    assert lt[p..p + |w|] == lw;
  }

  /** A pattern starting with a visible character does not occur inside leading whitespace. */
  lemma NotInLeadingSpace(text: string, pat: string, p: nat)
    requires p <= |text| && forall k :: 0 <= k < p ==> IsSpace(text[k])
    requires pat != [] && !IsSpace(pat[0])
    ensures forall k :: 0 <= k < p ==> !OccursAt(Lower(text), pat, k)
  {
    var lt := Lower(text);
    forall k | 0 <= k < p
      ensures !OccursAt(lt, pat, k)
    {
      LowerCharSpace(text[k]);
      assert lt[k] != pat[0];
    }
  }

  /** Stripping whitespace at the front first changes nothing for `strip()`. */
  lemma StripTrimStart(text: string)
    ensures Strip(TrimStart(text)) == Strip(text)
  {
    var t := TrimStart(text);
    assert TrimStart(t) == t;
  }

  /** The stripped text begins with its first word. */
  lemma StripStartsWithFirstWord(text: string, w: string)
    requires FirstWord(text) == Some(w)
    ensures StartsWith(Strip(text), w)
  {
    var t := TrimStart(text);
    var r := TrimEnd(t);
    assert t[..|w|] == w;
    assert !IsSpace(t[|w| - 1]);
    assert |r| >= |w|;
    assert r[..|w|] == t[..|w|];
  }

  /**
   * When the first word is the keyword, the detection is the whole text,
   * stripped, which starts with that word.
   */
  lemma KeywordGivesText(text: string, keyword: string, ratio: (string, string) -> real)
    requires FirstWord(text).Some?
    requires ratio(Lower(FirstWord(text).value), Lower(keyword)) > Threshold
    ensures DetectKeyword(Some(text), keyword, ratio) == Some(Strip(text))
    ensures StartsWith(Strip(text), FirstWord(text).value)
  {
    var w := FirstWord(text).value;
    FindFirstWord(text, w);
    var p := |text| - |TrimStart(text)|;
    assert SliceFrom(text, p) == TrimStart(text);
    StripTrimStart(text);
    StripStartsWithFirstWord(text, w);
  }

  /**
   * As written, a keyword spoken with a capital letter is searched for in
   * the lower-cased text, is not found (-1), and the detection is the last
   * character of the text.
   */
  lemma CapitalisedKeywordAsWritten(text: string, keyword: string, ratio: (string, string) -> real, i: nat)
    requires FirstWord(text).Some?
    requires ratio(Lower(FirstWord(text).value), Lower(keyword)) > Threshold
    requires i < |FirstWord(text).value| && 'A' <= FirstWord(text).value[i] <= 'Z'
    ensures text != [] && DetectAsWritten(Some(text), keyword, ratio) == Some(Strip([text[|text| - 1]]))
  {
    var w := FirstWord(text).value;
    forall j | 0 <= j < |text|
      ensures !('A' <= Lower(text)[j] <= 'Z')
    {
      LowerCharNotUpper(text[j]);
    }
    CapitalNotFound(Lower(text), w, i);
    assert SliceFrom(text, -1) == [text[|text| - 1]];
  }

  /** A pattern holding a capital letter is not found in text without capitals. */
  lemma CapitalNotFound(s: string, w: string, i: nat)
    requires forall j :: 0 <= j < |s| ==> !('A' <= s[j] <= 'Z')
    requires i < |w| && 'A' <= w[i] <= 'Z'
    ensures Find(s, w) == -1
  {
    forall k | 0 <= k
      ensures !OccursAt(s, w, k)
    {
      if k + |w| <= |s| {
        assert s[k..k + |w|][i] == s[k + i] != w[i];
      }
    }
  }

  /**
   * The correction changes nothing when the first word has no capital
   * letter: searching for the word and for its lower-case form is the same
   * search.
   */
  lemma LowerWordAgrees(recognized: Option<string>, keyword: string, ratio: (string, string) -> real)
    requires recognized.Some? && FirstWord(recognized.value).Some? ==>
               Lower(FirstWord(recognized.value).value) == FirstWord(recognized.value).value
    ensures DetectKeyword(recognized, keyword, ratio) == DetectAsWritten(recognized, keyword, ratio)
  {
  }

  /** The stop word and an ordinary first word. */
  lemma OtherWords(text: string, keyword: string, ratio: (string, string) -> real)
    requires FirstWord(text).Some?
    requires !(ratio(Lower(FirstWord(text).value), Lower(keyword)) > Threshold)
    ensures ratio(Lower(FirstWord(text).value), Lower(Stop)) > Threshold ==>
              DetectKeyword(Some(text), keyword, ratio) == Some(StopAnswer)
    ensures !(ratio(Lower(FirstWord(text).value), Lower(Stop)) > Threshold) ==>
              DetectKeyword(Some(text), keyword, ratio) == Some(RecognizedPrefix + text)
  {
  }

  // ------------------------------------------------------------ detect_keyword_in_buffer

  const BufferSize: nat := 6
  const CleanupTime: nat := 10
  const ResetThreshold: nat := 20

  /** The capture loop's state: the audio buffer, both counters and how often the recogniser was replaced. */
  datatype Capture = Capture(buffer: seq<Bytes>, timeCounter: nat, errorCounter: nat, resets: nat)

  predicate Bounded(c: Capture) {
    |c.buffer| <= BufferSize && c.timeCounter < CleanupTime && c.errorCounter < ResetThreshold
  }

  /** `time_counter += 1`, clearing the buffer and the counter once it reaches `cleanup_time`. */
  function Tick(buffer: seq<Bytes>, timeCounter: nat): (seq<Bytes>, nat) {
    if timeCounter + 1 >= CleanupTime then ([], 0) else (buffer, timeCounter + 1)
  }

  /** One clip captured and `detected` found in it (lines 68-82); only a non-empty detection is truthy. */
  function AfterCapture(c: Capture, audio: Bytes, detected: Option<string>): Capture {
    var buffer := (if |c.buffer| >= BufferSize then c.buffer[1..] else c.buffer) + [audio];
    var (b, t) := Tick(buffer, c.timeCounter);
    Capture(if Truthy(detected) then [] else b, t, c.errorCounter, c.resets)
  }

  /** One `WaitTimeoutError` (lines 84-93). */
  function AfterTimeout(c: Capture): Capture {
    var (b, t) := Tick(c.buffer, c.timeCounter);
    var e := c.errorCounter + 1;
    if e >= ResetThreshold then Capture(b, t, 0, c.resets + 1) else Capture(b, t, e, c.resets)
  }

  /** The last `n` elements of `s` (all of them when there are fewer). */
  function Last(s: seq<Bytes>, n: nat): seq<Bytes> {
    if |s| <= n then s else s[|s| - n..]
  }

  /**
   * A capture keeps the bounds: the buffer is the newest six clips, the
   * new one last, unless it was cleared, which happens exactly when the
   * time counter reaches ten or a non-empty detection came back; the error
   * counter is left alone.
   */
  lemma CaptureEffect(c: Capture, audio: Bytes, detected: Option<string>)
    requires Bounded(c)
    ensures var d := AfterCapture(c, audio, detected);
            Bounded(d) &&
            (d.buffer == [] <==> c.timeCounter + 1 == CleanupTime || Truthy(detected)) &&
            (d.buffer != [] ==> d.buffer == Last(c.buffer + [audio], BufferSize)) &&
            d.timeCounter == (c.timeCounter + 1) % CleanupTime &&
            d.errorCounter == c.errorCounter && d.resets == c.resets
  {
    var s := c.buffer + [audio];
    if |c.buffer| >= BufferSize {
      assert c.buffer[1..] + [audio] == s[|s| - BufferSize..];
    }
  }

  /**
   * A timeout keeps the bounds; the recogniser is replaced exactly when
   * the error counter reaches twenty, which then starts again from zero.
   */
  lemma TimeoutEffect(c: Capture)
    requires Bounded(c)
    ensures var d := AfterTimeout(c);
            Bounded(d) &&
            (d.buffer == [] <==> c.timeCounter + 1 == CleanupTime || c.buffer == []) &&
            (d.buffer != [] ==> d.buffer == c.buffer) &&
            d.timeCounter == (c.timeCounter + 1) % CleanupTime &&
            d.errorCounter == (c.errorCounter + 1) % ResetThreshold &&
            (d.resets == c.resets + 1 <==> c.errorCounter + 1 == ResetThreshold) &&
            (d.resets == c.resets || d.resets == c.resets + 1)
  {
  }

  /** The fields of `Transcriber` that `detect_keyword_in_buffer` updates. */
  class Transcriber {
    var buffer: seq<Bytes>
    var timeCounter: nat
    var errorCounter: nat
    var resets: nat

    function State(): Capture
      reads this
    {
      Capture(buffer, timeCounter, errorCounter, resets)
    }

    ghost predicate Valid()
      reads this
    {
      Bounded(State())
    }

    constructor()
      ensures State() == Capture([], 0, 0, 0) && Valid()
    {
      buffer := [];
      timeCounter := 0;
      errorCounter := 0;
      resets := 0;
    }

    /** `clear_audio_buffer`: takes clips out until the buffer is empty. */
    method ClearAudioBuffer()
      modifies this
      ensures State() == old(State()).(buffer := [])
    {
      while buffer != []
        invariant timeCounter == old(timeCounter) && errorCounter == old(errorCounter) && resets == old(resets)
        decreases |buffer|
      {
        buffer := buffer[1..];
      }
    }

    /** One pass of the capture loop that heard `audio`; the recogniser returned `recognized`. */
    method Captured(audio: Bytes, recognized: Option<string>, keyword: string, ratio: (string, string) -> real)
      returns (detected: Option<string>)
      requires Valid()
      modifies this
      ensures detected == DetectKeyword(recognized, keyword, ratio)
      ensures State() == AfterCapture(old(State()), audio, detected)
      ensures Valid()
    {
      ghost var c := State();
      if |buffer| >= BufferSize {
        buffer := buffer[1..];
      }
      buffer := buffer + [audio];
      timeCounter := timeCounter + 1;
      if timeCounter >= CleanupTime {
        ClearAudioBuffer();
        timeCounter := 0;
      }
      detected := DetectKeyword(recognized, keyword, ratio);
      if Truthy(detected) {
        ClearAudioBuffer();
      }
      CaptureEffect(c, audio, detected);
    }

    /** One pass of the capture loop that timed out. */
    method TimedOut()
      requires Valid()
      modifies this
      ensures State() == AfterTimeout(old(State()))
      ensures Valid()
    {
      ghost var c := State();
      timeCounter := timeCounter + 1;
      if timeCounter >= CleanupTime {
        ClearAudioBuffer();
        timeCounter := 0;
      }
      errorCounter := errorCounter + 1;
      if errorCounter >= ResetThreshold {
        resets := resets + 1;
        errorCounter := 0;
      }
      TimeoutEffect(c);
    }
  }
}
