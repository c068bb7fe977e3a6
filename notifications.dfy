/**
 * The time-windowed duplicate filter in front of the outbound notification
 * queue (`add_notification` in event_listener.py). A message is normalised
 * (stripped, lower-cased); history entries older than the window are
 * dropped from the front; a message whose normalised text is still in the
 * history is discarded; otherwise it is recorded and "Notify:" + message is
 * queued.
 */
module Notifications {
  import opened Strings

  /** Seconds during which equal normalised texts are collapsed. */
  const DuplicateWindow: real := 30.0

  /** Routing prefix of every queued notification. */
  const NotifyPrefix: string := "Notify:"

  /** A history record: normalised text and the clock reading when it was admitted. */
  datatype Entry = Entry(text: string, time: real)

  /** The dedup history (`recent_notifications`) and the outbound queue (`notification_queue`). */
  datatype Outbox = Outbox(recent: seq<Entry>, queue: seq<string>)

  const EmptyOutbox: Outbox := Outbox([], [])

  function Normalize(message: string): string {
    Lower(Strip(message))
  }

  /**
   * Prefix trim of the history: entries are dropped from the front while
   * they are strictly older than the window.
   */
  function Prune(recent: seq<Entry>, now: real): (r: seq<Entry>)
    ensures |r| <= |recent| && r == recent[|recent| - |r|..]
    ensures r == [] || now - r[0].time <= DuplicateWindow
    ensures forall i :: 0 <= i < |recent| - |r| ==> now - recent[i].time > DuplicateWindow
  {
    if |recent| > 0 && now - recent[0].time > DuplicateWindow then Prune(recent[1..], now) else recent
  }

  /** Some history entry carries `text`. */
  predicate Seen(recent: seq<Entry>, text: string) {
    exists i :: 0 <= i < |recent| && recent[i].text == text
  }

  /** One call of `add_notification(message)` at clock reading `now`. */
  function Admit(o: Outbox, message: string, now: real): (r: Outbox)
    ensures r.queue == o.queue || r.queue == o.queue + [NotifyPrefix + message]
  {
    AdmitNormalized(o, Normalize(message), message, now)
  }

  /** The body of `add_notification` once the message's normalised form `text` is known. */
  function AdmitNormalized(o: Outbox, text: string, message: string, now: real): Outbox {
    var kept := Prune(o.recent, now);
    if Seen(kept, text) then Outbox(kept, o.queue)
    else Outbox(kept + [Entry(text, now)], o.queue + [NotifyPrefix + message])
  }

  /** `add_notification` called on each message in turn. */
  function AdmitAll(o: Outbox, messages: seq<string>, now: real): Outbox
    decreases |messages|
  {
    if messages == [] then o
    else AdmitAll(Admit(o, messages[0], now), messages[1..], now)
  }

  /** Admitting two batches in turn is admitting their concatenation. */
  lemma {:induction false} AdmitAllAppend(o: Outbox, xs: seq<string>, ys: seq<string>, now: real)
    ensures AdmitAll(o, xs + ys, now) == AdmitAll(AdmitAll(o, xs, now), ys, now)
    decreases |xs|
  {
    if xs == [] {
      assert xs + ys == ys;
    } else {
      assert (xs + ys)[0] == xs[0];
      assert (xs + ys)[1..] == xs[1..] + ys;
      AdmitAllAppend(Admit(o, xs[0], now), xs[1..], ys, now);
    }
  }

  /** Admitting a single message is one `Admit`. */
  lemma AdmitAllSingle(o: Outbox, m: string, now: real)
    ensures AdmitAll(o, [m], now) == Admit(o, m, now)
  {
    assert [m][1..] == [];
  }

  /** Admitting one more message after a batch. */
  lemma AdmitAllSnoc(o: Outbox, xs: seq<string>, m: string, now: real)
    ensures AdmitAll(o, xs + [m], now) == Admit(AdmitAll(o, xs, now), m, now)
  {
    AdmitAllAppend(o, xs, [m], now);
    AdmitAllSingle(AdmitAll(o, xs, now), m, now);
  }

  /** Timestamps never decrease along the history (the clock does not run backwards). */
  ghost predicate Ordered(recent: seq<Entry>) {
    forall i, j :: 0 <= i < j < |recent| ==> recent[i].time <= recent[j].time
  }

  /** No two history entries carry the same text. */
  ghost predicate DistinctTexts(recent: seq<Entry>) {
    forall i, j :: 0 <= i < j < |recent| ==> recent[i].text != recent[j].text
  }

  /** The history's shape when every admission happened at or before `now`. */
  ghost predicate Valid(o: Outbox, now: real) {
    Ordered(o.recent) && DistinctTexts(o.recent) &&
    forall i :: 0 <= i < |o.recent| ==> o.recent[i].time <= now
  }

  /**
   * A history entry with the same normalised text that is at most the window
   * old (an entry exactly 30 s old included) suppresses the message.
   */
  lemma WithinWindowSuppresses(o: Outbox, message: string, now: real, i: int)
    requires 0 <= i < |o.recent|
    requires o.recent[i].text == Normalize(message)
    requires now - o.recent[i].time <= DuplicateWindow
    ensures Admit(o, message, now) == Outbox(Prune(o.recent, now), o.queue)
  {
    var kept := Prune(o.recent, now);
    var off := |o.recent| - |kept|;
    assert i >= off;
    assert kept[i - off] == o.recent[i];
    assert Seen(kept, Normalize(message));
  }

  /**
   * Over a time-ordered history, a message is queued exactly when every
   * earlier entry with its normalised text is strictly older than the window.
   */
  lemma EnqueuedIffNoRecentTwin(o: Outbox, message: string, now: real)
    requires Ordered(o.recent)
    ensures Admit(o, message, now).queue == o.queue + [NotifyPrefix + message] <==>
            forall i :: 0 <= i < |o.recent| && o.recent[i].text == Normalize(message) ==>
                          now - o.recent[i].time > DuplicateWindow
  {
    NormalizedEnqueuedIff(o, Normalize(message), message, now);
  }

  lemma NormalizedEnqueuedIff(o: Outbox, text: string, message: string, now: real)
    requires Ordered(o.recent)
    ensures AdmitNormalized(o, text, message, now).queue == o.queue + [NotifyPrefix + message] <==>
            forall i :: 0 <= i < |o.recent| && o.recent[i].text == text ==>
                          now - o.recent[i].time > DuplicateWindow
  {
    var kept := Prune(o.recent, now);
    if forall i :: 0 <= i < |o.recent| && o.recent[i].text == text ==> now - o.recent[i].time > DuplicateWindow {
      NoRecentTwinUnseen(o.recent, text, now);
    } else {
      var i :| 0 <= i < |o.recent| && o.recent[i].text == text && now - o.recent[i].time <= DuplicateWindow;
      RecentTwinSeen(o.recent, text, now, i);
      assert |o.queue + [NotifyPrefix + message]| != |o.queue|;
    }
  }

  /** Over a time-ordered history, every entry pruning keeps is within the window. */
  lemma NoRecentTwinUnseen(recent: seq<Entry>, text: string, now: real)
    requires Ordered(recent)
    requires forall i :: 0 <= i < |recent| && recent[i].text == text ==> now - recent[i].time > DuplicateWindow
    ensures !Seen(Prune(recent, now), text)
  {
    var kept := Prune(recent, now);
    var off := |recent| - |kept|;
    forall k | 0 <= k < |kept|
      ensures kept[k].text != text
    {
      assert kept[k] == recent[off + k];
      assert kept[0] == recent[off];
    }
  }

  /** An entry at most the window old survives pruning. */
  lemma RecentTwinSeen(recent: seq<Entry>, text: string, now: real, i: int)
    requires 0 <= i < |recent| && recent[i].text == text
    requires now - recent[i].time <= DuplicateWindow
    ensures Seen(Prune(recent, now), text)
  {
    var kept := Prune(recent, now);
    var off := |recent| - |kept|;
    assert i >= off;
    assert kept[i - off] == recent[i];
  }

  /** Admission keeps the history ordered and free of repeated texts. */
  lemma AdmitPreservesValid(o: Outbox, message: string, before: real, now: real)
    requires Valid(o, before) && before <= now
    ensures Valid(Admit(o, message, now), now)
  {
    var kept := Prune(o.recent, now);
    SuffixValid(o.recent, |o.recent| - |kept|, before);
    if !Seen(kept, Normalize(message)) {
      AppendValid(kept, Entry(Normalize(message), now), before);
    }
  }

  lemma SuffixValid(recent: seq<Entry>, off: nat, now: real)
    requires off <= |recent| && Valid(Outbox(recent, []), now)
    ensures Valid(Outbox(recent[off..], []), now)
  {
    var s := recent[off..];
    assert forall k :: 0 <= k < |s| ==> s[k] == recent[off + k];
  }

  lemma AppendValid(recent: seq<Entry>, e: Entry, before: real)
    requires Valid(Outbox(recent, []), before) && before <= e.time
    requires !Seen(recent, e.text)
    ensures Valid(Outbox(recent + [e], []), e.time)
  {
    var s := recent + [e];
    assert forall k :: 0 <= k < |recent| ==> s[k] == recent[k];
  }

  /**
   * Once a message is queued at `t1`, the same normalised text offered again
   * no more than the window later is discarded.
   */
  lemma RepeatWithinWindowDiscarded(o: Outbox, m1: string, t1: real, m2: string, t2: real)
    requires Admit(o, m1, t1).queue == o.queue + [NotifyPrefix + m1]
    requires Normalize(m2) == Normalize(m1)
    requires t2 - t1 <= DuplicateWindow
    ensures Admit(Admit(o, m1, t1), m2, t2).queue == Admit(o, m1, t1).queue
  {
    var o1 := Admit(o, m1, t1);
    var kept := Prune(o.recent, t1);
    if Seen(kept, Normalize(m1)) {
      assert false;
    }
    assert o1.recent == kept + [Entry(Normalize(m1), t1)];
    WithinWindowSuppresses(o1, m2, t2, |o1.recent| - 1);
  }
}
