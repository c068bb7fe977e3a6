/** What the monitor's handlers promise, proved about the step functions of EventListenerSpec. */
module EventListenerProperties {
  import opened Wrappers
  import opened Strings
  import opened EventListenerSpec

  // --------------------------------------------------- klipper and the MCU

  /**
   * The Klipper state is announced exactly when it is present and differs
   * from the stored one; it is then stored, and the connection-lost
   * message is among the messages exactly when it is "shutdown" or
   * "error" in any case.
   */
  lemma KlipperAnnouncesChange(st: MonitorState, k: Option<KlipperStatus>)
    ensures var r := KlipperStep(st, k);
      (r.says != [] <==> k.Some? && k.value.state.Some? && k.value.state != st.prevKlipperState) &&
      (r.says == [] ==> r.state == st) &&
      (r.says != [] ==>
         r.state == st.(prevKlipperState := k.value.state) &&
         r.says[0] == KlipperStateNotice(k.value.state.value) &&
         r.says == [KlipperStateNotice(k.value.state.value)]
                   + (if Truthy(k.value.stateMessage) then [StateMessageNotice(k.value.stateMessage.value)] else [])
                   + (if KlipperLost(k.value.state.value) then [KlipperLostNotice(k.value.state.value)] else []) &&
         (KlipperLostNotice(k.value.state.value) in r.says <==> KlipperLost(k.value.state.value)))
  {
  }

  /**
   * The MCU state is announced exactly when it is present and differs from
   * the stored one; it is then stored, and the connection-lost message is
   * added exactly when it is "shutdown", "error" or "offline" in any case.
   */
  lemma McuAnnouncesChange(st: MonitorState, m: Option<McuStatus>)
    ensures var r := McuStep(st, m);
      (r.says != [] <==> m.Some? && m.value.state.Some? && m.value.state != st.prevMcuState) &&
      (r.says == [] ==> r.state == st) &&
      (r.says != [] ==>
         r.state == st.(prevMcuState := m.value.state) &&
         r.says[0] == McuStateNotice(m.value.state.value) &&
         r.says == [McuStateNotice(m.value.state.value)]
                   + (if McuLost(m.value.state.value) then [McuLostNotice(m.value.state.value)] else []) &&
         (McuLostNotice(m.value.state.value) in r.says <==> McuLost(m.value.state.value)))
  {
  }

  // ------------------------------------------------------------ print_stats

  /**
   * A print-state change is announced, with one message, exactly when the
   * state is present and differs from the stored one, which it replaces.
   * "printing" raises `has_started_printing` and lowers
   * `print_started_notified`; the stop states lower both; "ready" and
   * unknown states leave both as they were.
   */
  lemma PrintStatsTransition(st: MonitorState, p: Option<PrintStats>)
    ensures var r := PrintStatsStep(st, p);
      (r.says != [] <==> p.Some? && p.value.state.Some? && p.value.state != st.prevPrintState) &&
      (r.says == [] ==> r.state == st) &&
      (r.says != [] ==>
         var s := p.value.state.value;
         |r.says| == 1 && r.state.prevPrintState == Some(s) &&
         (s == "printing" ==> r.state == st.(prevPrintState := Some(s), hasStartedPrinting := true, printStartedNotified := false)) &&
         (StopState(s) ==> r.state == st.(prevPrintState := Some(s), hasStartedPrinting := false, printStartedNotified := false)) &&
         (s != "printing" && !StopState(s) ==> r.state == st.(prevPrintState := Some(s))))
  {
  }

  /**
   * A change to "printing" names the file without its ".gcode" extension:
   * "x.gcode" is announced as "x", a name without the extension as it is,
   * and an empty name as no file at all.
   */
  lemma PrintingNamesFile(st: MonitorState, name: string)
    requires st.prevPrintState != Some("printing")
    requires !Contains(name, ".gcode")
    ensures PrintStatsStep(st, Some(PrintStats(Some("printing"), Some(name + ".gcode")))).says == [PrintingFileNotice(name)]
    ensures name != "" ==> PrintStatsStep(st, Some(PrintStats(Some("printing"), Some(name)))).says == [PrintingFileNotice(name)]
    ensures name == "" ==> PrintStatsStep(st, Some(PrintStats(Some("printing"), Some(name)))).says == [PrintingNoFileNotice]
  {
    ExtensionStripped(name);
  }

  // ------------------------------------------------------------ file names

  /** ".gcode" cannot straddle the end of a name that does not contain it. */
  lemma ExtensionOnlyAtEnd(name: string)
    requires !Contains(name, ".gcode")
    ensures forall k :: 0 <= k < |name| ==> !OccursAt(name + ".gcode", ".gcode", k)
  {
    var t := name + ".gcode";
    forall k | 0 <= k < |name|
      ensures !OccursAt(t, ".gcode", k)
    {
      if k + 6 <= |name| {
        assert t[k..k + 6] == name[k..k + 6];
        assert !OccursAt(name, ".gcode", k);
      } else {
        var j := |name| - k;
        assert t[k..k + 6][j] == t[|name|] == '.';
        assert ".gcode"[j] != '.';
      }
    }
  }

  /** `filename.replace(".gcode", "")` takes the extension off "x.gcode" and gives back "x". */
  lemma ExtensionStripped(name: string)
    requires !Contains(name, ".gcode")
    ensures WithoutExtension(name + ".gcode") == name
    ensures WithoutExtension(name) == name
  {
    ExtensionOnlyAtEnd(name);
    ReplaceTrailing(name, ".gcode");
  }

  /** A file "x.gcode" that appears or disappears is announced as "x". */
  lemma AnnounceStripsExtension(change: FileChange, names: seq<string>)
    requires forall i :: 0 <= i < |names| ==> !Contains(names[i], ".gcode")
    ensures Announce(change, seq(|names|, i requires 0 <= i < |names| => names[i] + ".gcode")) ==
            seq(|names|, i requires 0 <= i < |names| => FileNotice(change, names[i]))
  {
    forall i | 0 <= i < |names|
      ensures WithoutExtension(names[i] + ".gcode") == names[i]
    {
      ExtensionStripped(names[i]);
    }
  }

  // ------------------------------------------------ the temperature watcher

  /** A disarmed watcher, or one during a print, does nothing on a tick. */
  lemma TickIdle(st: MonitorState, q: Query)
    requires !st.monitoring || st.hasStartedPrinting
    ensures TickStep(st, q) == Step(st, [])
  {
  }

  /** The heater a query reports for a channel. */
  function Reported(q: Query, ch: Channel): Option<Heater>
    requires q.QueryOk?
  {
    match ch
    case Bed => q.bed
    case Extruder => q.extruder
  }

  /**
   * On a tick of an armed watcher outside a print, a channel with a nonzero
   * target that is within 0.5 degrees and not yet latched announces it,
   * latches and disarms the watcher (the bed's message comes first, the
   * extruder's last); one more than 0.5 degrees away releases its latch.
   */
  lemma TickLatches(st: MonitorState, q: Query, ch: Channel)
    requires st.monitoring && !st.hasStartedPrinting && q.QueryOk?
    requires Reported(q, ch).Some?
    requires Reported(q, ch).value.temperature.Some? && Reported(q, ch).value.target.Some?
    requires Reported(q, ch).value.target.value.value != 0.0
    ensures var h := Reported(q, ch).value;
      var gap := Abs(h.temperature.value - h.target.value.value);
      var r := TickStep(st, q);
      (gap <= TemperatureTolerance && !Reached(st, ch) ==>
         Reached(r.state, ch) && !r.state.monitoring &&
         TargetReachedNotice(ch, h.target.value.text) in r.says &&
         (ch == Bed ==> r.says[0] == TargetReachedNotice(ch, h.target.value.text)) &&
         (ch == Extruder ==> r.says[|r.says| - 1] == TargetReachedNotice(ch, h.target.value.text))) &&
      (gap > TemperatureTolerance ==> !Reached(r.state, ch))
  {
    var h := Reported(q, ch).value;
    var b := ChannelTick(Bed, st.bedReached, q.bed);
    var e := ChannelTick(Extruder, st.extruderReached, q.extruder);
    var r := TickStep(st, q);
    assert r.says == b.says + e.says;
    if ch == Bed {
      assert b.says == [] || b.says[0] in r.says;
    } else {
      assert e.says == [] || e.says[0] == r.says[|b.says|];
    }
  }

  /**
   * A tick that announces anything leaves the watcher disarmed, so the next
   * tick says nothing, however far the temperatures drift: only a new
   * target re-arms it.
   */
  lemma {:induction false} SpeakingTickDisarms(st: MonitorState, q1: Query, q2: Query)
    requires TickStep(st, q1).says != []
    ensures !TickStep(st, q1).state.monitoring
    ensures TickStep(TickStep(st, q1).state, q2).says == []
    ensures |TickStep(st, q1).says| <= 2
  {
    var b := ChannelTick(Bed, st.bedReached, q1.bed);
    var e := ChannelTick(Extruder, st.extruderReached, q1.extruder);
    assert b.says != [] ==> b.disarm;
    assert e.says != [] ==> e.disarm;
  }

  /** Arming an armed watcher does nothing. */
  lemma StartWhenArmed(st: MonitorState, q: Query)
    requires st.monitoring
    ensures StartMonitoringStep(st, q) == Step(st, [])
  {
  }

  // ------------------------------------------------------ heater targets

  /** A tick changes only the two latches and the armed flag, and says at most two things. */
  lemma TickShape(st: MonitorState, q: Query)
    ensures var r := TickStep(st, q);
      r.state == st.(bedReached := r.state.bedReached, extruderReached := r.state.extruderReached,
                     monitoring := r.state.monitoring) &&
      |r.says| <= 2
  {
  }

  /** Arming changes only the two latches and the armed flag, and says at most two things. */
  lemma StartMonitoringShape(st: MonitorState, q: Query)
    ensures var r := StartMonitoringStep(st, q);
      r.state == st.(bedReached := r.state.bedReached, extruderReached := r.state.extruderReached,
                     monitoring := r.state.monitoring) &&
      |r.says| <= 2
  {
    if !st.monitoring {
      TickShape(st.(monitoring := true), q);
    }
  }

  /**
   * A present target that differs from the stored one is always stored.
   * During a print nothing else happens; otherwise a zero target says only
   * the cooling phrase, and a nonzero one arms the watcher (whose first
   * tick may announce reached temperatures) and ends with the one
   * new-target message. A missing or unchanged target changes nothing.
   */
  lemma TargetChange(st: MonitorState, ch: Channel, h: Option<HeaterStatus>, q: Query)
    ensures var r := TargetStep(st, ch, h, q);
      (h.None? || h.value.target.None? || Some(h.value.target.value.value) == PrevTarget(st, ch) ==> r == Step(st, [])) &&
      (h.Some? && h.value.target.Some? && Some(h.value.target.value.value) != PrevTarget(st, ch) ==>
         var t := h.value.target.value;
         PrevTarget(r.state, ch) == Some(t.value) &&
         (st.hasStartedPrinting ==> r == Step(WithPrevTarget(st, ch, t.value), [])) &&
         (!st.hasStartedPrinting && t.value == 0.0 ==> r == Step(WithPrevTarget(st, ch, t.value), [CoolingNotice(ch)])) &&
         (!st.hasStartedPrinting && t.value != 0.0 ==>
            r.says != [] && r.says[|r.says| - 1] == NewTargetNotice(ch, t.text) &&
            |r.says| <= 3 &&
            (st.monitoring ==> r == Step(WithPrevTarget(st, ch, t.value), [NewTargetNotice(ch, t.text)]))))
  {
    if h.Some? && h.value.target.Some? && Some(h.value.target.value.value) != PrevTarget(st, ch) {
      var t := h.value.target.value;
      var st1 := WithPrevTarget(st, ch, t.value);
      if !st.hasStartedPrinting && t.value != 0.0 {
        StartMonitoringShape(st1, q);
      }
    }
  }

  // ------------------------------------------------------------- toolhead

  /**
   * The reported position always replaces the stored one. The first
   * position only sets the baseline. "La impresora ha comenzado a
   * imprimir." is said only on movement during a print not yet announced,
   * with both heaters within 2 degrees; it marks the print announced, and
   * once announced it is never said again.
   */
  lemma ToolheadAnnouncesOnce(st: MonitorState, th: Option<ToolheadStatus>, q: Query)
    ensures var r := ToolheadStep(st, th, q);
      (th.Some? ==> r.state.prevPosition == th.value.position) &&
      (th.None? ==> r == Step(st, [])) &&
      (st.prevPosition.None? ==> r.says == []) &&
      (st.printStartedNotified ==> r.says == [] && r.state.printStartedNotified) &&
      (r.says != [] <==>
         th.Some? && th.value.position != st.prevPosition && st.prevPosition.Some? &&
         st.hasStartedPrinting && !st.printStartedNotified && HeatedForPrint(q)) &&
      (r.says != [] ==> r.says == [PrintBegunNotice] && r.state.printStartedNotified)
  {
  }

  /**
   * Within a status update, the "print announced" flag falls only when the
   * update carries a print-state change: so the announcement is made at
   * most once per entry into printing.
   */
  lemma {:induction false} AnnouncedUntilPrintStateChanges(st: MonitorState, status: Status, a: Answers)
    requires st.printStartedNotified
    requires status.printStats.None? || status.printStats.value.state.None? ||
             status.printStats.value.state == st.prevPrintState
    ensures StatusStep(st, status, a).state.printStartedNotified
  {
    var s1 := KlipperStep(st, status.klipper);
    ConnectionStepsKeep(st, status.klipper, status.mcu);
    var s2 := McuStep(s1.state, status.mcu);
    var s3 := PrintStatsStep(s2.state, status.printStats);
    assert s3.state == s2.state;
    TargetKeepsNotified(s3.state, Bed, status.heaterBed, a.bedTick);
    var s4 := TargetStep(s3.state, Bed, status.heaterBed, a.bedTick);
    TargetKeepsNotified(s4.state, Extruder, status.extruder, a.extruderTick);
    var s5 := TargetStep(s4.state, Extruder, status.extruder, a.extruderTick);
    ToolheadKeepsNotified(s5.state, status.toolhead, a.temperatures);
    assert StatusStep(st, status, a).state == ToolheadStep(s5.state, status.toolhead, a.temperatures).state;
  }

  /** The `klippy` and `mcu` blocks touch only their own remembered states. */
  lemma ConnectionStepsKeep(st: MonitorState, k: Option<KlipperStatus>, m: Option<McuStatus>)
    ensures var s := McuStep(KlipperStep(st, k).state, m).state;
            s.prevPrintState == st.prevPrintState && s.printStartedNotified == st.printStartedNotified
  {
    var s1 := KlipperStep(st, k).state;
    assert s1 == st || s1 == st.(prevKlipperState := s1.prevKlipperState);
    var s2 := McuStep(s1, m).state;
    assert s2 == s1 || s2 == s1.(prevMcuState := s2.prevMcuState);
  }

  /** The toolhead block never clears the "print announced" flag. */
  lemma ToolheadKeepsNotified(st: MonitorState, th: Option<ToolheadStatus>, q: Query)
    requires st.printStartedNotified
    ensures ToolheadStep(st, th, q).state.printStartedNotified
  {
  }

  lemma TargetKeepsNotified(st: MonitorState, ch: Channel, h: Option<HeaterStatus>, q: Query)
    ensures TargetStep(st, ch, h, q).state.printStartedNotified == st.printStartedNotified
    ensures TargetStep(st, ch, h, q).state.hasStartedPrinting == st.hasStartedPrinting
  {
    if h.Some? && h.value.target.Some? {
      StartMonitoringShape(WithPrevTarget(st, ch, h.value.target.value.value), q);
    }
  }

  // ------------------------------------------------------------ file list

  /**
   * A failed or empty file query changes nothing. Otherwise the snapshot
   * becomes the fetched list; every name in it and not in the old one gets
   * exactly one "agregado" message and every name gone gets exactly one
   * "eliminado" message, and nothing else is said.
   */
  lemma FileListDiff(st: MonitorState, fetched: seq<string>)
    ensures fetched == [] ==> FileListStep(st, fetched) == Step(st, [])
    ensures fetched != [] ==>
      var r := FileListStep(st, fetched);
      var added := NewNames(fetched, st.prevFileList);
      var removed := NewNames(st.prevFileList, fetched);
      r.state == st.(prevFileList := fetched) &&
      r.says == Announce(Added, added) + Announce(Removed, removed) &&
      (forall x :: x in added <==> x in fetched && x !in st.prevFileList) &&
      (forall x :: x in removed <==> x in st.prevFileList && x !in fetched) &&
      (forall i, j :: 0 <= i < j < |added| ==> added[i] != added[j]) &&
      (forall i, j :: 0 <= i < j < |removed| ==> removed[i] != removed[j])
  {
  }

  /** Fetching the same list again says nothing. */
  lemma {:induction false} SameFileListSilent(st: MonitorState)
    requires st.prevFileList != []
    ensures FileListStep(st, st.prevFileList) == Step(st, [])
  {
    NoNewNames(st.prevFileList, st.prevFileList);
  }

  lemma {:induction false} NoNewNames(xs: seq<string>, ys: seq<string>)
    requires forall i :: 0 <= i < |xs| ==> xs[i] in ys
    ensures NewNames(xs, ys) == []
    decreases |xs|
  {
    if xs != [] {
      NoNewNames(xs[1..], ys);
    }
  }

  // ------------------------------------------------------------ gcode

  /** A gcode response is announced exactly when it mentions M118. */
  lemma GcodeAnnouncesM118(st: MonitorState, response: string)
    ensures GcodeStep(st, response).state == st
    ensures GcodeStep(st, response).says != [] <==> Contains(response, "M118")
  {
  }

  /**
   * A macro response "M118 // Ejecutando macro: <name>" announces <name>,
   * for a name with no '/' and no surrounding whitespace.
   */
  lemma MacroNameExtracted(st: MonitorState, name: string)
    requires '/' !in name
    requires name == [] || (!IsSpace(name[0]) && !IsSpace(name[|name| - 1]))
    ensures GcodeStep(st, MacroMarker + " " + name).says == [MacroNotice(name)]
  {
    var rest := " " + name;
    var response := MacroMarker + rest;
    assert MacroMarker + " " + name == response;
    MentionsM118(rest);
    NoMarkerWithoutSlash(rest);
    ReplaceAtFront(rest, MacroMarker);
    StripLeadingSpace(name);
    assert GcodeStep(st, response).says == [MacroNotice(Strip(ReplaceAll(response, MacroMarker, "")))];
  }

  lemma MentionsM118(rest: string)
    ensures Contains(MacroMarker + rest, "M118")
  {
    assert OccursAt(MacroMarker + rest, "M118", 0) by {
      assert (MacroMarker + rest)[..4] == "M118";
    }
  }

  /** The macro marker holds a '/', so a text without one cannot contain it. */
  lemma NoMarkerWithoutSlash(rest: string)
    requires forall i :: 0 <= i < |rest| ==> rest[i] != '/'
    ensures forall k :: !OccursAt(rest, MacroMarker, k)
  {
    forall k
      ensures !OccursAt(rest, MacroMarker, k)
    {
      MarkerHoldsSlash(rest, k);
    }
  }

  lemma MarkerHoldsSlash(s: string, k: int)
    ensures OccursAt(s, MacroMarker, k) ==> 0 <= k + 5 < |s| && s[k + 5] == '/'
  {
    if OccursAt(s, MacroMarker, k) {
      assert s[k..k + |MacroMarker|][5] == s[k + 5];
      assert MacroMarker[5] == '/';
    }
  }

  /** Replacing a pattern in the pattern followed by a text free of it leaves that text. */
  lemma ReplaceAtFront(rest: string, pat: string)
    requires pat != []
    requires forall k :: !OccursAt(rest, pat, k)
    ensures ReplaceAll(pat + rest, pat, "") == rest
  {
    var s := pat + rest;
    assert s[..|pat|] == pat;
    assert s[|pat|..] == rest;
  }

  /** One leading space is stripped off a text with no surrounding whitespace. */
  lemma StripLeadingSpace(name: string)
    requires name == [] || (!IsSpace(name[0]) && !IsSpace(name[|name| - 1]))
    ensures Strip(" " + name) == name
  {
    assert (" " + name)[1..] == name;
    assert TrimStart(" " + name) == TrimStart(name);
    StripOfTrimmed(name);
  }

  // --------------------------------------------------------- disconnects

  /**
   * A klippy disconnect starts a watcher only when none is active, and
   * leaves one marked active either way; it always closes the socket and
   * says nothing itself.
   */
  lemma DisconnectStartsOneWatcher(st: MonitorState, a: Answers)
    ensures MessageStep(st, KlippyDisconnected, a) == Step(st.(watcherActive := true), [])
    ensures StartsWatcher(st, KlippyDisconnected) <==> !st.watcherActive
    ensures ClosesSocket(KlippyDisconnected)
  {
  }

  /**
   * The watcher reports success exactly when some poll finds Klipper
   * "ready" or "standby" and no poll up to that one found the 60 s
   * deadline passed.
   */
  lemma WatcherSucceedsIff(start: real, polls: seq<Poll>)
    requires Expires(start, polls)
    ensures WatcherNotice(start, polls) == ReconnectedNotice <==>
      exists i :: 0 <= i < |polls| && Reconnected(polls[i].klippyState) &&
        forall j :: 0 <= j <= i ==> polls[j].at - start < ReconnectionTimeout
  {
    var d := Deciding(start, polls);
    if exists i :: 0 <= i < |polls| && Reconnected(polls[i].klippyState) &&
         forall j :: 0 <= j <= i ==> polls[j].at - start < ReconnectionTimeout {
      var i :| 0 <= i < |polls| && Reconnected(polls[i].klippyState) &&
               forall j :: 0 <= j <= i ==> polls[j].at - start < ReconnectionTimeout;
      assert d <= i;
    }
  }
}
