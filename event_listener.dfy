/**
 * The printer event monitor of event_listener.py as the program runs it: an
 * object whose fields are the module-level variables, and whose methods
 * update them in place. Each method is proved to leave exactly the state,
 * and to offer exactly the messages, that the step functions of
 * EventListenerSpec describe; the properties of those functions are proved
 * in EventListenerProperties.
 */
module EventListener {
  import opened Wrappers
  import opened Strings
  import opened Notifications
  import opened EventListenerSpec

  /**
   * The duplicate filter and the outbound queue: `recent_notifications` and
   * `notification_queue` with `add_notification`, the only code that writes
   * them.
   */
  class NotificationQueue {
    /** `recent_notifications`: the duplicate filter's history. */
    var recent: seq<Entry>
    /** `notification_queue`: what has been queued for the server, oldest first. */
    var queue: seq<string>

    function Contents(): Outbox
      reads this
    {
      Outbox(recent, queue)
    }

    constructor ()
      ensures Contents() == EmptyOutbox
    {
      recent := [];
      queue := [];
    }

    /** The pruning loop of `add_notification`: drop history entries older than the window from the front. */
    method PruneHistory(now: real)
      modifies this
      ensures recent == Prune(old(recent), now) && queue == old(queue)
    {
      while |recent| > 0 && now - recent[0].time > DuplicateWindow
        invariant Prune(recent, now) == Prune(old(recent), now)
        invariant queue == old(queue)
        decreases |recent|
      {
        recent := recent[1..];
      }
    }

    /** The membership test of `add_notification`: is `text` in the history? */
    method InHistory(text: string) returns (found: bool)
      ensures found <==> Seen(recent, text)
    {
      var i := 0;
      while i < |recent|
        invariant 0 <= i <= |recent|
        invariant forall j :: 0 <= j < i ==> recent[j].text != text
      {
        if recent[i].text == text {
          return true;
        }
        i := i + 1;
      }
      return false;
    }

    /**
     * The rest of `add_notification` once the message's normalised form is
     * known: prune, then drop a duplicate or record and queue the message.
     */
    method AddNormalized(text: string, message: string, now: real)
      modifies this
      ensures Contents() == AdmitNormalized(old(Contents()), text, message, now)
    {
      PruneHistory(now);
      var found := InHistory(text);
      if !found {
        recent := recent + [Entry(text, now)];
        queue := queue + [NotifyPrefix + message];
      }
    }

    /** `add_notification`. */
    method AddNotification(message: string, now: real)
      modifies this
      ensures Contents() == Admit(old(Contents()), message, now)
    {
      var normalized := Normalize(message);
      AddNormalized(normalized, message, now);
    }

    /** Hands each message to `add_notification`, in order, at clock `now`. */
    method Offer(messages: seq<string>, now: real)
      modifies this
      ensures Contents() == AdmitAll(old(Contents()), messages, now)
    {
      for i := 0 to |messages|
        invariant AdmitAll(Contents(), messages[i..], now) == AdmitAll(old(Contents()), messages, now)
      {
        assert messages[i..][1..] == messages[i + 1..];
        AddNotification(messages[i], now);
      }
    }
  }

  class Monitor {
    var prevBedTarget: Option<real>
    var bedReached: bool
    var prevExtruderTarget: Option<real>
    var extruderReached: bool
    var prevPrintState: Option<string>
    var prevFileList: seq<string>
    var prevPosition: Option<seq<real>>
    var hasStartedPrinting: bool
    var printStartedNotified: bool
    var monitoring: bool
    var prevKlipperState: Option<string>
    var prevMcuState: Option<string>
    var watcherActive: bool
    /** Where the monitor's messages go. */
    const notifier: NotificationQueue

    function State(): MonitorState
      reads this
    {
      MonitorState(prevBedTarget, bedReached, prevExtruderTarget, extruderReached, prevPrintState,
                   prevFileList, prevPosition, hasStartedPrinting, printStartedNotified, monitoring,
                   prevKlipperState, prevMcuState, watcherActive)
    }

    function Outgoing(): Outbox
      reads this, notifier
    {
      notifier.Contents()
    }

    /** Start-up: the variables' initial values, with the file list `initialize_file_list` fetched. */
    constructor (fileList: seq<string>)
      ensures State() == Initial(fileList)
      ensures Outgoing() == EmptyOutbox
      ensures fresh(notifier)
    {
      prevBedTarget := None;
      bedReached := false;
      prevExtruderTarget := None;
      extruderReached := false;
      prevPrintState := None;
      prevFileList := fileList;
      prevPosition := None;
      hasStartedPrinting := false;
      printStartedNotified := false;
      monitoring := false;
      prevKlipperState := None;
      prevMcuState := None;
      watcherActive := false;
      notifier := new NotificationQueue();
    }

    /** `start_temperature_monitoring`: returns what the tick it runs says. */
    method StartTemperatureMonitoring(q: Query) returns (says: seq<Notice>)
      modifies this
      ensures State() == StartMonitoringStep(old(State()), q).state
      ensures says == StartMonitoringStep(old(State()), q).says
    {
      says := [];
      if !monitoring {
        monitoring := true;
        says := CheckTemperatures(q);
      }
    }

    /** `stop_temperature_monitoring`. */
    method StopTemperatureMonitoring()
      modifies this
      ensures State() == old(State()).(monitoring := false)
    {
      monitoring := false;
    }

    /** One heater's block of `check_temperatures`: announce and latch a reached target, clear the latch on drift. */
    method CheckHeater(ch: Channel, h: Option<Heater>) returns (says: seq<Notice>)
      modifies this
      ensures var l := ChannelTick(ch, Reached(old(State()), ch), h);
              State() == WithReached(old(State()), ch, l.reached).(monitoring := old(monitoring) && !l.disarm) &&
              says == l.says
    {
      ghost var l := ChannelTick(ch, Reached(State(), ch), h);
      says := [];
      if h.Some? {
        var temp := h.value.temperature;
        var target := h.value.target;
        if temp.Some? && target.Some? && target.value.value != 0.0 {
          var gap := Abs(temp.value - target.value.value);
          var reached := if ch == Bed then bedReached else extruderReached;
          assert reached == Reached(State(), ch);
          if gap <= TemperatureTolerance && !reached {
            assert l == Latch(true, true, [TargetReachedNotice(ch, target.value.text)]);
            says := [TargetReachedNotice(ch, target.value.text)];
            SetReached(ch, true);
            StopTemperatureMonitoring();
          } else if gap > TemperatureTolerance {
            assert l == Latch(false, false, []);
            SetReached(ch, false);
          } else {
            assert l == Latch(reached, false, []);
            assert WithReached(old(State()), ch, reached) == old(State());
          }
        } else {
          assert l == Latch(Reached(State(), ch), false, []);
          assert WithReached(old(State()), ch, l.reached) == old(State());
        }
      } else {
        assert l == Latch(Reached(State(), ch), false, []);
        assert WithReached(old(State()), ch, l.reached) == old(State());
      }
    }

    /** Sets the channel's `bed_reached` or `extruder_reached` flag. */
    method SetReached(ch: Channel, reached: bool)
      modifies this
      ensures State() == WithReached(old(State()), ch, reached)
    {
      if ch == Bed {
        bedReached := reached;
      } else {
        extruderReached := reached;
      }
    }

    /** `check_temperatures`, given what the temperature query returns: the messages it adds. */
    method CheckTemperatures(q: Query) returns (says: seq<Notice>)
      modifies this
      ensures State() == TickStep(old(State()), q).state
      ensures says == TickStep(old(State()), q).says
    {
      says := [];
      if !monitoring || hasStartedPrinting || q.QueryFailed? {
        return;
      }
      var bed := CheckHeater(Bed, q.bed);
      var extruder := CheckHeater(Extruder, q.extruder);
      says := bed + extruder;
    }

    /** A run of `check_temperatures` by its timer, at clock `now`. */
    method Tick(q: Query, now: real)
      modifies this, notifier
      ensures State() == TickStep(old(State()), q).state
      ensures Outgoing() == AdmitAll(old(Outgoing()), Texts(TickStep(old(State()), q).says), now)
    {
      var says := CheckTemperatures(q);
      notifier.Offer(Texts(says), now);
    }

    /** The `klipper` part of a status update. */
    method HandleKlipper(k: Option<KlipperStatus>) returns (says: seq<Notice>)
      modifies this
      ensures State() == KlipperStep(old(State()), k).state
      ensures says == KlipperStep(old(State()), k).says
    {
      says := [];
      if k.Some? {
        var klipperState := k.value.state;
        var stateMessage := k.value.stateMessage;
        if klipperState != prevKlipperState && klipperState.Some? {
          says := says + [KlipperStateNotice(klipperState.value)];
          if Truthy(stateMessage) {
            says := says + [StateMessageNotice(stateMessage.value)];
          }
          if KlipperLost(klipperState.value) {
            says := says + [KlipperLostNotice(klipperState.value)];
          }
          prevKlipperState := klipperState;
        }
      }
    }

    /** The `mcu` part of a status update. */
    method HandleMcu(m: Option<McuStatus>) returns (says: seq<Notice>)
      modifies this
      ensures State() == McuStep(old(State()), m).state
      ensures says == McuStep(old(State()), m).says
    {
      says := [];
      if m.Some? {
        var mcuState := m.value.state;
        if mcuState != prevMcuState && mcuState.Some? {
          says := says + [McuStateNotice(mcuState.value)];
          if McuLost(mcuState.value) {
            says := says + [McuLostNotice(mcuState.value)];
          }
          prevMcuState := mcuState;
        }
      }
    }

    /** The `print_stats` part of a status update. */
    method HandlePrintStats(p: Option<PrintStats>) returns (says: seq<Notice>)
      modifies this
      ensures State() == PrintStatsStep(old(State()), p).state
      ensures says == PrintStatsStep(old(State()), p).says
    {
      says := [];
      if p.Some? {
        var state := p.value.state;
        var filename := p.value.filename;
        if state != prevPrintState && state.Some? {
          if state.value == "printing" {
            hasStartedPrinting := true;
            printStartedNotified := false;
            if Truthy(filename) {
              says := says + [PrintingFileNotice(WithoutExtension(filename.value))];
            } else {
              says := says + [PrintingNoFileNotice];
            }
          } else {
            says := says + [PrintStateNotice(state.value)];
            if StopState(state.value) {
              hasStartedPrinting := false;
              printStartedNotified := false;
            }
          }
          prevPrintState := state;
        }
      }
    }

    /** The `heater_bed` or `extruder` part of a status update, given what an arming tick's query returns. */
    method HandleTarget(ch: Channel, h: Option<HeaterStatus>, q: Query) returns (says: seq<Notice>)
      modifies this
      ensures State() == TargetStep(old(State()), ch, h, q).state
      ensures says == TargetStep(old(State()), ch, h, q).says
    {
      says := [];
      if h.Some? && h.value.target.Some? {
        var target := h.value.target.value;
        var prev := if ch == Bed then prevBedTarget else prevExtruderTarget;
        if Some(target.value) != prev {
          if ch == Bed {
            prevBedTarget := Some(target.value);
          } else {
            prevExtruderTarget := Some(target.value);
          }
          if !hasStartedPrinting {
            if target.value != 0.0 {
              says := StartTemperatureMonitoring(q);
            } else {
              says := says + [CoolingNotice(ch)];
            }
            if target.value != 0.0 {
              says := says + [NewTargetNotice(ch, target.text)];
            }
          }
        }
      }
    }

    /** The `toolhead` part of a status update, given what the temperature query returns. */
    method HandleToolhead(th: Option<ToolheadStatus>, q: Query) returns (says: seq<Notice>)
      modifies this
      ensures State() == ToolheadStep(old(State()), th, q).state
      ensures says == ToolheadStep(old(State()), th, q).says
    {
      says := [];
      if th.Some? {
        var position := th.value.position;
        if position != prevPosition && prevPosition.Some? {
          if hasStartedPrinting && !printStartedNotified {
            if HeatedForPrint(q) {
              says := says + [PrintBegunNotice];
              printStartedNotified := true;
            }
          }
        }
        prevPosition := position;
      }
    }

    /** A `notify_status_update`: each part in turn. */
    method HandleStatus(status: Status, a: Answers) returns (says: seq<Notice>)
      modifies this
      ensures State() == StatusStep(old(State()), status, a).state
      ensures says == StatusStep(old(State()), status, a).says
    {
      var klipper := HandleKlipper(status.klipper);
      var mcu := HandleMcu(status.mcu);
      var printStats := HandlePrintStats(status.printStats);
      var bed := HandleTarget(Bed, status.heaterBed, a.bedTick);
      var extruder := HandleTarget(Extruder, status.extruder, a.extruderTick);
      var toolhead := HandleToolhead(status.toolhead, a.temperatures);
      says := klipper + mcu + printStats + bed + extruder + toolhead;
    }

    /** A `notify_filelist_changed`, given the list `get_file_list` returns. */
    method HandleFileList(fetched: seq<string>) returns (says: seq<Notice>)
      modifies this
      ensures State() == FileListStep(old(State()), fetched).state
      ensures says == FileListStep(old(State()), fetched).says
    {
      says := [];
      if fetched != [] {
        var newFiles := NewNames(fetched, prevFileList);
        var deletedFiles := NewNames(prevFileList, fetched);
        for i := 0 to |newFiles|
          invariant says == Announce(Added, newFiles[..i])
        {
          says := says + [FileNotice(Added, WithoutExtension(newFiles[i]))];
        }
        assert newFiles[..|newFiles|] == newFiles;
        var added := says;
        for i := 0 to |deletedFiles|
          invariant says == added + Announce(Removed, deletedFiles[..i])
        {
          says := says + [FileNotice(Removed, WithoutExtension(deletedFiles[i]))];
        }
        assert deletedFiles[..|deletedFiles|] == deletedFiles;
        prevFileList := fetched;
      }
    }

    /** A `notify_gcode_response`. */
    method HandleGcode(response: string) returns (says: seq<Notice>)
      ensures says == GcodeStep(State(), response).says
    {
      says := [];
      if Contains(response, "M118") {
        var macroName := Strip(ReplaceAll(response, MacroMarker, ""));
        says := says + [MacroNotice(macroName)];
      }
    }

    /**
     * `on_message`: handles one decoded message, given the answers of the
     * HTTP queries it makes, and hands what it has to say to
     * `add_notification` at clock `now`; reports whether the caller must
     * close the printer socket and start a reconnection watcher.
     */
    method OnMessage(e: Event, a: Answers, now: real) returns (closeSocket: bool, startWatcher: bool)
      modifies this, notifier
      ensures State() == MessageStep(old(State()), e, a).state
      ensures Outgoing() == AdmitAll(old(Outgoing()), Texts(MessageStep(old(State()), e, a).says), now)
      ensures closeSocket == ClosesSocket(e)
      ensures startWatcher == StartsWatcher(old(State()), e)
    {
      var says: seq<Notice> := [];
      closeSocket, startWatcher := false, false;
      match e {
        case KlippyShutdown =>
          says := [KlippyShutdownNotice];
        case KlippyDisconnected =>
          if !watcherActive {
            watcherActive := true;
            startWatcher := true;
          }
          closeSocket := true;
        case KlippyError =>
          says := [KlippyErrorNotice];
        case StatusUpdate(status) =>
          says := HandleStatus(status, a);
        case FileListChanged =>
          says := HandleFileList(a.fileList);
        case GcodeResponse(response) =>
          says := HandleGcode(response);
        case Ignored =>
      }
      assert State() == MessageStep(old(State()), e, a).state && says == MessageStep(old(State()), e, a).says;
      notifier.Offer(Texts(says), now);
    }

    /**
     * `watcher_reconnection`, started at clock `start`: polls until Klipper
     * is back or the deadline has passed, sends the one outcome message
     * and clears the active flag.
     */
    method WatcherReconnection(start: real, polls: seq<Poll>)
      requires Expires(start, polls)
      modifies this, notifier
      ensures State() == old(State()).(watcherActive := false)
      ensures Outgoing() == Admit(old(Outgoing()), Text(WatcherNotice(start, polls)), polls[Deciding(start, polls)].at)
    {
      var i := 0;
      var reconnected := false;
      while polls[i].at - start < ReconnectionTimeout
        invariant 0 <= i <= Deciding(start, polls)
        decreases Deciding(start, polls) - i
      {
        if Reconnected(polls[i].klippyState) {
          reconnected := true;
          break;
        }
        i := i + 1;
      }
      assert i == Deciding(start, polls);
      if reconnected {
        notifier.AddNotification(Text(ReconnectedNotice), polls[i].at);
      } else {
        notifier.AddNotification(Text(NotReconnectedNotice), polls[i].at);
      }
      watcherActive := false;
    }

    /** `check_initial_restart`: announces a restart or a first start, as the running flag says. */
    method CheckInitialRestart(flagExists: bool, now: real)
      modifies notifier
      ensures Outgoing() == Admit(old(Outgoing()), Text(RestartNotice(flagExists)), now)
    {
      if flagExists {
        notifier.AddNotification(Text(RestartedNotice), now);
      } else {
        notifier.AddNotification(Text(FirstStartNotice), now);
      }
    }
  }
}
