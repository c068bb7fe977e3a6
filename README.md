# Say-Fi-Print: the event monitor and its neighbours, in Dafny

Say-Fi-Print lets a person talk to a 3D printer run by Klipper/Moonraker or
OctoPrint. It also speaks notifications about what the printer does. This
project models the deterministic core of that system and proves what the code
promises about it.

**The printer event monitor** (`event_listener.py`).
- `notifications.dfy` models the duplicate filter `add_notification`. It
  normalises a message, prunes history entries older than 30 s from the front,
  discards a message whose normalised text is still in the history, and
  otherwise records it and queues `"Notify:" + message`.
- `event_listener_spec.dfy` models every handler as a pure step function. Each
  one maps the module-level variables (`MonitorState`) and one event to the new
  variables and the notices to offer, in order. The handlers are
  `on_message` with its Klipper, MCU, `print_stats`, heater-target, toolhead,
  file-list and G-code branches, the temperature-watcher tick
  `check_temperatures`, arming and disarming, the reconnection watcher as a
  loop over poll results, and the start-up message.
- `event_listener.dfy` is the monitor as the program runs it. A `Monitor`
  object holds the variables as fields, and a `NotificationQueue` object holds
  the history and the outbound queue. Each method is proved to leave exactly
  the state its step function describes, and to pass exactly its messages
  through the filter.
- `event_listener_properties.dfy` proves the monitor's promises about the step
  functions.

**The smaller cores.**
- `shelve_orm.dfy` models the friends directory `SORM`. One shelf holds
  id → name entries and, under the reserved key `"indices"`, the inverse
  name → id dictionary.
- `server.py`: the ignore window for routine `Notify:` messages, the audio URL
  and the volume range check (`server.dfy`).
- `printer_functions.dfy` covers `printerfuntions.py`:
  - configuration checks, headers and URLs;
  - `send_command` routing and its stop-at-first-failure loop;
  - the file choices of `print_file_by_name` and `print_most_recent_file`;
  - the ranking of `search_files`.
- `transcriber.dfy` covers `transcriber.py`:
  - the byte framer;
  - the voice-activity ring-buffer machine;
  - the bounded capture buffer with its two counters;
  - the first-word keyword decision.
- `tts.dfy` covers `tts.py`: `speak` and the keep-three-newest rule of
  `manage_files`.
- `scheduler.dfy` covers `scheduler.py`:
  - relative and absolute reminder times, on a model of Python's `datetime`
    calendar;
  - the task name;
  - the details file that `task.py` reads back.

**Shared pieces.**
- `strings.dfy` models the Python `str` operations the code uses.
- `sorting.dfy` models Python's stable `sorted`.
- `wrappers.dfy` holds `Option` and `Result`.

**What is an input.** Every HTTP answer, the clock, the assistant, the speech
synthesiser and recognisers, the voice-activity detector and `fuzz.ratio` are
parameters. HTTP answers are query results, file lists, poll results and POST
results.

**The temperature watcher follows the code, not its comments.** The comment
"Restablecer si se aleja del objetivo" on the latch reset
(event_listener.py:188 and event_listener.py:203) suggests that a target is
announced a second time when the temperature leaves the 0.5-degree tolerance
and returns. `check_temperatures`
(event_listener.py:182-186) disarms the watcher when it announces. After that,
no tick runs until a new nonzero target re-arms it, so the second announcement
never happens. The model follows the code, and
`EventListenerProperties.SpeakingTickDisarms` proves the consequence.

## Model

| member | source | states |
|---|---|---|
| Notifications.Prune | event_listener.py:95-97 | what is left is a suffix of the history. Every entry dropped is strictly more than 30 s old. The first entry kept is at most 30 s old. |
| Notifications.Admit | event_listener.py:89-110 | the queue either stays as it was or gains exactly `"Notify:" + message` at its end |
| Notifications.AdmitAllAppend | event_listener.py:89-110 | offering two runs of messages in turn is the same as offering them as one run |
| Notifications.WithinWindowSuppresses | event_listener.py:95-103 | a history entry with the same normalised text that is at most 30 s old (exactly 30 s included) makes the call only prune. Nothing is recorded or queued. |
| Notifications.EnqueuedIffNoRecentTwin | event_listener.py:89-110 | on a time-ordered history, a message is queued if and only if no entry with its normalised text is within 30 s |
| Notifications.NormalizedEnqueuedIff | event_listener.py:92-109 | the same if-and-only-if, for an already normalised text |
| Notifications.NoRecentTwinUnseen | event_listener.py:95-103 | after pruning, a text is absent if every entry with that text is older than 30 s |
| Notifications.RecentTwinSeen | event_listener.py:95-103 | after pruning, a text whose entry is within 30 s is still found |
| Notifications.AdmitPreservesValid | event_listener.py:95-109 | the history stays time-ordered, within the window and free of repeated texts |
| Notifications.RepeatWithinWindowDiscarded | event_listener.py:89-110 | once a message is queued, a message with the same normalised text offered within 30 s is not queued |
| EventListener.NotificationQueue.constructor | event_listener.py:84-85 | the history and the queue start empty |
| EventListener.NotificationQueue.PruneHistory | event_listener.py:95-97 | the history becomes `Prune` of the old one; the queue is untouched |
| EventListener.NotificationQueue.InHistory | event_listener.py:100-103 | the scan finds the text if and only if the history holds it |
| EventListener.NotificationQueue.AddNormalized | event_listener.py:95-109 | the history and the queue become `AdmitNormalized` of the old ones |
| EventListener.NotificationQueue.AddNotification | event_listener.py:89-110 | the history and the queue become `Admit` of the old ones |
| EventListener.NotificationQueue.Offer | event_listener.py:89-110 | offering a run of messages admits them one after the other, in order |
| EventListener.Monitor.constructor | event_listener.py:48-74 | every variable has its initial value, the file list is the start-up listing, and the outbox is empty |
| EventListener.Monitor.StartTemperatureMonitoring | event_listener.py:150-154 | the new state and the messages are those of `StartMonitoringStep`: the watcher arms and runs a tick only if it was disarmed |
| EventListener.Monitor.StopTemperatureMonitoring | event_listener.py:156-158 | only the armed flag changes, to false |
| EventListener.Monitor.CheckHeater | event_listener.py:176-203 | the channel's latch, the disarm decision and the messages are those of `ChannelTick` |
| EventListener.Monitor.CheckTemperatures | event_listener.py:160-209 | the new state and the messages are those of `TickStep` |
| EventListener.Monitor.Tick | event_listener.py:160-209 | the state is as `TickStep` gives it, and its messages pass through the duplicate filter in order |
| EventListener.Monitor.HandleKlipper | event_listener.py:366-384 | the state and the messages are those of `KlipperStep` |
| EventListener.Monitor.HandleMcu | event_listener.py:387-400 | the state and the messages are those of `McuStep` |
| EventListener.Monitor.HandlePrintStats | event_listener.py:403-453 | the state and the messages are those of `PrintStatsStep` |
| EventListener.Monitor.HandleTarget | event_listener.py:456-489 | the state and the messages are those of `TargetStep` for the bed or the extruder |
| EventListener.Monitor.HandleToolhead | event_listener.py:492-520 | the state and the messages are those of `ToolheadStep` |
| EventListener.Monitor.HandleStatus | event_listener.py:362-520 | the state and the messages are those of `StatusStep`, the objects taken in the handler's order |
| EventListener.Monitor.HandleFileList | event_listener.py:522-541 | the state and the messages are those of `FileListStep` |
| EventListener.Monitor.HandleGcode | event_listener.py:543-549 | the messages are those of `GcodeStep` |
| EventListener.Monitor.OnMessage | event_listener.py:323-556 | the state is that of `MessageStep` and its messages are admitted in order. The socket is closed exactly on a disconnect. A watcher is started exactly on a disconnect with none active. |
| EventListener.Monitor.WatcherReconnection | event_listener.py:299-321 | exactly one message is admitted: success or failure as the deciding poll says. Only the active flag changes, and it is cleared. |
| EventListener.Monitor.CheckInitialRestart | event_listener.py:128-138 | exactly one start-up message is admitted: "restarted" if the running flag exists, else "first start" |
| EventListenerSpec.NewNames | event_listener.py:527-528 | set difference: the result holds exactly the names of the first list that are not in the second, each once |
| EventListenerSpec.Announce | event_listener.py:529-537 | one file message per name, in order; `AnnounceStripsExtension` proves that "x.gcode" is announced as "x" |
| EventListenerSpec.WithoutExtension | event_listener.py:530 | `filename.replace(".gcode", "")` leaves a name without the extension unchanged; `ExtensionStripped` proves that "x.gcode" becomes "x" |
| EventListenerSpec.Deciding | event_listener.py:307-316 | the loop stops at the first poll that is past the 60 s deadline or finds Klipper ready or standby. Every earlier poll is neither. |
| EventListenerSpec.KlipperStep | event_listener.py:366-384 | the `klippy_state` branch as a step function on the module variables; `KlipperAnnouncesChange` proves what it does |
| EventListenerSpec.McuStep | event_listener.py:387-400 | the `mcu` branch as a step function; `McuAnnouncesChange` proves what it does |
| EventListenerSpec.PrintStatsStep | event_listener.py:403-453 | the `print_stats` branch as a step function; `PrintStatsTransition` and `PrintingNamesFile` prove what it does |
| EventListenerSpec.TargetStep | event_listener.py:456-489 | the heater-target branch, for the bed or the extruder; `TargetChange` and `TargetKeepsNotified` prove what it does |
| EventListenerSpec.ToolheadStep | event_listener.py:492-520 | the toolhead branch with its print-start detection; `ToolheadAnnouncesOnce` proves what it does |
| EventListenerSpec.StatusStep | event_listener.py:362-520 | a status update visits the Klipper, MCU, print-state, bed, extruder and toolhead objects in that order, each step starting from the state the previous one left; `AnnouncedUntilPrintStateChanges` proves what it keeps |
| EventListenerSpec.FileListStep | event_listener.py:522-541 | the file-list branch; `FileListDiff` and `SameFileListSilent` prove what it does |
| EventListenerSpec.GcodeStep | event_listener.py:543-549 | the G-code response branch; `GcodeAnnouncesM118` and `MacroNameExtracted` prove what it does |
| EventListenerSpec.TickStep | event_listener.py:160-209 | one tick of `check_temperatures`; `TickIdle`, `TickLatches`, `SpeakingTickDisarms` and `TickShape` prove what it does |
| EventListenerSpec.StartMonitoringStep | event_listener.py:150-154 | `start_temperature_monitoring`; `StartWhenArmed` and `StartMonitoringShape` prove what it does |
| EventListenerSpec.MessageStep | event_listener.py:323-556 | one `on_message` call: a status update, a file-list change, a G-code response or a disconnect; `DisconnectStartsOneWatcher` proves the disconnect case |
| EventListenerSpec.WatcherNotice | event_listener.py:306-321 | the watcher's one message, chosen by its deciding poll; `WatcherSucceedsIff` proves when it reports success |
| EventListenerSpec.RestartNotice | event_listener.py:128-138 | the start-up message: "restarted" when the running flag exists, else "first start" |
| EventListenerProperties.KlipperAnnouncesChange | event_listener.py:366-384 | a state is announced if and only if it is present and differs from the stored one, which it then replaces. The messages are then exactly the state, the "Mensaje de estado" message when the state message is non-empty, and the connection-lost message if and only if the state is "shutdown" or "error" in any case, in that order. |
| EventListenerProperties.McuAnnouncesChange | event_listener.py:387-400 | the same for the MCU: exactly the state message, followed by the connection-lost message if and only if the state is "shutdown", "error" or "offline" |
| EventListenerProperties.PrintStatsTransition | event_listener.py:403-453 | one message if and only if the state is present and changed. "printing" raises `has_started_printing` and clears `print_started_notified`. The stop states clear both flags. "ready" and unknown states leave both flags alone. |
| EventListenerProperties.PrintingNamesFile | event_listener.py:410-416 | a change to "printing" with the file "x.gcode" names "x"; a file name without the extension is named as it is, and an empty one gives the no-file message |
| EventListenerProperties.ExtensionStripped | event_listener.py:414 | for a name "x" that does not contain ".gcode", removing ".gcode" from "x.gcode" gives "x", and from "x" gives "x" |
| EventListenerProperties.AnnounceStripsExtension | event_listener.py:527-537 | files "x.gcode" that appear or disappear are announced as "x", one message each, in order |
| EventListenerProperties.TickIdle | event_listener.py:165-168 | a tick while disarmed or printing changes nothing and says nothing |
| EventListenerProperties.TickLatches | event_listener.py:176-203 | a nonzero target within 0.5 degrees, not yet latched, latches, disarms and announces the target: first among the messages for the bed, last for the extruder. A temperature more than 0.5 degrees off clears the latch. |
| EventListenerProperties.SpeakingTickDisarms | event_listener.py:182-186 | a tick that says anything says at most two things and disarms, so the next tick says nothing |
| EventListenerProperties.StartWhenArmed | event_listener.py:150-154 | arming an armed watcher does nothing |
| EventListenerProperties.TickShape | event_listener.py:160-209 | a tick changes only the two latches and the armed flag |
| EventListenerProperties.StartMonitoringShape | event_listener.py:150-154 | arming changes only the two latches and the armed flag |
| EventListenerProperties.TargetChange | event_listener.py:456-489 | a present, changed target is always stored. While printing nothing else happens. A zero target says only the cooling message. A nonzero target arms the watcher and ends with the one new-target message. A missing or unchanged target changes nothing. |
| EventListenerProperties.ToolheadAnnouncesOnce | event_listener.py:492-520 | the position is always stored, and the first one only sets the baseline. "Comenzado a imprimir" is said if and only if the toolhead moved during a print not yet announced, with all four temperatures present and both heaters within 2 degrees. It is then never said again. |
| EventListenerProperties.AnnouncedUntilPrintStateChanges | event_listener.py:403-520 | within a status update, the "announced" flag falls only when the update carries a print-state change |
| EventListenerProperties.ConnectionStepsKeep | event_listener.py:366-400 | the Klipper and MCU objects never touch the two printing flags |
| EventListenerProperties.TargetKeepsNotified | event_listener.py:456-489 | target handling never touches the two printing flags |
| EventListenerProperties.FileListDiff | event_listener.py:522-541 | an empty listing changes nothing. Otherwise every added name gets exactly one message, every removed name gets exactly one, and the snapshot is replaced. |
| EventListenerProperties.SameFileListSilent | event_listener.py:522-541 | a listing equal to the snapshot says nothing |
| EventListenerProperties.NoNewNames | event_listener.py:527-528 | a difference against a superset is empty |
| EventListenerProperties.GcodeAnnouncesM118 | event_listener.py:543-549 | a response is announced if and only if it contains "M118", and the state is untouched |
| EventListenerProperties.MacroNameExtracted | event_listener.py:545-548 | for the marker followed by a name, the name itself is announced |
| EventListenerProperties.DisconnectStartsOneWatcher | event_listener.py:341-359 | a disconnect marks a watcher active and says nothing. It starts a watcher only when none is active, and it always closes the socket. |
| EventListenerProperties.WatcherSucceedsIff | event_listener.py:299-321 | the watcher reports success if and only if some poll finds Klipper ready or standby with no poll up to it past the deadline |
| ShelveOrm.Add | shelveorm.py:9-16 | `agregar_amigo` on the shelf as a value; `AddEffect`, `AddPreservesValid` and `LookupAfterAdd` prove what it does |
| ShelveOrm.Modify | shelveorm.py:18-27 | `modificar_amigo`, with the TypeError for the reserved key and the KeyError for a name missing from the index; `ModifyPreservesValidIff` proves what it keeps |
| ShelveOrm.Delete | shelveorm.py:29-37 | `eliminar_amigo`, with the same two failures; `DeleteEffect`, `DeletePreservesValid` and `DeleteUndoesAdd` prove what it does |
| ShelveOrm.Lookup | shelveorm.py:39-57 | `buscar_amigo`: by a truthy id, else by a truthy name; `LookupInverse` proves the two directions agree |
| ShelveOrm.FirstEntry | shelveorm.py:59-63 | `listar_amigos`: the first non-index entry in iteration order; `FirstEntryNoneIff`, `FirstEntryFinds` and `NoneOnlyIndices` prove what it returns |
| ShelveOrm.AddEffect | shelveorm.py:9-16 | an add with an id that is already a key, or a name already indexed, changes nothing. Any other add records exactly id → name and name → id. |
| ShelveOrm.IndicesKeyNeverAdded | shelveorm.py:6-37 | adding under the reserved key changes nothing, because the shelf always holds it. Add, a successful modify and a successful delete never make it a friend entry. |
| ShelveOrm.AddPreservesValid | shelveorm.py:9-16 | the index stays exactly the inverse of the entries |
| ShelveOrm.DeletePreservesValid | shelveorm.py:29-37 | on a consistent shelf, deleting fails only for the reserved key, and otherwise keeps the index the inverse of the entries |
| ShelveOrm.DeleteEffect | shelveorm.py:29-37 | deleting an absent id changes nothing. Otherwise exactly the entry and its name's index entry go. |
| ShelveOrm.DeleteUndoesAdd | shelveorm.py:9-37 | deleting what was just added restores the shelf |
| ShelveOrm.ModifyPreservesValidIff | shelveorm.py:18-27 | a modification keeps the index the inverse if and only if the new name is unused or already this id's |
| ShelveOrm.LookupAfterAdd | shelveorm.py:9-57 | after an add, looking up the id gives the name and looking up the name gives the id |
| ShelveOrm.LookupInverse | shelveorm.py:39-57 | on a consistent shelf, the lookup by id gives the name if and only if the lookup by name gives the id |
| ShelveOrm.FirstEntryNoneIff | shelveorm.py:59-63 | `listar_amigos` returns nothing if and only if there are no friends |
| ShelveOrm.FirstEntryFinds | shelveorm.py:59-63 | any friend key in the iteration order makes the listing return an entry |
| ShelveOrm.NoneOnlyIndices | shelveorm.py:59-63 | a returned entry belongs to some friend |
| ShelveOrm.Sorm.constructor | shelveorm.py:4-7 | the shelf's entries are kept, and the index is the stored one or a new empty one |
| ShelveOrm.Sorm.AddFriend | shelveorm.py:9-16 | the dictionaries become `Add` of the old ones. The add happens if and only if the id is not a key and the name is not indexed. |
| ShelveOrm.Sorm.ModifyFriend | shelveorm.py:18-27 | the dictionaries become `Modify` of the old ones, or stay as they were with Python's error reported |
| ShelveOrm.Sorm.DeleteFriend | shelveorm.py:29-37 | the dictionaries become `Delete` of the old ones, or stay as they were with Python's error reported |
| ShelveOrm.Sorm.FindFriend | shelveorm.py:39-57 | the answer is `Lookup`: by a truthy id first, then by a truthy name, otherwise nothing |
| ShelveOrm.Sorm.ListFriends | shelveorm.py:59-63 | the answer is the first non-index entry in iteration order, and it is none if and only if there are no friends |
| Server.Process | server.py:76-187 | `process_text` as written; `RaisedAnswerFails` proves what it does when the assistant raises |
| Server.ProcessIntended | server.py:76-187 | `process_text` as its `except` branch intends; `IntendedAlwaysAnswers`, `DroppedIff` and `WindowStart` prove what it does |
| Server.SetVolume | server.py:225-240 | `set_volume`; `VolumeRange` and `VolumeCommandRoundTrip` prove what it does |
| Server.FirstMatch | server.py:92-96 | the result is none if and only if no pattern matches. Otherwise it is the key of the first pattern that matches. |
| Server.MessageType | server.py:92-96 | the loop finds `FirstMatch` over the four patterns |
| Server.AudioUrl | server.py:124-129 | a URL exists if and only if a path was returned. It is "/static/" followed by a name without '/'. |
| Server.Handler.constructor | server.py:65 | the ignore window starts at 0 |
| Server.Handler.ProcessText | server.py:76-187 | as corrected (see ## Findings): the reply, the spoken text and the new window start are `ProcessIntended` of the old ones |
| Server.DroppedIff | server.py:82-102 | a request is answered 204 if and only if it is a `Notify:` message whose stripped content matches a pattern while the window is open. That is also exactly when nothing is spoken. |
| Server.WindowStart | server.py:143-175 | `Notify:` requests never move the window. A plain request the assistant answers restarts it at `now`. |
| Server.WindowBounds | server.py:65-84 | the window is closed initially, and after a start it is open exactly for the next 30 s (strictly) |
| Server.TargetPatternsNeedDegrees | server.py:69-71 | the two target patterns match only texts ending in "°C" (or "°C" and a newline) |
| Server.PrefixPatternsNeedOnlyPrefix | server.py:72-73 | the file-added and printing patterns match exactly the texts with their prefix |
| Server.NotificationDropped | server.py:87-102 | a matching notification with no surrounding whitespace is dropped while the window is open |
| Server.SamePrefixes | server.py:69-74 | the patterns' prefixes are the ones the event monitor writes |
| Server.DegreesMatch | server.py:69-71 | a prefix, a target and "°C" match the pattern |
| Server.QueuedTargetDropped | server.py:69-102 | a queued new-target notice from the monitor is dropped while the window is open |
| Server.QueuedFileNoticeDropped | server.py:72-102 | a queued file-added or printing notice from the monitor is dropped while the window is open |
| Server.AudioUrlOfJoin | server.py:124-129 | a clip saved under a folder is served as "/static/" and its own name |
| Server.VolumeRange | server.py:225-240 | the volume is set if and only if the level is within 0..100 and the command succeeds. An out-of-range level fails with the range message. |
| Server.VolumeCommandRoundTrip | server.py:233 | the percentage handed to `pactl` reads back as the level |
| Server.RaisedAnswerFails | server.py:108-187 | as written, a plain request the assistant fails on is spoken but answered 500, and the window is unchanged |
| Server.IntendedAlwaysAnswers | server.py:116-183 | as intended, every request not dropped is answered. A failed assistant answer is replaced by the request text. A plain request always restarts the window. The two versions agree whenever the assistant answers. |
| PrinterFunctions.NewConfig | printerfuntions.py:20-26 | the checks of `__init__`; `NewConfigAccepts` and `NewConfigIgnoresCase` prove what it does |
| PrinterFunctions.Headers | printerfuntions.py:28-32 | `_get_headers`; `HeadersCarryKey` proves what it holds |
| PrinterFunctions.Url | printerfuntions.py:34-41 | `_get_url`; `UrlShape` proves its shape |
| PrinterFunctions.Route | printerfuntions.py:44-68 | the endpoint and body of one command line; `RouteTable` and `SpecialPayloads` prove what it does |
| PrinterFunctions.SendAll | printerfuntions.py:51-77 | `send_command` over the stripped lines; `SendAllOutcome`, `SendFromDelivered` and `SendFromFails` prove what it does |
| PrinterFunctions.PrintByName | printerfuntions.py:327-373 | `print_file_by_name` over a listing; `PrintByNameChoice` proves what it does |
| PrinterFunctions.PrintMostRecent | printerfuntions.py:440-461 | `print_most_recent_file` over a listing; `MostRecentMessages`, `NewestFirst` and `MostRecentRequest` prove what it does |
| PrinterFunctions.Search | printerfuntions.py:500-538 | `search_files` over a listing; `SearchTopSorted`, `SearchTopSelects` and `SearchLinesNumbered` prove what it reports |
| PrinterFunctions.SendCommand | printerfuntions.py:43-77 | the requests posted and the message are `SendAll` over the stripped command lines |
| PrinterFunctions.Routes | printerfuntions.py:53-68 | one request per line |
| PrinterFunctions.FirstFailure | printerfuntions.py:70-75 | the index of the first answer that is not 200/204 or raised, and every answer before it is delivered |
| PrinterFunctions.SendAllOutcome | printerfuntions.py:51-77 | the lines are posted up to and including the first failure, and the error names that line. Success is reported only when all lines were posted and succeeded. |
| PrinterFunctions.SendFromDelivered | printerfuntions.py:53-77 | when every answer is delivered, all lines are posted and success is reported |
| PrinterFunctions.SendFromFails | printerfuntions.py:53-75 | at the first failed answer the loop stops with that line's error |
| PrinterFunctions.SendErrorIsNotSuccess | printerfuntions.py:73-77 | an error message is never the success message |
| PrinterFunctions.NewConfigAccepts | printerfuntions.py:20-26 | the configuration is accepted if and only if the server is "octoprint" or "moonraker" in any case. The key "0" or "" means no key. The protocol is lower-cased. |
| PrinterFunctions.NewConfigIgnoresCase | printerfuntions.py:22-25 | server names that differ only in case give the same configuration |
| PrinterFunctions.HeadersCarryKey | printerfuntions.py:28-32 | the content type is always there, the key header is there if and only if a key is set, and there is no other header |
| PrinterFunctions.UrlShape | printerfuntions.py:34-41 | a URL is `protocol://ip/endpoint`, and distinct endpoints give distinct URLs |
| PrinterFunctions.RouteTable | printerfuntions.py:44-68 | pause, resume, cancel and restart, in any case, go to `api/job` with their fixed body. Other lines go verbatim to the OctoPrint command endpoint when a key is set, and to the script endpoint otherwise. |
| PrinterFunctions.SpecialPayloads | printerfuntions.py:44-49 | only the four job commands are special, and "resume" is a pause command with action "resume" |
| PrinterFunctions.Candidates | printerfuntions.py:337 | one candidate per file |
| PrinterFunctions.CandidateOf | printerfuntions.py:337-340 | each candidate is its file's path and its stripped, lower-cased name |
| PrinterFunctions.GcodeSuffix | printerfuntions.py:329-330 | the result ends in ".gcode", and a name already ending so is kept |
| PrinterFunctions.GcodeQuery | printerfuntions.py:328-330 | the query ends in ".gcode" |
| PrinterFunctions.GcodeQueryIdempotent | printerfuntions.py:328-330 | normalising a query again changes nothing |
| PrinterFunctions.MostSimilar | printerfuntions.py:336-340 | the index of the first candidate with the greatest similarity |
| PrinterFunctions.BestIsFirstMaximum | printerfuntions.py:334-340 | the loop ends with the most similar candidate's path if its similarity beats the starting best, and with the starting best otherwise |
| PrinterFunctions.PrintFileByName | printerfuntions.py:327-373 | the request and the message are `PrintByName` |
| PrinterFunctions.BestStep | printerfuntions.py:337-340 | one iteration keeps the running best equal to the choice over the files seen so far |
| PrinterFunctions.PrintByNameChoice | printerfuntions.py:327-373 | a start request goes for the first most similar file exactly when its similarity is positive and its path is not empty. The message reports whether the post succeeded. Otherwise the not-found message is given and nothing is posted. |
| PrinterFunctions.ValidFiles | printerfuntions.py:447 | every file kept has a non-blank path |
| PrinterFunctions.ValidFilesKeeps | printerfuntions.py:447 | every file with a non-blank path is kept, and nothing is added |
| PrinterFunctions.ValidFilesEmpty | printerfuntions.py:447-450 | nothing is kept if and only if every path is blank |
| PrinterFunctions.NewestFirst | printerfuntions.py:453-456 | the chosen file has the greatest date, and no earlier file has it |
| PrinterFunctions.MostRecentMessages | printerfuntions.py:440-450 | an empty listing and a listing of blank paths each get their own message, and nothing is posted |
| PrinterFunctions.MostRecentRequest | printerfuntions.py:451-461 | otherwise the print request names the first valid file with the greatest date, and the message is "sent" with that name when the post succeeds, the failure message otherwise |
| PrinterFunctions.SliceLength | printerfuntions.py:531 | Python's `[:top_n]` keeps at most `top_n` entries and never more than there are |
| PrinterFunctions.Ranks | printerfuntions.py:515-525 | one ranking entry per file |
| PrinterFunctions.ResultLines | printerfuntions.py:534-536 | one line per reported file |
| PrinterFunctions.RankFiles | printerfuntions.py:515-525 | the loop builds `Ranks` |
| PrinterFunctions.NumberLines | printerfuntions.py:534-536 | the loop builds `ResultLines` |
| PrinterFunctions.SearchFiles | printerfuntions.py:500-538 | the answer is `Search`: the no-files message, the numbered lines, or the no-similar-files message |
| PrinterFunctions.SearchTopSorted | printerfuntions.py:527-531 | the report has the slice's length and non-increasing similarity |
| PrinterFunctions.SearchTopSelects | printerfuntions.py:527-531 | the reported entries come from the ranking, and no entry left out is more similar than one reported |
| PrinterFunctions.RestBelowTop | printerfuntions.py:528-531 | past the cut of the sorted ranking, no entry is more similar than one before it |
| PrinterFunctions.SearchLinesNumbered | printerfuntions.py:535-536 | the lines are numbered from 1 in order |
| Sorting.SortBy | tts.py:86 | the result is sorted by the key, is a permutation of the input and has the same length; its stability is `SortByStable` |
| Sorting.SortByStable | tts.py:86-88 | stability: for every key value, the elements with that key appear in the result in their order in the input, so ties keep arrival order |
| Sorting.FirstMinIndex | printerfuntions.py:453-456 | the first index whose key is least |
| Sorting.SortByHead | printerfuntions.py:453-456 | the stable sort puts first the earliest element with the least key |
| Transcriber.FrameSize | transcriber.py:200 | the frame size expression on exact reals; `RecorderFrameSize` evaluates it for the recorder |
| Transcriber.RecorderFrameSize | transcriber.py:200 | 30 ms frames at 16 kHz are 960 bytes |
| Transcriber.FrameGenerator | transcriber.py:198-204 | the frames are consecutive slices of exactly `frame_size` bytes, a trailing partial frame is dropped, and together they are the audio's longest whole-frame prefix |
| Transcriber.Push | transcriber.py:210-229 | the ring never exceeds its capacity, and it appends while there is room |
| Transcriber.Voiced | transcriber.py:220 | the voiced count is at most the ring's length |
| Transcriber.Unvoiced | transcriber.py:230 | the unvoiced count is at most the ring's length |
| Transcriber.FramesOf | transcriber.py:224-225 | one frame per ring entry |
| Transcriber.VadCollector | transcriber.py:206-239 | the segments yielded are `VadOutput` |
| Transcriber.Slice | transcriber.py:214-219 | a window of the input has the length of its bounds |
| Transcriber.FirstTrigger | transcriber.py:218-226 | the trigger, if any, is at an input frame already seen |
| Transcriber.PushWindow | transcriber.py:219 | pushing the next frame onto the ring of the last frames gives the ring of the last frames one step later |
| Transcriber.FramesOfSlice | transcriber.py:224-225 | the frames of a window are the input frames in order |
| Transcriber.VadStepUntriggered | transcriber.py:218-226 | an untriggered step keeps the collector's invariant |
| Transcriber.VadStepTriggered | transcriber.py:227-236 | a triggered step keeps the invariant, and the end-of-voice branch never fires |
| Transcriber.VadRunState | transcriber.py:214-236 | after any prefix of the input the collector's state is the closed form |
| Transcriber.VadOutputClosedForm | transcriber.py:206-239 | at most one segment is yielded, at the end. It is every input frame, in order and each once, from the first window that is voiced enough. |
| Transcriber.RecorderPadding | transcriber.py:208-221 | the ring holds 13 entries, and triggering needs at least 12 voiced |
| Transcriber.WordAt | transcriber.py:100 | the word is the longest whitespace-free prefix |
| Transcriber.FirstWord | transcriber.py:100 | the first word of `split()` is non-empty with no whitespace at its ends |
| Transcriber.DetectWith | transcriber.py:96-115 | `detect_keyword_in_segment`, comparing only the first word; `DetectNone` and `OtherWords` prove what it does |
| Transcriber.DetectAsWritten | transcriber.py:96-115 | the detection as written; `CapitalisedKeywordAsWritten` proves what it does with a capitalised keyword |
| Transcriber.DetectKeyword | transcriber.py:96-115 | the detection as corrected; `KeywordGivesText` and `LowerWordAgrees` prove what it does |
| Transcriber.DetectNone | transcriber.py:96-115 | nothing is returned if and only if recognition failed or the text is all whitespace |
| Transcriber.FindFirstWord | transcriber.py:105 | the lower-cased first word is first found in the lower-cased text where the leading whitespace ends |
| Transcriber.StripStartsWithFirstWord | transcriber.py:100-105 | the stripped text starts with the first word |
| Transcriber.KeywordGivesText | transcriber.py:104-105 | as intended, a first word similar to the keyword returns the stripped text from that word on |
| Transcriber.CapitalisedKeywordAsWritten | transcriber.py:105 | as written, a keyword with a capital letter returns the text's last character |
| Transcriber.LowerWordAgrees | transcriber.py:104-105 | the correction agrees with the code as written whenever the first word has no capital letter |
| Transcriber.OtherWords | transcriber.py:106-109 | a first word similar to "stop" returns "Stop". Any other first word returns "Texto reconocido: " and the text. |
| Transcriber.AfterCapture | transcriber.py:68-82 | one captured clip as a step on the buffer and the counters; `CaptureEffect` proves what it does |
| Transcriber.AfterTimeout | transcriber.py:83-94 | one timeout as a step on the buffer and the counters; `TimeoutEffect` proves what it does |
| Transcriber.CaptureEffect | transcriber.py:68-82 | the bounds hold. The buffer is the newest six clips, unless it was cleared, which happens exactly when the time counter reaches 10 or a non-empty (truthy) detection came back. The time counter advances modulo 10, and the error counter is untouched. |
| Transcriber.TimeoutEffect | transcriber.py:83-94 | the bounds hold. The buffer is cleared when the time counter reaches 10. The recogniser is replaced exactly when the error counter reaches 20, which then starts again at 0. |
| Transcriber.Transcriber.constructor | transcriber.py:27-31 | the buffer is empty and both counters are 0 |
| Transcriber.Transcriber.ClearAudioBuffer | transcriber.py:45-48 | only the buffer changes, to empty |
| Transcriber.Transcriber.Captured | transcriber.py:66-82 | as corrected (see ## Findings): the detection is `DetectKeyword` and the new state is `AfterCapture`, within the bounds |
| Transcriber.Transcriber.TimedOut | transcriber.py:83-94 | the new state is `AfterTimeout`, within the bounds |
| Tts.AudioFiles | tts.py:81 | the clips are exactly the folder's files named "audio_*.mp3" |
| Tts.ToDelete | tts.py:81-88 | the clips `manage_files` chooses for deletion; `ToDeleteAreClips`, `ManageFew` and `ManageOldest` prove which |
| Tts.AfterManage | tts.py:74-98 | the folder after `manage_files`; `ManageSparesOthers` and `ManageFailures` prove what it keeps |
| Tts.AudioName | tts.py:40-41 | the clip name `audio_<milliseconds>.mp3`; `AudioPathNamesClip` proves that it is a clip name |
| Tts.Without | tts.py:90-93 | exactly the files not named for removal remain |
| Tts.WithoutTwice | tts.py:90-96 | removing two batches in turn removes their union |
| Tts.Speaker.constructor | tts.py:21-28 | the folder is as listed and the play queue is empty |
| Tts.Speaker.ManageFiles | tts.py:74-98 | the folder becomes `AfterManage` and the play queue is untouched |
| Tts.Speaker.RemoveFiles | tts.py:90-96 | every file to delete is removed unless its removal fails, and a failure does not stop the rest |
| Tts.Speaker.Speak | tts.py:32-60 | a failed synthesis returns "" and changes nothing. Otherwise the clip's path is queued once and returned, and the folder holds the saved clip, trimmed. |
| Tts.ManageSparesOthers | tts.py:81-93 | a file that is not a clip is never deleted |
| Tts.ToDeleteAreClips | tts.py:81-88 | only clips are chosen for deletion |
| Tts.ManageFew | tts.py:84 | with three clips or fewer nothing is deleted |
| Tts.ManageOldest | tts.py:84-88 | with more, exactly all but three are chosen. Together with the three kept they are the clips, and none is newer than a clip kept. |
| Tts.ManageFailures | tts.py:90-96 | a file whose removal fails stays, and every other file chosen goes |
| Tts.AudioPathNamesClip | tts.py:40-42 | the saved path's base name is the clip's name, which has the clip pattern |
| Scheduler.DaysIn | scheduler.py:27 | months have 28 to 31 days, and 29 only for February of leap years |
| Scheduler.NextDay | scheduler.py:27 | the next calendar day, at the same time |
| Scheduler.PrevDay | scheduler.py:27 | the previous calendar day, at the same time |
| Scheduler.DayInverse | scheduler.py:27 | the next and previous days undo each other |
| Scheduler.AddDays | scheduler.py:27 | a valid day, at the same time, whose year moves in the direction of the shift |
| Scheduler.AddSeconds | scheduler.py:24-27 | a valid moment whose time of day is the old one plus the seconds, modulo a day |
| Scheduler.ClockOfSecond | scheduler.py:28-29 | hours, minutes and seconds read back from the second of the day |
| Scheduler.AddWholeDays | scheduler.py:24-27 | adding 0 seconds, a day or minus a day gives the same moment, the next day or the previous day |
| Scheduler.Relative | scheduler.py:21-27 | a start it accepts is a valid `datetime` |
| Scheduler.RelativeStart | scheduler.py:24-27 | within `timedelta`'s and `datetime`'s ranges, the start is `now` plus h hours, m minutes and s seconds |
| Scheduler.RelativeSchedules | scheduler.py:21-47 | "R:h:m:s" schedules one job at that start. Its name is "TTSReminder_", the year, the two-digit month and day, "_" and the time without colons. The confirmation gives the formatted date and time. |
| Scheduler.FormatDate | scheduler.py:28 | `strftime("%d/%m/%Y")`; `FormatDateRoundTrip` proves it reads back |
| Scheduler.TaskName | scheduler.py:38-39 | the task name; `RelativeSchedules` and `TimeWithoutColon` prove its shape |
| Scheduler.Message | scheduler.py:47 | the confirmation text; `RelativeSchedules` and `AbsoluteVerbatim` prove what it names |
| Scheduler.Finish | scheduler.py:38-47 | a job exists if and only if the date parsed and a run date was bound, and it runs at that date |
| Scheduler.ScheduleAsWritten | scheduler.py:14-47 | as written, only a relative time can schedule a job |
| Scheduler.AbsoluteNeverSchedules | scheduler.py:30-45 | as written, an absolute time always fails: with ValueError if the date does not parse, else with UnboundLocalError. Date "0" always gives UnboundLocalError. |
| Scheduler.Absolute | scheduler.py:30-36 | the run date exists if and only if the date and the clock parse into a valid moment |
| Scheduler.Schedule | scheduler.py:14-47 | as intended, every job scheduled runs at a valid moment |
| Scheduler.AbsoluteSchedules | scheduler.py:30-47 | date "0" with "HH:MM" schedules today at that time, with the task name and confirmation built from it |
| Scheduler.AbsoluteVerbatim | scheduler.py:34-47 | any other date is taken verbatim: the job runs on the day it spells at the given time, and the confirmation repeats both texts |
| Scheduler.RelativeUnchanged | scheduler.py:21-29 | the correction leaves relative times alone |
| Scheduler.NoSeparators | scheduler.py:38-39 | formatted numbers hold no '/' or ':' |
| Scheduler.ParsePad2 | scheduler.py:38-39 | a two-digit field reads back as its number |
| Scheduler.FormatDateRoundTrip | scheduler.py:28-38 | `strftime("%d/%m/%Y")` read back by `map(int, split('/'))` gives the day, month and year |
| Scheduler.TimeWithoutColon | scheduler.py:29-39 | dropping the colon from "%H:%M" leaves the two-digit hour and minute |
| Scheduler.OffsetPartsOfText | scheduler.py:23-26 | an offset written as "h:m:s" reads back as h, m and s |
| Scheduler.ClockTextParts | scheduler.py:36-39 | "HH:MM" reads back as the hour and minute |
| Scheduler.Translate | task.py:59-60 | text-mode reading: "\r\n" and a lone "\r" both become "\n", no "\r" is left, and text without "\r" is unchanged |
| Scheduler.Lines | task.py:60 | the lines are non-empty and laid end to end give the text back. Every line but the last ends in "\n", and no line holds "\n" before its end. |
| Scheduler.ReadLines | task.py:59-60 | `readlines()` yields non-empty lines that together are the file's content with universal newlines applied, and "\n" only at a line's end |
| Scheduler.ReadBack | task.py:59-61 | the reminder script's reading: IndexError with fewer than two lines, else the first two lines stripped |
| Scheduler.TaskScheduler.constructor | scheduler.py:7-12 | no details file has been written and no job is scheduled |
| Scheduler.TaskScheduler.ScheduleTaskWithDetails | scheduler.py:14-47 | as corrected (see ## Findings): the details file holds the id and the subject. The result is `Schedule`'s confirmation or error, and exactly its job is added. |
| Scheduler.DetailsRoundTrip | scheduler.py:16-18 | for values without "\n" or "\r", the reminder script (task.py:59-62) reads back the stripped id and subject. An empty subject leaves one line, and reading fails. |
| Scheduler.CarriageReturnSplitsId | scheduler.py:16-18 | a "\r" inside the id ends a line when the script reads the file: the id `a + "\r" + b` reads back as the id `a` and the subject `b`, both stripped |

## Left out

- WebSocket transport is left out as transport only. This covers the connection and reconnection loops, the JSON-RPC subscription, the relay socket, and the pacing of `process_notifications` (event_listener.py:211-245, 558-643). The model ends at the outbound queue.
- Threads, `threading.Timer` rescheduling and `time.sleep` are left out. Each watcher tick is one call, and the reconnection watcher is a loop over a given sequence of poll results.
- The clock is a parameter:
  - every `add_notification` made while one message is handled uses the same reading `now`;
  - the reconnection watcher stamps its message with the reading of its deciding poll;
  - in the scheduler, `now` is taken to the second, and its microseconds never change a name or a message.
- HTTP queries are inputs: `get_file_list`, `get_current_temperatures`, `is_connection_successful` and every `requests` call in printerfuntions.py. The answers of one `on_message` are given together (`Answers`); a failed file-list request is the empty list, as in the code.
- These are left out as operating-system effects: the `fcntl` lock, writing the running-flag file, logging, `restart_service`, and the `/enviroments` upload with its `systemctl` restart (server.py:189-223). `check_initial_restart` receives whether the flag file exists.
- Foreign libraries are inputs:
  - `fuzz.ratio` is a function parameter;
  - gTTS success is a boolean;
  - speech recognition is an optional text;
  - the voice-activity decisions are a boolean per frame;
  - the assistant and `emoji.replace_emoji` are one `Answer`.
  
  Playback (pydub, `ffplay`) and the Groq transcription are left out.
- `get_print_info`, `get_print_time`, `get_current_temperature`, `get_filament_usage` and `is_printing` are left out. They format HTTP read-outs, and `get_print_time` estimates with floating point.
- `get_most_recent_files` is left out: its decoded listing is an input. `print_file` is the POST result.
- From transcriber.py, `listen_for_command`, its dBFS silence proportion, `transcribe_with_groq` and the `process_audio_buffer` thread are left out. They are microphone I/O and floating-point numerics.
- `Lower` maps only ASCII and Latin-1 capitals, which cover Spanish text. Python's full Unicode case mapping is not modelled.
- Whitespace for `strip`/`split` follows Python's `str.isspace`.
- `int()` accepts an optional sign and ASCII digits with surrounding whitespace. Underscores and non-ASCII digits are not modelled.
- Python's set difference has no fixed order. `EventListenerSpec.NewNames` fixes first-appearance order, so the order of the file messages is one of the orders the program can produce.
- The order of `os.listdir` and of the shelf's iteration is an input: a sequence of entries, or of keys.
- ShelveOrm.Lookup: takes the id as the string `str(id)`, so it tests `if id:` on that string. A falsy non-string id such as `0` takes the name branch in the program but the id branch in the model; no caller passes one.
- Temperatures, similarities and clock readings are exact reals, so floating-point rounding is not modelled.
- Transcriber.FrameGenerator: takes the frame size as a whole number. The float expression `int(sample_rate * (frame_duration_ms / 1000.0) * 2)` is modelled exactly by `FrameSize` on reals. It also requires the size to be positive: with a size of 0 the generator yields empty frames forever. Its only caller passes the positive size of 30 ms at 16 kHz.
- EventListener.Monitor.WatcherReconnection: requires the poll sequence to reach the 60 s deadline. The source's loop runs in real time and always ends; a finite poll list must contain a poll at which it ends.
- EventListener.Monitor.HandleGcode: states only the messages. The handler changes no variable, and `GcodeAnnouncesM118` proves the state is untouched.
- Scheduler.AddSeconds: states only the time of day and validity of the result. How the date moves is proved through `AddWholeDays` and `DayInverse` rather than as a closed form.
- Scheduler.FormatDate: prints the year with `IntToString`. It does not model zero padding of `%Y` for years below 1000, which depends on the platform's `strftime`.
- Server.Handler.ProcessText: runs the corrected handler `ProcessIntended`. When the assistant raises, the program as written answers 500 and leaves the window unchanged instead, as `Server.Process` and `Server.RaisedAnswerFails` show.
- Transcriber.Transcriber.Captured: runs the corrected detection `DetectKeyword`. For a first word with a capital letter the program as written returns the text's last character, as `Transcriber.DetectAsWritten` and `Transcriber.CapitalisedKeywordAsWritten` show. `Transcriber.LowerWordAgrees` proves the two agree otherwise.
- Scheduler.TaskScheduler.ScheduleTaskWithDetails: runs the corrected `Schedule`. For an absolute time the program as written raises and schedules nothing, as `Scheduler.ScheduleAsWritten` and `Scheduler.AbsoluteNeverSchedules` show.
- Transcriber.DetectKeyword: takes the keyword as a string. When the `ASSISTANT` variable is unset, `self.keyword` is None, `.lower()` raises AttributeError inside the `try`, and every detection is None.
- The module-level `prev_filename` of event_listener.py is left out: it is never read.

## Findings

| source | as written | input that shows it | evidently intended | confidence | as-written member | corrected member |
|---|---|---|---|---|---|---|
| server.py:108-141 | when `llm.get_response` raises, the `except` binds only `cleaned_message`. The text is spoken, then the log line reading `message` raises, and the request is answered 500. A plain request leaves the window where it was. | a plain request "hola" while the assistant raises | answer with the request text, no function call and its audio, and restart the window | not executed | Server.RaisedAnswerFails | Server.IntendedAlwaysAnswers |
| transcriber.py:105 | `text.lower().find(word)` searches the lower-cased text for the word as heard. A capitalised word is not found, `find` gives -1, and the result is the last character. | recognised text "Angie enciende la luz" with keyword "angie": the result is "z" | the text from the keyword on, "Angie enciende la luz" | not executed | Transcriber.CapitalisedKeywordAsWritten | Transcriber.KeywordGivesText |
| scheduler.py:30-45 | only the relative branch binds `start_datetime`, so `add_job(run_date=start_datetime)` raises for every absolute time | date "0", time "18:30" | schedule the job at the date and time the confirmation announces | not executed | Scheduler.AbsoluteNeverSchedules | Scheduler.AbsoluteSchedules |
