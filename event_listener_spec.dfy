/**
 * The printer event monitor of event_listener.py as pure step functions.
 *
 * Every module-level variable the monitor keeps between events is a field
 * of `MonitorState`. Each handler is a function from the state it finds
 * (and the event, and the answers its HTTP queries return) to a `Step`:
 * the state it leaves and the messages it hands to `add_notification`, in
 * order. Whether a message is actually queued is decided by the duplicate
 * filter (module Notifications), which never feeds back into this state.
 */
module EventListenerSpec {
  import opened Wrappers
  import opened Strings

  /** A heater is at its target when within this many degrees. */
  const TemperatureTolerance: real := 0.5
  /** Both heaters must be within this many degrees before "started printing" is announced. */
  const TemperatureCheckTolerance: real := 2.0
  /** Seconds the reconnection watcher keeps polling. */
  const ReconnectionTimeout: real := 60.0

  /** A JSON number: its value and the text Python's `str()` renders for it. */
  datatype Number = Number(value: real, text: string)

  // The objects of a `notify_status_update`; a missing object or key is `None`.
  datatype KlipperStatus = KlipperStatus(state: Option<string>, stateMessage: Option<string>)
  datatype McuStatus = McuStatus(state: Option<string>)
  datatype PrintStats = PrintStats(state: Option<string>, filename: Option<string>)
  datatype HeaterStatus = HeaterStatus(target: Option<Number>)
  datatype ToolheadStatus = ToolheadStatus(position: Option<seq<real>>)
  datatype Status = Status(
    klipper: Option<KlipperStatus>,
    mcu: Option<McuStatus>,
    printStats: Option<PrintStats>,
    heaterBed: Option<HeaterStatus>,
    extruder: Option<HeaterStatus>,
    toolhead: Option<ToolheadStatus>)

  /**
   * A decoded websocket message. `Ignored` stands for every other method
   * name, and for a message whose decoding raises (it is only logged).
   */
  datatype Event =
    | KlippyShutdown
    | KlippyDisconnected
    | KlippyError
    | StatusUpdate(status: Status)
    | FileListChanged
    | GcodeResponse(response: string)
    | Ignored

  /** One heater in the answer to `printer/objects/query?heater_bed&extruder`. */
  datatype Heater = Heater(temperature: Option<real>, target: Option<Number>)

  /** The temperature query: it raised, or the heaters its status held. */
  datatype Query = QueryFailed | QueryOk(bed: Option<Heater>, extruder: Option<Heater>)

  /**
   * What the HTTP queries made while one message is handled return: the
   * ticks run when the bed or the extruder target arms the watcher, the
   * temperatures checked on toolhead movement, and the file list (empty
   * when the request fails).
   */
  datatype Answers = Answers(bedTick: Query, extruderTick: Query, temperatures: Query, fileList: seq<string>)

  /** The module-level variables of the monitor. */
  datatype MonitorState = MonitorState(
    prevBedTarget: Option<real>,
    bedReached: bool,
    prevExtruderTarget: Option<real>,
    extruderReached: bool,
    prevPrintState: Option<string>,
    prevFileList: seq<string>,
    prevPosition: Option<seq<real>>,
    hasStartedPrinting: bool,
    printStartedNotified: bool,
    monitoring: bool,
    prevKlipperState: Option<string>,
    prevMcuState: Option<string>,
    watcherActive: bool)

  /** The state at start-up, once the file list has been fetched. */
  function Initial(fileList: seq<string>): MonitorState {
    MonitorState(None, false, None, false, None, fileList, None, false, false, false, None, None, false)
  }

  /** The state a handler leaves and the messages it offers, in order. */
  datatype Step = Step(state: MonitorState, says: seq<Notice>)

  datatype Channel = Bed | Extruder

  function Abs(x: real): real {
    if x < 0.0 then -x else x
  }

  // ---------------------------------------------------------------- phrases

  const ConnectionLost: string := "Se ha perdido conexión con la impresora"
  const KlippyShutdownText: string := ConnectionLost + ": Klippy Shutdown"
  const KlippyErrorText: string := "Error: Klippy Error"
  const KlipperStatePrefix: string := "Estado de Klipper: "
  const StateMessagePrefix: string := "Mensaje de estado: "
  const LostPrefix: string := ConnectionLost + ": "
  const McuStatePrefix: string := "Estado de la MCU: "
  const McuLostPrefix: string := ConnectionLost + ", MCU ha entrado en estado "
  const PrintingFilePrefix: string := "Se va a imprimir: "
  const PrintingNoFileText: string := "Se ha iniciado una impresión."
  const ReadyText: string := "La impresora está lista."
  const UnknownStatePrefix: string := "Estado de impresión desconocido: "
  const PrintBegunText: string := "La impresora ha comenzado a imprimir."
  const AddedPrefix: string := "Se ha agregado un nuevo archivo a mainsail: "
  const RemovedPrefix: string := "Se ha eliminado un archivo de mainsail: "
  const MacroMarker: string := "M118 // Ejecutando macro:"
  const MacroPrefix: string := "Macro ejecutada: "
  const FirmwareRestarted: string := "Se ha reiniciado el firmware de la impresora "
  const ReconnectedText: string := FirmwareRestarted + "y se ha reestablecido la conexión con éxito."
  const NotReconnectedText: string := FirmwareRestarted + "pero no se ha establecido conexión."
  const RestartedText: string := "El servicio de notificaciones ha sido reiniciado."
  const FirstStartText: string := "El servicio se ha iniciado por primera vez."
  const Degrees: string := "°C"

  function ReachedPrefix(ch: Channel): string {
    match ch
    case Bed => "La cama ha alcanzado la temperatura objetivo de "
    case Extruder => "El extrusor ha alcanzado la temperatura objetivo de "
  }

  function NewTargetPrefix(ch: Channel): string {
    match ch
    case Bed => "Nuevo objetivo de temperatura de la cama: "
    case Extruder => "Nuevo objetivo de temperatura del extrusor: "
  }

  function CoolingText(ch: Channel): string {
    match ch
    case Bed => "Enfriando la cama"
    case Extruder => "Enfriando el extrusor"
  }

  datatype FileChange = Added | Removed

  /**
   * What the monitor says: one constructor per message the program builds,
   * carrying the parts it fills in. `Text` renders the message.
   */
  datatype Notice =
    | KlippyShutdownNotice
    | KlippyErrorNotice
    | KlipperStateNotice(state: string)
    | StateMessageNotice(message: string)
    | KlipperLostNotice(state: string)
    | McuStateNotice(state: string)
    | McuLostNotice(state: string)
    | PrintingFileNotice(name: string)
    | PrintingNoFileNotice
    | PrintStateNotice(state: string)
    | TargetReachedNotice(ch: Channel, target: string)
    | NewTargetNotice(ch: Channel, target: string)
    | CoolingNotice(ch: Channel)
    | PrintBegunNotice
    | FileNotice(change: FileChange, name: string)
    | MacroNotice(name: string)
    | ReconnectedNotice
    | NotReconnectedNotice
    | RestartedNotice
    | FirstStartNotice

  /** The text handed to `add_notification` for a notice. */
  function Text(n: Notice): string {
    match n
    case KlippyShutdownNotice => KlippyShutdownText
    case KlippyErrorNotice => KlippyErrorText
    case KlipperStateNotice(state) => KlipperStatePrefix + state
    case StateMessageNotice(message) => StateMessagePrefix + message
    case KlipperLostNotice(state) => LostPrefix + state
    case McuStateNotice(state) => McuStatePrefix + state
    case McuLostNotice(state) => McuLostPrefix + state
    case PrintingFileNotice(name) => PrintingFilePrefix + name
    case PrintingNoFileNotice => PrintingNoFileText
    case PrintStateNotice(state) => StateText(state)
    case TargetReachedNotice(ch, target) => ReachedPrefix(ch) + target + Degrees
    case NewTargetNotice(ch, target) => NewTargetPrefix(ch) + target + Degrees
    case CoolingNotice(ch) => CoolingText(ch)
    case PrintBegunNotice => PrintBegunText
    case FileNotice(Added, name) => AddedPrefix + name
    case FileNotice(Removed, name) => RemovedPrefix + name
    case MacroNotice(name) => MacroPrefix + name
    case ReconnectedNotice => ReconnectedText
    case NotReconnectedNotice => NotReconnectedText
    case RestartedNotice => RestartedText
    case FirstStartNotice => FirstStartText
  }

  /** The texts of a run of notices, in order. */
  function Texts(ns: seq<Notice>): (r: seq<string>)
    ensures |r| == |ns|
    ensures forall i :: 0 <= i < |ns| ==> r[i] == Text(ns[i])
  {
    if ns == [] then [] else [Text(ns[0])] + Texts(ns[1..])
  }

  /** `filename.replace(".gcode", "")`. */
  function WithoutExtension(filename: string): (r: string)
    ensures !Contains(filename, ".gcode") ==> r == filename
  {
    ReplaceAll(filename, ".gcode", "")
  }

  // --------------------------------------------------- klipper and the MCU

  /** Klipper states, compared lower-cased, that mean the connection is lost. */
  predicate KlipperLost(state: string) {
    Lower(state) == "shutdown" || Lower(state) == "error"
  }

  /** MCU states, compared lower-cased, that mean the connection is lost. */
  predicate McuLost(state: string) {
    Lower(state) == "shutdown" || Lower(state) == "error" || Lower(state) == "offline"
  }

  /** The `klipper` object of a status update. */
  function KlipperStep(st: MonitorState, k: Option<KlipperStatus>): Step {
    if k.None? || k.value.state.None? || k.value.state == st.prevKlipperState then Step(st, [])
    else
      var s := k.value.state.value;
      Step(st.(prevKlipperState := Some(s)),
           [KlipperStateNotice(s)]
           + (if Truthy(k.value.stateMessage) then [StateMessageNotice(k.value.stateMessage.value)] else [])
           + (if KlipperLost(s) then [KlipperLostNotice(s)] else []))
  }

  /** The `mcu` object of a status update. */
  function McuStep(st: MonitorState, m: Option<McuStatus>): Step {
    if m.None? || m.value.state.None? || m.value.state == st.prevMcuState then Step(st, [])
    else
      var s := m.value.state.value;
      Step(st.(prevMcuState := Some(s)),
           [McuStateNotice(s)] + (if McuLost(s) then [McuLostNotice(s)] else []))
  }

  // ------------------------------------------------------------ print_stats

  /** The phrase for a print state other than "printing". */
  function StateText(state: string): string {
    if state == "paused" then "La impresión ha sido pausada."
    else if state == "error" then "¡Se ha producido un error en la impresión!"
    else if state == "complete" then "La impresión ha finalizado normalmente."
    else if state == "standby" then "La impresora está en espera."
    else if state == "cancelled" || state == "cancelling" then "La impresión ha sido cancelada."
    else if state == "ready" then ReadyText
    else UnknownStatePrefix + state
  }

  /** The print states that end or suspend a print: a change to one clears both printing flags. */
  predicate StopState(s: string) {
    s == "paused" || s == "error" || s == "complete" || s == "standby" || s == "cancelled" || s == "cancelling"
  }

  /** The `print_stats` object of a status update. */
  function PrintStatsStep(st: MonitorState, p: Option<PrintStats>): Step {
    if p.None? || p.value.state.None? || p.value.state == st.prevPrintState then Step(st, [])
    else
      var s := p.value.state.value;
      var st1 := st.(prevPrintState := Some(s));
      if s == "printing" then
        var n := if Truthy(p.value.filename) then PrintingFileNotice(WithoutExtension(p.value.filename.value))
                 else PrintingNoFileNotice;
        Step(st1.(hasStartedPrinting := true, printStartedNotified := false), [n])
      else if StopState(s) then
        Step(st1.(hasStartedPrinting := false, printStartedNotified := false), [PrintStateNotice(s)])
      else
        Step(st1, [PrintStateNotice(s)])
  }

  // ------------------------------------------------ the temperature watcher

  /** One channel of a watcher tick: the new latch, whether it disarms, what it says. */
  datatype Latch = Latch(reached: bool, disarm: bool, says: seq<Notice>)

  /** The "target reached" latch of a channel. */
  function Reached(st: MonitorState, ch: Channel): bool {
    match ch
    case Bed => st.bedReached
    case Extruder => st.extruderReached
  }

  function WithReached(st: MonitorState, ch: Channel, reached: bool): MonitorState {
    match ch
    case Bed => st.(bedReached := reached)
    case Extruder => st.(extruderReached := reached)
  }

  function ChannelTick(ch: Channel, reached: bool, h: Option<Heater>): Latch {
    if h.None? || h.value.temperature.None? || h.value.target.None? || h.value.target.value.value == 0.0 then
      Latch(reached, false, [])
    else
      var gap := Abs(h.value.temperature.value - h.value.target.value.value);
      if gap <= TemperatureTolerance && !reached then
        Latch(true, true, [TargetReachedNotice(ch, h.value.target.value.text)])
      else if gap > TemperatureTolerance then
        Latch(false, false, [])
      else
        Latch(reached, false, [])
  }

  /** One run of `check_temperatures`. */
  function TickStep(st: MonitorState, q: Query): Step {
    if !st.monitoring || st.hasStartedPrinting || q.QueryFailed? then Step(st, [])
    else
      var b := ChannelTick(Bed, st.bedReached, q.bed);
      var e := ChannelTick(Extruder, st.extruderReached, q.extruder);
      Step(st.(bedReached := b.reached, extruderReached := e.reached, monitoring := !(b.disarm || e.disarm)),
           b.says + e.says)
  }

  /** `start_temperature_monitoring`: arm and tick at once, unless already armed. */
  function StartMonitoringStep(st: MonitorState, q: Query): Step {
    if st.monitoring then Step(st, []) else TickStep(st.(monitoring := true), q)
  }

  // ------------------------------------------------------ heater targets

  function PrevTarget(st: MonitorState, ch: Channel): Option<real> {
    match ch
    case Bed => st.prevBedTarget
    case Extruder => st.prevExtruderTarget
  }

  function WithPrevTarget(st: MonitorState, ch: Channel, t: real): MonitorState {
    match ch
    case Bed => st.(prevBedTarget := Some(t))
    case Extruder => st.(prevExtruderTarget := Some(t))
  }

  /** The `heater_bed` or `extruder` object of a status update. */
  function TargetStep(st: MonitorState, ch: Channel, h: Option<HeaterStatus>, q: Query): Step {
    if h.None? || h.value.target.None? || Some(h.value.target.value.value) == PrevTarget(st, ch) then Step(st, [])
    else
      var t := h.value.target.value;
      var st1 := WithPrevTarget(st, ch, t.value);
      if st1.hasStartedPrinting then Step(st1, [])
      else if t.value != 0.0 then
        var armed := StartMonitoringStep(st1, q);
        Step(armed.state, armed.says + [NewTargetNotice(ch, t.text)])
      else
        Step(st1, [CoolingNotice(ch)])
  }

  // ------------------------------------------------------------- toolhead

  /** Both heaters reported, each within 2 degrees of its target. */
  predicate HeatedForPrint(q: Query) {
    q.QueryOk? &&
    q.bed.Some? && q.bed.value.temperature.Some? && q.bed.value.target.Some? &&
    q.extruder.Some? && q.extruder.value.temperature.Some? && q.extruder.value.target.Some? &&
    Abs(q.bed.value.temperature.value - q.bed.value.target.value.value) <= TemperatureCheckTolerance &&
    Abs(q.extruder.value.temperature.value - q.extruder.value.target.value.value) <= TemperatureCheckTolerance
  }

  /** The `toolhead` object of a status update. */
  function ToolheadStep(st: MonitorState, th: Option<ToolheadStatus>, q: Query): Step {
    if th.None? then Step(st, [])
    else
      var pos := th.value.position;
      var st1 := st.(prevPosition := pos);
      if pos != st.prevPosition && st.prevPosition.Some? && st.hasStartedPrinting &&
         !st.printStartedNotified && HeatedForPrint(q) then
        Step(st1.(printStartedNotified := true), [PrintBegunNotice])
      else
        Step(st1, [])
  }

  /** A `notify_status_update`: its objects in the order the handler visits them. */
  function StatusStep(st: MonitorState, status: Status, a: Answers): Step {
    var s1 := KlipperStep(st, status.klipper);
    var s2 := McuStep(s1.state, status.mcu);
    var s3 := PrintStatsStep(s2.state, status.printStats);
    var s4 := TargetStep(s3.state, Bed, status.heaterBed, a.bedTick);
    var s5 := TargetStep(s4.state, Extruder, status.extruder, a.extruderTick);
    var s6 := ToolheadStep(s5.state, status.toolhead, a.temperatures);
    Step(s6.state, s1.says + s2.says + s3.says + s4.says + s5.says + s6.says)
  }

  // ------------------------------------------------------------ file list

  /**
   * The distinct elements of `xs` not in `ys`, in order of first
   * appearance (the order of Python's set difference is unspecified; this
   * fixes one).
   */
  function NewNames(xs: seq<string>, ys: seq<string>): (r: seq<string>)
    ensures forall x :: x in r <==> x in xs && x !in ys
    ensures forall i, j :: 0 <= i < j < |r| ==> r[i] != r[j]
    decreases |xs|
  {
    if xs == [] then []
    else if xs[0] in ys then NewNames(xs[1..], ys)
    else
      var rest := NewNames(xs[1..], ys + [xs[0]]);
      assert forall x :: x in xs <==> x == xs[0] || x in xs[1..];
      assert xs[0] !in rest;
      var r := [xs[0]] + rest;
      assert forall i :: 1 <= i < |r| ==> r[i] == rest[i - 1];
      r
  }

  /** One notice per name, each naming the file without ".gcode". */
  function Announce(change: FileChange, names: seq<string>): (r: seq<Notice>)
    ensures |r| == |names|
    ensures forall i :: 0 <= i < |names| ==> r[i] == FileNotice(change, WithoutExtension(names[i]))
  {
    seq(|names|, i requires 0 <= i < |names| => FileNotice(change, WithoutExtension(names[i])))
  }

  /** A `notify_filelist_changed`, with the list the file query returned. */
  function FileListStep(st: MonitorState, fetched: seq<string>): Step {
    if fetched == [] then Step(st, [])
    else
      Step(st.(prevFileList := fetched),
           Announce(Added, NewNames(fetched, st.prevFileList)) +
           Announce(Removed, NewNames(st.prevFileList, fetched)))
  }

  // ------------------------------------------------------------ the rest

  /** A `notify_gcode_response`: responses mentioning M118 announce the macro named in them. */
  function GcodeStep(st: MonitorState, response: string): Step {
    if Contains(response, "M118") then
      Step(st, [MacroNotice(Strip(ReplaceAll(response, MacroMarker, "")))])
    else
      Step(st, [])
  }

  /** The three `notify_klippy_*` methods. */
  function KlippyStep(st: MonitorState, e: Event): Step
    requires e.KlippyShutdown? || e.KlippyDisconnected? || e.KlippyError?
  {
    match e
    case KlippyShutdown => Step(st, [KlippyShutdownNotice])
    case KlippyError => Step(st, [KlippyErrorNotice])
    case KlippyDisconnected => Step(st.(watcherActive := true), [])
  }

  /** `on_message`: the state it leaves and the messages it offers. */
  function MessageStep(st: MonitorState, e: Event, a: Answers): Step {
    match e
    case KlippyShutdown => KlippyStep(st, e)
    case KlippyDisconnected => KlippyStep(st, e)
    case KlippyError => KlippyStep(st, e)
    case StatusUpdate(status) => StatusStep(st, status, a)
    case FileListChanged => FileListStep(st, a.fileList)
    case GcodeResponse(response) => GcodeStep(st, response)
    case Ignored => Step(st, [])
  }

  /** `on_message` starts a reconnection watcher. */
  predicate StartsWatcher(st: MonitorState, e: Event) {
    e.KlippyDisconnected? && !st.watcherActive
  }

  /** `on_message` closes the printer websocket. */
  predicate ClosesSocket(e: Event) {
    e.KlippyDisconnected?
  }

  // ------------------------------------------------ reconnection watcher

  /** One poll of `/server/info`: the clock when the loop condition was read and `klippy_state` (None if the request raised). */
  datatype Poll = Poll(at: real, klippyState: Option<string>)

  /** `is_connection_successful`. */
  predicate Reconnected(answer: Option<string>) {
    answer.Some? && (Lower(answer.value) == "ready" || Lower(answer.value) == "standby")
  }

  /** Some poll finds the 60 s deadline passed, so the loop ends within `polls`. */
  predicate Expires(start: real, polls: seq<Poll>) {
    exists i :: 0 <= i < |polls| && polls[i].at - start >= ReconnectionTimeout
  }

  /** The poll at which the watcher's loop ends: the deadline has passed, or Klipper is back. */
  function Deciding(start: real, polls: seq<Poll>): (i: nat)
    requires Expires(start, polls)
    ensures i < |polls|
    ensures polls[i].at - start >= ReconnectionTimeout || Reconnected(polls[i].klippyState)
    ensures forall j :: 0 <= j < i ==> polls[j].at - start < ReconnectionTimeout && !Reconnected(polls[j].klippyState)
    decreases |polls|
  {
    if polls[0].at - start >= ReconnectionTimeout || Reconnected(polls[0].klippyState) then 0
    else
      var k :| 0 <= k < |polls| && polls[k].at - start >= ReconnectionTimeout;
      assert polls[1..][k - 1] == polls[k];
      1 + Deciding(start, polls[1..])
  }

  /** The one message `watcher_reconnection` sends. */
  function WatcherNotice(start: real, polls: seq<Poll>): Notice
    requires Expires(start, polls)
  {
    if polls[Deciding(start, polls)].at - start < ReconnectionTimeout then ReconnectedNotice else NotReconnectedNotice
  }

  /** `check_initial_restart`: which start-up message is sent. */
  function RestartNotice(flagExists: bool): Notice {
    if flagExists then RestartedNotice else FirstStartNotice
  }
}
