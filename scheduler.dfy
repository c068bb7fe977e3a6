/**
 * The reminder scheduler: it writes the details file that the reminder
 * script reads back, reads a relative ("R:h:m:s") or absolute reminder
 * time, names the task after its date and time, and hands one dated job to
 * the background scheduler. The clock reading `now` is a parameter; the
 * background scheduler is modelled by the list of jobs handed to it.
 */
module Scheduler {
  import opened Wrappers
  import opened Strings

  // ---------------------------------------------------------------------
  // The calendar of Python's `datetime`
  // ---------------------------------------------------------------------

  /** A `datetime` to the second; the microseconds of `now` never change the result. */
  datatype DateTime = DateTime(year: int, month: int, day: int, hour: int, minute: int, second: int)

  /** `datetime.MINYEAR` and `datetime.MAXYEAR`. */
  const MinYear := 1
  const MaxYear := 9999
  /** The largest day count a `timedelta` may hold. */
  const MaxDeltaDays := 999999999
  const SecondsPerDay := 86400

  /** Gregorian leap years. */
  predicate IsLeap(y: int) {
    y % 4 == 0 && (y % 100 != 0 || y % 400 == 0)
  }

  /** The number of days in month `m` of year `y`. */
  function DaysIn(y: int, m: int): (n: int)
    ensures 28 <= n <= 31
    ensures n == 29 <==> m == 2 && IsLeap(y)
  {
    if m == 2 then (if IsLeap(y) then 29 else 28)
    else if m == 4 || m == 6 || m == 9 || m == 11 then 30
    else 31
  }

  /** A real month and day of the month, in any year. */
  predicate CalendarDay(d: DateTime) {
    1 <= d.month <= 12 && 1 <= d.day <= DaysIn(d.year, d.month)
  }

  /** A real time of day. */
  predicate ClockTime(d: DateTime) {
    0 <= d.hour < 24 && 0 <= d.minute < 60 && 0 <= d.second < 60
  }

  /** A value `datetime` can hold. */
  predicate Valid(d: DateTime) {
    CalendarDay(d) && ClockTime(d) && MinYear <= d.year <= MaxYear
  }

  /** The same time of day on the following day. */
  function NextDay(d: DateTime): (r: DateTime)
    requires CalendarDay(d)
    ensures CalendarDay(r)
    ensures r.hour == d.hour && r.minute == d.minute && r.second == d.second
    ensures d.year <= r.year <= d.year + 1
  {
    if d.day < DaysIn(d.year, d.month) then d.(day := d.day + 1)
    else if d.month < 12 then d.(month := d.month + 1, day := 1)
    else d.(year := d.year + 1, month := 1, day := 1)
  }

  /** The same time of day on the previous day. */
  function PrevDay(d: DateTime): (r: DateTime)
    requires CalendarDay(d)
    ensures CalendarDay(r)
    ensures r.hour == d.hour && r.minute == d.minute && r.second == d.second
    ensures d.year - 1 <= r.year <= d.year
  {
    if d.day > 1 then d.(day := d.day - 1)
    else if d.month > 1 then d.(month := d.month - 1, day := DaysIn(d.year, d.month - 1))
    else d.(year := d.year - 1, month := 12, day := 31)
  }

  /** `n` days later (earlier when `n` is negative), at the same time of day. */
  function AddDays(d: DateTime, n: int): (r: DateTime)
    requires CalendarDay(d)
    ensures CalendarDay(r)
    ensures r.hour == d.hour && r.minute == d.minute && r.second == d.second
    ensures n >= 0 ==> d.year <= r.year
    ensures n <= 0 ==> r.year <= d.year
    decreases if n < 0 then -n else n
  {
    if n == 0 then d
    else if n > 0 then NextDay(AddDays(d, n - 1))
    else PrevDay(AddDays(d, n + 1))
  }

  /** The seconds since midnight. */
  function SecondOfDay(d: DateTime): int {
    d.hour * 3600 + d.minute * 60 + d.second
  }

  /**
   * `d + timedelta(seconds=secs)`, before the range check: the day carries
   * the floor of the seconds past midnight over whole days, the clock keeps
   * the remainder.
   */
  function AddSeconds(d: DateTime, secs: int): (r: DateTime)
    requires CalendarDay(d) && ClockTime(d)
    ensures CalendarDay(r) && ClockTime(r)
    ensures 0 <= SecondOfDay(r) < SecondsPerDay
    ensures SecondOfDay(r) == (SecondOfDay(d) + secs) % SecondsPerDay
  {
    var total := SecondOfDay(d) + secs;
    var rem := total % SecondsPerDay;
    var day := AddDays(d, total / SecondsPerDay);
    DateTime(day.year, day.month, day.day, rem / 3600, rem % 3600 / 60, rem % 60)
  }

  /** `NextDay` and `PrevDay` undo each other. */
  lemma DayInverse(d: DateTime)
    requires CalendarDay(d)
    ensures PrevDay(NextDay(d)) == d
    ensures NextDay(PrevDay(d)) == d
  {
  }

  /** A clock time is determined by its seconds since midnight. */
  lemma ClockOfSecond(d: DateTime)
    requires ClockTime(d)
    ensures SecondOfDay(d) / 3600 == d.hour
    ensures SecondOfDay(d) % 3600 / 60 == d.minute
    ensures SecondOfDay(d) % 60 == d.second
  {
    var s := SecondOfDay(d);
    assert s == d.hour * 3600 + (d.minute * 60 + d.second);
    assert 0 <= d.minute * 60 + d.second < 3600;
    assert s % 3600 == d.minute * 60 + d.second;
  }

  /** Adding no seconds, or a whole day of them, moves by zero or one day. */
  lemma AddWholeDays(d: DateTime)
    requires CalendarDay(d) && ClockTime(d)
    ensures AddSeconds(d, 0) == d
    ensures AddSeconds(d, SecondsPerDay) == NextDay(d)
    ensures AddSeconds(d, -SecondsPerDay) == PrevDay(d)
  {
    ClockOfSecond(d);
    var s := SecondOfDay(d);
    assert 0 <= s < SecondsPerDay;
    assert (s + SecondsPerDay) / SecondsPerDay == 1 && (s + SecondsPerDay) % SecondsPerDay == s;
    assert (s - SecondsPerDay) / SecondsPerDay == -1 && (s - SecondsPerDay) % SecondsPerDay == s;
    assert AddDays(d, 1) == NextDay(d);
    assert AddDays(d, -1) == PrevDay(d);
  }

  // ---------------------------------------------------------------------
  // strftime, int() and the task name
  // ---------------------------------------------------------------------

  /** `f"{n:02d}"` and strftime's `%d`, `%m`, `%H`, `%M`: at least two characters, zero-filled. */
  function Pad2(n: int): string {
    var s := IntToString(n);
    if |s| < 2 then "0" + s else s
  }

  /** `strftime("%d/%m/%Y")`. */
  function FormatDate(d: DateTime): string {
    Pad2(d.day) + "/" + Pad2(d.month) + "/" + IntToString(d.year)
  }

  /** `strftime("%H:%M")`. */
  function FormatTime(d: DateTime): string {
    Pad2(d.hour) + ":" + Pad2(d.minute)
  }

  /** `day, month, year = map(int, parts)`: exactly three integers, else ValueError. */
  function DatePartsOf(p: seq<string>): Result<(int, int, int)> {
    if |p| != 3 then Err("ValueError")
    else
      var day, month, year := ParseInt(p[0]), ParseInt(p[1]), ParseInt(p[2]);
      if day.Ok? && month.Ok? && year.Ok? then Ok((day.value, month.value, year.value))
      else Err("ValueError")
  }

  /** `day, month, year = map(int, date.split('/'))`. */
  function DateParts(date: string): Result<(int, int, int)> {
    DatePartsOf(Split(date, '/'))
  }

  /**
   * The hours, minutes and seconds of `p = offset.split(":")`: the pieces
   * convert left to right, a missing one is IndexError once the ones before
   * it have converted, and pieces beyond the third are ignored.
   */
  function OffsetPartsOf(p: seq<string>): Result<(int, int, int)>
    requires |p| >= 1
  {
    var h := ParseInt(p[0]);
    if h.Err? then Err("ValueError")
    else if |p| < 2 then Err("IndexError")
    else
      var m := ParseInt(p[1]);
      if m.Err? then Err("ValueError")
      else if |p| < 3 then Err("IndexError")
      else
        var s := ParseInt(p[2]);
        if s.Err? then Err("ValueError")
        else Ok((h.value, m.value, s.value))
  }

  /** The parts of a relative offset. */
  function OffsetParts(offset: string): Result<(int, int, int)> {
    OffsetPartsOf(Split(offset, ':'))
  }

  /** `f"TTSReminder_{year}{month:02d}{day:02d}_{time.replace(':', '')}"`. */
  function TaskName(day: int, month: int, year: int, time: string): string {
    "TTSReminder_" + IntToString(year) + Pad2(month) + Pad2(day) + "_" + ReplaceAll(time, ":", "")
  }

  /** The confirmation the scheduler returns. */
  function Message(taskName: string, date: string, time: string): string {
    "Tarea '" + taskName + "' programada correctamente para " + date + " a las " + time + "."
  }

  /** A dated job handed to the background scheduler; it runs the reminder script. */
  datatype Job = Job(runDate: DateTime, taskName: string)

  /** What a successful call leaves behind: the job and the confirmation. */
  datatype Scheduled = Scheduled(job: Job, message: string)

  /**
   * The relative branch, from the parsed offset: the start is `now` plus
   * the offset; an offset of a billion days or more, or a start outside
   * years 1..9999, is Python's OverflowError.
   */
  function Relative(now: DateTime, offset: Result<(int, int, int)>): (r: Result<DateTime>)
    requires CalendarDay(now) && ClockTime(now)
    ensures r.Ok? ==> Valid(r.value)
  {
    match offset
    case Err(e) => Err(e)
    case Ok((h, m, s)) =>
      var secs := 3600 * h + 60 * m + s;
      if secs / SecondsPerDay < -MaxDeltaDays || secs / SecondsPerDay > MaxDeltaDays then Err("OverflowError")
      else
        var start := AddSeconds(now, secs);
        if start.year < MinYear || start.year > MaxYear then Err("OverflowError")
        else Ok(start)
  }

  /**
   * The job and confirmation, from the parsed date, the date and time texts
   * and the run date, if one was bound.
   */
  function Finish(parts: Result<(int, int, int)>, date: string, time: string, start: Option<DateTime>)
    : (r: Result<Scheduled>)
    ensures r.Ok? <==> parts.Ok? && start.Some?
    ensures r.Ok? ==> r.value.job.runDate == start.value
  {
    match parts
    case Err(e) => Err(e)
    case Ok((day, month, year)) =>
      var name := TaskName(day, month, year, time);
      if start.None? then Err("UnboundLocalError")
      else Ok(Scheduled(Job(start.value, name), Message(name, date, time)))
  }

  /**
   * `schedule_task_with_details` as written: only the relative branch binds
   * `start_datetime`, so an absolute time fails when the job is added.
   */
  function ScheduleAsWritten(now: DateTime, date: string, time: string): (r: Result<Scheduled>)
    requires CalendarDay(now) && ClockTime(now)
    ensures r.Ok? ==> StartsWith(time, "R:")
  {
    if StartsWith(time, "R:") then
      match Relative(now, OffsetParts(time[2..]))
      case Err(e) => Err(e)
      case Ok(start) =>
        var date' := FormatDate(start);
        Finish(DateParts(date'), date', FormatTime(start), Some(start))
    else
      var date' := if date == "0" then FormatDate(now) else date;
      Finish(DateParts(date'), date', time, None)
  }

  /** `"H:M"` read as exactly two integers, an hour and a minute. */
  function ClockPartsOf(p: seq<string>): Result<(int, int)> {
    if |p| != 2 then Err("ValueError")
    else
      var h, m := ParseInt(p[0]), ParseInt(p[1]);
      if h.Ok? && m.Ok? then Ok((h.value, m.value)) else Err("ValueError")
  }

  function ClockParts(time: string): Result<(int, int)> {
    ClockPartsOf(Split(time, ':'))
  }

  /** The absolute run date: the parsed date at the parsed hour and minute, if such a moment exists. */
  function Absolute(date: Result<(int, int, int)>, clock: Result<(int, int)>): (r: Result<DateTime>)
    ensures r.Ok? ==> Valid(r.value) && r.value.second == 0
    ensures r.Ok? <==> date.Ok? && clock.Ok?
                       && Valid(DateTime(date.value.2, date.value.1, date.value.0, clock.value.0, clock.value.1, 0))
  {
    match (date, clock)
    case (Ok((day, month, year)), Ok((h, m))) =>
      var d := DateTime(year, month, day, h, m, 0);
      if Valid(d) then Ok(d) else Err("ValueError")
    case _ => Err("ValueError")
  }

  /**
   * `schedule_task_with_details` as evidently intended: an absolute time
   * runs at the moment the confirmation announces.
   */
  function Schedule(now: DateTime, date: string, time: string): (r: Result<Scheduled>)
    requires CalendarDay(now) && ClockTime(now)
    ensures r.Ok? ==> Valid(r.value.job.runDate)
  {
    if StartsWith(time, "R:") then
      match Relative(now, OffsetParts(time[2..]))
      case Err(e) => Err(e)
      case Ok(start) =>
        var date' := FormatDate(start);
        Finish(DateParts(date'), date', FormatTime(start), Some(start))
    else
      var date' := if date == "0" then FormatDate(now) else date;
      match Absolute(DateParts(date'), ClockParts(time))
      case Err(e) => Err(e)
      case Ok(start) => Finish(DateParts(date'), date', time, Some(start))
  }

  // ---------------------------------------------------------------------
  // The details file
  // ---------------------------------------------------------------------

  /** The details file: the id on the first line, the subject after it. */
  function Details(id: string, subject: string): string {
    id + "\n" + subject
  }

  /**
   * Reading in text mode with universal newlines: "\r\n" and a lone "\r"
   * both arrive as "\n".
   */
  function Translate(content: string): (r: string)
    ensures '\r' !in r
    ensures '\r' !in content ==> r == content
  {
    if content == [] then []
    else if content[0] == '\r' then
      if |content| > 1 && content[1] == '\n' then "\n" + Translate(content[2..])
      else "\n" + Translate(content[1..])
    else [content[0]] + Translate(content[1..])
  }

  /** The lines laid end to end. */
  function Concat(lines: seq<string>): string {
    if lines == [] then [] else lines[0] + Concat(lines[1..])
  }

  /**
   * Cutting decoded text after every "\n": each line keeps its newline,
   * only the last may lack one, no line is empty, and together they are
   * the text.
   */
  function Lines(text: string): (r: seq<string>)
    ensures forall i :: 0 <= i < |r| ==> r[i] != []
    ensures Concat(r) == text
    ensures forall i :: 0 <= i < |r| - 1 ==> r[i][|r[i]| - 1] == '\n'
    ensures forall i, k :: 0 <= i < |r| && 0 <= k < |r[i]| - 1 ==> r[i][k] != '\n'
  {
    if text == [] then []
    else
      var rest := Lines(text[1..]);
      if text[0] == '\n' || rest == [] then
        assert Concat([[text[0]]] + rest) == [text[0]] + Concat(rest);
        [[text[0]]] + rest
      else
        var r := [[text[0]] + rest[0]] + rest[1..];
        assert r[1..] == rest[1..];
        assert Concat(rest) == rest[0] + Concat(rest[1..]);
        r
  }

  /** `file.readlines()` on a file opened with `open(path, 'r')`. */
  function ReadLines(content: string): (r: seq<string>)
    ensures forall i :: 0 <= i < |r| ==> r[i] != []
    ensures Concat(r) == Translate(content)
    ensures forall i, k :: 0 <= i < |r| && 0 <= k < |r[i]| - 1 ==> r[i][k] != '\n'
  {
    Lines(Translate(content))
  }

  /** The reminder script's reading: `(lines[0].strip(), lines[1].strip())`, IndexError with fewer than two lines. */
  function ReadBack(content: string): Result<(string, string)> {
    var lines := ReadLines(content);
    if |lines| < 2 then Err("IndexError")
    else Ok((Strip(lines[0]), Strip(lines[1])))
  }

  // ---------------------------------------------------------------------
  // The scheduler object
  // ---------------------------------------------------------------------

  class TaskScheduler {
    /** The id of the chat the reminder goes back to. */
    const id: string
    /** The contents of the details file, once this scheduler has written it. */
    var details: Option<string>
    /** The jobs handed to the background scheduler, oldest first. */
    var jobs: seq<Job>

    constructor(id: string)
      ensures this.id == id && details == None && jobs == []
    {
      this.id := id;
      details := None;
      jobs := [];
    }

    /**
     * Writes the details file first, whatever happens next, then schedules
     * one job and returns the confirmation, or the exception's name.
     */
    method ScheduleTaskWithDetails(now: DateTime, date: string, time: string, subject: string)
      returns (r: Result<string>)
      requires Valid(now)
      modifies this
      ensures details == Some(Details(id, subject))
      ensures r.Ok? <==> Schedule(now, date, time).Ok?
      ensures r.Ok? ==> r.value == Schedule(now, date, time).value.message
      ensures r.Err? ==> r.error == Schedule(now, date, time).error
      ensures jobs == if r.Ok? then old(jobs) + [Schedule(now, date, time).value.job] else old(jobs)
    {
      details := Some(id + "\n" + subject);
      var s := Schedule(now, date, time);
      if s.Ok? {
        jobs := jobs + [s.value.job];
        r := Ok(s.value.message);
      } else {
        r := Err(s.error);
      }
    }
  }

  // ---------------------------------------------------------------------
  // Properties
  // ---------------------------------------------------------------------

  /** `str(n)` and its zero-filled form hold neither a slash nor a colon. */
  lemma NoSeparators(n: int)
    ensures '/' !in IntToString(n) && ':' !in IntToString(n)
    ensures '/' !in Pad2(n) && ':' !in Pad2(n)
  {
    var m: nat := if n < 0 then -n else n;
    var digits := NatToString(m);
    assert forall c :: c in digits ==> '0' <= c <= '9';
    assert IntToString(n) == (if n < 0 then "-" else "") + digits;
  }

  /** `int(f"{n:02d}") == n`. */
  lemma ParsePad2(n: int)
    ensures ParseInt(Pad2(n)) == Ok(n)
  {
    var s := IntToString(n);
    if |s| < 2 {
      assert n >= 0;
      assert s == NatToString(n) && n < 10;
      ParseZeroPadded(n);
    } else {
      ParseIntOfString(n);
    }
  }

  /** A single digit behind a `0` reads back as itself. */
  lemma ParseZeroPadded(n: nat)
    requires n < 10
    ensures ParseInt("0" + IntToString(n)) == Ok(n)
  {
    var t := "0" + IntToString(n);
    assert IntToString(n) == [DigitChar(n)];
    assert t == ['0', DigitChar(n)];
    assert IsDigits(t);
    assert t[..1] == "0" && t[..|t| - 1] == "0";
    assert DigitsValue(t[..1]) == 0;
    assert DigitsValue(t) == n;
    NotSpace(t[0]);
    NotSpace(t[|t| - 1]);
    StripOfTrimmed(t);
    ParseDigits(t, n);
  }

  /** A formatted date reads back as its own day, month and year. */
  lemma FormatDateRoundTrip(d: DateTime)
    ensures DateParts(FormatDate(d)) == Ok((d.day, d.month, d.year))
  {
    var a, b, c := Pad2(d.day), Pad2(d.month), IntToString(d.year);
    NoSeparators(d.day);
    NoSeparators(d.month);
    NoSeparators(d.year);
    SplitThree(a, b, c, '/');
    ParsePad2(d.day);
    ParsePad2(d.month);
    ParseIntOfString(d.year);
    DatePartsOfThree(a, b, c, d.day, d.month, d.year);
  }

  lemma DatePartsOfThree(a: string, b: string, c: string, day: int, month: int, year: int)
    requires ParseInt(a) == Ok(day) && ParseInt(b) == Ok(month) && ParseInt(c) == Ok(year)
    ensures DatePartsOf([a, b, c]) == Ok((day, month, year))
  {
  }

  /** The task name of a formatted clock time drops its colon. */
  lemma TimeWithoutColon(d: DateTime)
    ensures ReplaceAll(FormatTime(d), ":", "") == Pad2(d.hour) + Pad2(d.minute)
  {
    NoSeparators(d.hour);
    NoSeparators(d.minute);
    DropBetween(Pad2(d.hour), ':', Pad2(d.minute));
  }

  /** The text "h:m:s" of three integers. */
  function OffsetText(h: int, m: int, s: int): string {
    IntToString(h) + ":" + IntToString(m) + ":" + IntToString(s)
  }

  /** A relative offset written out reads back as its number of seconds. */
  lemma OffsetPartsOfText(h: int, m: int, s: int)
    ensures OffsetParts(OffsetText(h, m, s)) == Ok((h, m, s))
  {
    var a, b, c := IntToString(h), IntToString(m), IntToString(s);
    NoSeparators(h);
    NoSeparators(m);
    NoSeparators(s);
    SplitThree(a, b, c, ':');
    ParseIntOfString(h);
    ParseIntOfString(m);
    ParseIntOfString(s);
    OffsetOfThree(a, b, c, h, m, s);
  }

  lemma OffsetOfThree(a: string, b: string, c: string, h: int, m: int, s: int)
    requires ParseInt(a) == Ok(h) && ParseInt(b) == Ok(m) && ParseInt(c) == Ok(s)
    ensures OffsetPartsOf([a, b, c]) == Ok((h, m, s))
  {
  }

  /** The task name of a reminder dated `d`, at the hour and minute of `t`. */
  function ReminderName(d: DateTime, t: DateTime): string {
    "TTSReminder_" + IntToString(d.year) + Pad2(d.month) + Pad2(d.day) + "_" + Pad2(t.hour) + Pad2(t.minute)
  }

  /** A date and a clock time in the program's own format name and confirm the job. */
  lemma FinishFormatted(d: DateTime, start: DateTime)
    ensures Finish(Ok((d.day, d.month, d.year)), FormatDate(d), FormatTime(start), Some(start))
            == Ok(Scheduled(Job(start, ReminderName(d, start)),
                            Message(ReminderName(d, start), FormatDate(d), FormatTime(start))))
  {
    TimeWithoutColon(start);
    var prefix := "TTSReminder_" + IntToString(d.year) + Pad2(d.month) + Pad2(d.day) + "_";
    assert prefix + (Pad2(start.hour) + Pad2(start.minute)) == ReminderName(d, start);
  }

  /** The start of "R:h:m:s" is `now` plus that many hours, minutes and seconds. */
  lemma RelativeStart(now: DateTime, h: int, m: int, s: int)
    requires CalendarDay(now) && ClockTime(now)
    requires -MaxDeltaDays <= (3600 * h + 60 * m + s) / SecondsPerDay <= MaxDeltaDays
    requires MinYear <= AddSeconds(now, 3600 * h + 60 * m + s).year <= MaxYear
    ensures Relative(now, Ok((h, m, s))) == Ok(AddSeconds(now, 3600 * h + 60 * m + s))
  {
  }

  /**
   * A relative time "R:h:m:s" schedules one job at `now` plus that many
   * hours, minutes and seconds, named after the start's date and its hour
   * and minute, and confirms the start's date and clock time.
   */
  lemma RelativeSchedules(now: DateTime, date: string, h: int, m: int, s: int)
    requires Valid(now)
    requires -MaxDeltaDays <= (3600 * h + 60 * m + s) / SecondsPerDay <= MaxDeltaDays
    requires MinYear <= AddSeconds(now, 3600 * h + 60 * m + s).year <= MaxYear
    ensures var start := AddSeconds(now, 3600 * h + 60 * m + s);
            var name := "TTSReminder_" + IntToString(start.year) + Pad2(start.month) + Pad2(start.day)
                        + "_" + Pad2(start.hour) + Pad2(start.minute);
            Schedule(now, date, "R:" + OffsetText(h, m, s))
              == Ok(Scheduled(Job(start, name), Message(name, FormatDate(start), FormatTime(start))))
  {
    var time := "R:" + OffsetText(h, m, s);
    assert StartsWith(time, "R:") && time[2..] == OffsetText(h, m, s);
    OffsetPartsOfText(h, m, s);
    RelativeStart(now, h, m, s);
    var start := AddSeconds(now, 3600 * h + 60 * m + s);
    FormatDateRoundTrip(start);
    FinishFormatted(start, start);
  }

  /** As written, a time without the "R:" prefix never schedules anything. */
  lemma AbsoluteNeverSchedules(now: DateTime, date: string, time: string)
    requires CalendarDay(now) && ClockTime(now)
    requires !StartsWith(time, "R:")
    ensures ScheduleAsWritten(now, date, time).Err?
    ensures ScheduleAsWritten(now, date, time).error == "ValueError"
            || ScheduleAsWritten(now, date, time).error == "UnboundLocalError"
    ensures date == "0" ==> ScheduleAsWritten(now, date, time) == Err("UnboundLocalError")
  {
    if date == "0" {
      FormatDateRoundTrip(now);
    }
  }

  /** "HH:MM" of an hour and a minute is not a relative time. */
  lemma ClockTextAbsolute(h: int, m: int)
    requires 0 <= h
    ensures !StartsWith(Pad2(h) + ":" + Pad2(m), "R:")
  {
    var a := Pad2(h);
    var digits := NatToString(h);
    assert a == digits || a == "0" + digits;
    assert a[0] != 'R';
    assert (a + ":" + Pad2(m))[0] == a[0];
  }

  /** "HH:MM" of an hour and a minute reads back as them. */
  lemma ClockTextParts(h: int, m: int)
    ensures ClockParts(Pad2(h) + ":" + Pad2(m)) == Ok((h, m))
  {
    var a, b := Pad2(h), Pad2(m);
    NoSeparators(h);
    NoSeparators(m);
    SplitAt(a, ':', b);
    SplitNoSep(b, ':');
    ParsePad2(h);
    ParsePad2(m);
    ClockOfTwo(a, b, h, m);
  }

  lemma ClockOfTwo(a: string, b: string, h: int, m: int)
    requires ParseInt(a) == Ok(h) && ParseInt(b) == Ok(m)
    ensures ClockPartsOf([a, b]) == Ok((h, m))
  {
  }

  /** The intended reading: "today" at "HH:MM" schedules at that hour and minute of today. */
  lemma AbsoluteSchedules(now: DateTime, h: int, m: int)
    requires Valid(now)
    requires 0 <= h < 24 && 0 <= m < 60
    ensures var start := DateTime(now.year, now.month, now.day, h, m, 0);
            var name := "TTSReminder_" + IntToString(now.year) + Pad2(now.month) + Pad2(now.day)
                        + "_" + Pad2(h) + Pad2(m);
            var time := Pad2(h) + ":" + Pad2(m);
            Schedule(now, "0", time) == Ok(Scheduled(Job(start, name), Message(name, FormatDate(now), time)))
  {
    var start := DateTime(now.year, now.month, now.day, h, m, 0);
    var time := Pad2(h) + ":" + Pad2(m);
    assert Absolute(Ok((now.day, now.month, now.year)), Ok((h, m))) == Ok(start);
    assert time == FormatTime(start);
    ClockTextAbsolute(h, m);
    ClockTextParts(h, m);
    FormatDateRoundTrip(now);
    FinishFormatted(now, start);
  }

  /**
   * Any other date is taken verbatim: a job scheduled for it runs on the
   * day, month and year it spells, at the hour and minute of the time, and
   * the confirmation repeats both texts as given.
   */
  lemma AbsoluteVerbatim(now: DateTime, date: string, time: string)
    requires CalendarDay(now) && ClockTime(now)
    requires !StartsWith(time, "R:") && date != "0"
    requires Schedule(now, date, time).Ok?
    ensures DateParts(date).Ok? && ClockParts(time).Ok?
    ensures var (day, month, year) := DateParts(date).value;
            var (h, m) := ClockParts(time).value;
            var r := Schedule(now, date, time).value;
            r.job.runDate == DateTime(year, month, day, h, m, 0)
            && r.job.taskName == TaskName(day, month, year, time)
            && r.message == Message(r.job.taskName, date, time)
  {
  }

  /** The correction leaves relative times alone. */
  lemma RelativeUnchanged(now: DateTime, date: string, time: string)
    requires CalendarDay(now) && ClockTime(now)
    requires StartsWith(time, "R:")
    ensures Schedule(now, date, time) == ScheduleAsWritten(now, date, time)
  {
  }

  /** A line without a newline is a single line. */
  lemma {:induction false} LinesOfOne(a: string)
    requires a != [] && '\n' !in a
    ensures Lines(a) == [a]
  {
    assert a[0] in a && a == [a[0]] + a[1..];
    if |a| > 1 {
      LinesOfOne(a[1..]);
      var rest := Lines(a[1..]);
      assert rest == [a[1..]] && rest[1..] == [];
      assert a[0] != '\n' && rest != [];
      assert Lines(a) == [[a[0]] + rest[0]] + rest[1..];
    } else {
      assert a[1..] == [] && Lines(a[1..]) == [];
      assert Lines(a) == [[a[0]]] + Lines(a[1..]);
      assert [a[0]] == a;
    }
  }

  /** A first line ending in "\n" is cut off on its own. */
  lemma {:induction false} LinesAfter(a: string, b: string)
    requires '\n' !in a
    ensures Lines(a + "\n" + b) == [a + "\n"] + Lines(b)
  {
    if a == [] {
      assert (a + "\n" + b)[1..] == b;
    } else {
      var t := a + "\n" + b;
      assert t[0] == a[0] && a[0] in a;
      assert t[1..] == a[1..] + "\n" + b;
      LinesAfter(a[1..], b);
      assert [t[0]] + (a[1..] + "\n") == a + "\n";
    }
  }

  /**
   * The reminder script reads back the id and the subject, stripped, as
   * long as neither holds a line end; an empty subject leaves a single line.
   */
  lemma DetailsRoundTrip(id: string, subject: string)
    requires '\n' !in id && '\n' !in subject
    requires '\r' !in id && '\r' !in subject
    ensures ReadBack(Details(id, subject))
            == if subject == [] then Err("IndexError") else Ok((Strip(id), Strip(subject)))
  {
    assert '\r' !in Details(id, subject);
    LinesAfter(id, subject);
    if subject != [] {
      LinesOfOne(subject);
    }
    StripSnocSpace(id, '\n');
  }

  /** Text without a carriage return passes through the decoding unchanged, whatever follows it. */
  lemma {:induction false} TranslatePrefix(a: string, rest: string)
    requires '\r' !in a
    ensures Translate(a + rest) == a + Translate(rest)
  {
    if a == [] {
      assert a + rest == rest;
    } else {
      var t := a + rest;
      assert t[0] == a[0] && t[1..] == a[1..] + rest;
      assert a[0] != '\r' by { assert a[0] in a; }
      TranslatePrefix(a[1..], rest);
      calc {
        Translate(t);
        [a[0]] + Translate(a[1..] + rest);
        [a[0]] + (a[1..] + Translate(rest));
        { assert [a[0]] + a[1..] == a; }
        a + Translate(rest);
      }
    }
  }

  /**
   * A carriage return inside the id ends a line when the reminder script
   * reads the file: for the id `a + "\r" + b` it reads back `a` as the id
   * and `b` as the subject.
   */
  lemma CarriageReturnSplitsId(a: string, b: string, subject: string)
    requires '\n' !in a && '\r' !in a && '\n' !in b && '\r' !in b && '\r' !in subject
    requires b != []
    ensures ReadBack(Details(a + "\r" + b, subject)) == Ok((Strip(a), Strip(b)))
  {
    var r2 := b + "\n" + subject;
    assert Details(a + "\r" + b, subject) == a + ("\r" + r2);
    assert ("\r" + r2)[1..] == r2 && r2[0] == b[0] && b[0] in b;
    assert '\r' !in r2;
    TranslatePrefix(a, "\r" + r2);
    assert Translate("\r" + r2) == "\n" + r2;
    assert Translate(a + ("\r" + r2)) == a + "\n" + (b + "\n" + subject);
    LinesAfter(a, b + "\n" + subject);
    LinesAfter(b, subject);
    StripSnocSpace(a, '\n');
    StripSnocSpace(b, '\n');
  }

}
