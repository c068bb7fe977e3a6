/**
 * The printer client of printerfuntions.py (`PrinterFunctions`): its
 * validated configuration, the URL and headers of every request, the
 * routing of `send_command` and the file choices of `print_file_by_name`,
 * `print_most_recent_file` and `search_files`.
 *
 * Every HTTP exchange is an input: the listing `get_most_recent_files`
 * returns is a `seq<FileInfo>`, and what a POST returns is an
 * `HttpResult`. `fuzz.ratio` is the input function `ratio`.
 */
module PrinterFunctions {
  import opened Wrappers
  import opened Strings
  import opened Sorting

  datatype ServerKind = OctoPrint | Moonraker

  /** The attributes the constructor sets; none is reassigned afterwards. */
  datatype Config = Config(apiKey: Option<string>, printerIp: string, server: ServerKind, protocol: string)

  const ServerKindError: string := "ValueError: El parámetro 'server' debe ser 'octoprint' o 'moonraker'."

  /** `PrinterFunctions(api_key, printer_ip, server, protocol)`. */
  function NewConfig(apiKey: string, printerIp: string, server: string, protocol: string): Result<Config> {
    var key := if apiKey == "0" || apiKey == "" then None else Some(apiKey);
    var kind := Lower(server);
    if kind == "octoprint" then Ok(Config(key, printerIp, OctoPrint, Lower(protocol)))
    else if kind == "moonraker" then Ok(Config(key, printerIp, Moonraker, Lower(protocol)))
    else Err(ServerKindError)
  }

  const ContentType: string := "Content-Type"
  const ApiKeyHeader: string := "X-Api-Key"

  /** `_get_headers`. */
  function Headers(cfg: Config): map<string, string> {
    var base := map[ContentType := "application/json"];
    if cfg.apiKey.Some? then base[ApiKeyHeader := cfg.apiKey.value] else base
  }

  /** `_get_url(endpoint)`. */
  function Url(cfg: Config, endpoint: string): string {
    cfg.protocol + "://" + cfg.printerIp + "/" + endpoint
  }

  /** A JSON value of a request body. */
  datatype Json = JStr(str: string) | JBool(b: bool)

  datatype Request = Request(url: string, headers: map<string, string>, body: map<string, Json>)

  /** What `requests.post` did: a response, or a raised `RequestException`. */
  datatype HttpResult = Response(status: int, content: string) | RequestFailed(reason: string)

  /** The status codes the client takes as success. */
  predicate Delivered(h: HttpResult) {
    h.Response? && (h.status == 200 || h.status == 204)
  }

  /** The text an error message quotes: the response body, or the exception. */
  function Detail(h: HttpResult): string {
    if h.Response? then h.content else h.reason
  }

  // ------------------------------------------------------------ send_command

  const JobEndpoint: string := "api/job"
  const CommandEndpoint: string := "api/printer/command"
  const ScriptEndpoint: string := "printer/gcode/script"

  /** The body of `special_commands[command_lower]`, when it is one of the four job commands. */
  function SpecialPayload(lower: string): Option<map<string, Json>> {
    if lower == "pause" then Some(map["command" := JStr("pause"), "action" := JStr("pause")])
    else if lower == "resume" then Some(map["command" := JStr("pause"), "action" := JStr("resume")])
    else if lower == "cancel" then Some(map["command" := JStr("cancel")])
    else if lower == "restart" then Some(map["command" := JStr("restart")])
    else None
  }

  /** The request `send_command` posts for one line. */
  function Route(cfg: Config, command: string): Request {
    var special := SpecialPayload(Lower(command));
    if special.Some? then Request(Url(cfg, JobEndpoint), Headers(cfg), special.value)
    else if cfg.server == OctoPrint && cfg.apiKey.Some? then
      Request(Url(cfg, CommandEndpoint), Headers(cfg), map["command" := JStr(command)])
    else Request(Url(cfg, ScriptEndpoint), Headers(cfg), map["script" := JStr(command)])
  }

  const SendOk: string := "Comando(s) enviado(s) exitosamente."

  function SendError(command: string, h: HttpResult): string {
    "Error al enviar el comando '" + command + "': " + Detail(h)
  }

  /** `commands.strip().split("\n")`. */
  function CommandLines(commands: string): seq<string> {
    Split(Strip(commands), '\n')
  }

  /** The requests posted, in order, and the returned message. */
  datatype Sent = Sent(requests: seq<Request>, message: string)

  /**
   * The loop of `send_command` continued over `lines` after posting `sent`:
   * each line is posted and answered by the next of `answers`, stopping at
   * the first failure.
   */
  function SendFrom(cfg: Config, sent: seq<Request>, lines: seq<string>, answers: seq<HttpResult>): Sent
    requires |answers| >= |lines|
    decreases |lines|
  {
    if lines == [] then Sent(sent, SendOk)
    else if !Delivered(answers[0]) then Sent(sent + [Route(cfg, lines[0])], SendError(lines[0], answers[0]))
    else SendFrom(cfg, sent + [Route(cfg, lines[0])], lines[1..], answers[1..])
  }

  /** `send_command` over `lines`, the i-th post answered by `answers[i]`. */
  function SendAll(cfg: Config, lines: seq<string>, answers: seq<HttpResult>): Sent
    requires |answers| >= |lines|
  {
    SendFrom(cfg, [], lines, answers)
  }

  /** `send_command(commands)`. */
  method SendCommand(cfg: Config, commands: string, answers: seq<HttpResult>)
    returns (requests: seq<Request>, message: string)
    requires |answers| >= |CommandLines(commands)|
    ensures Sent(requests, message) == SendAll(cfg, CommandLines(commands), answers)
  {
    var lines := CommandLines(commands);
    requests := [];
    var i := 0;
    while i < |lines|
      invariant 0 <= i <= |lines|
      invariant SendFrom(cfg, requests, lines[i..], answers[i..]) == SendAll(cfg, lines, answers)
    {
      assert lines[i..][1..] == lines[i + 1..] && answers[i..][1..] == answers[i + 1..];
      requests := requests + [Route(cfg, lines[i])];
      if !Delivered(answers[i]) {
        return requests, SendError(lines[i], answers[i]);
      }
      i := i + 1;
    }
    return requests, SendOk;
  }

  /** The request for each of `lines`. */
  function Routes(cfg: Config, lines: seq<string>): (r: seq<Request>)
    ensures |r| == |lines|
  {
    seq(|lines|, i requires 0 <= i < |lines| => Route(cfg, lines[i]))
  }

  /** The index of the first answer among the first `n` that is not a success, or `n`. */
  function FirstFailure(answers: seq<HttpResult>, n: nat): (k: nat)
    requires n <= |answers|
    ensures k <= n
    ensures forall j :: 0 <= j < k ==> Delivered(answers[j])
    ensures k < n ==> !Delivered(answers[k])
  {
    if n == 0 || !Delivered(answers[0]) then 0
    else
      var k := FirstFailure(answers[1..], n - 1);
      assert forall j :: 1 <= j <= k ==> answers[j] == answers[1..][j - 1];
      1 + k
  }

  /**
   * `send_command` posts the lines up to and including the first one that
   * fails, and names that line; it reports success only when every line
   * succeeded, after posting all of them.
   */
  lemma SendAllOutcome(cfg: Config, lines: seq<string>, answers: seq<HttpResult>)
    requires |answers| >= |lines|
    ensures var k := FirstFailure(answers, |lines|);
            SendAll(cfg, lines, answers) ==
              if k == |lines| then Sent(Routes(cfg, lines), SendOk)
              else Sent(Routes(cfg, lines[..k + 1]), SendError(lines[k], answers[k]))
  {
    var k := FirstFailure(answers, |lines|);
    var e: seq<Request> := [];
    if k == |lines| {
      SendFromDelivered(cfg, e, lines, answers);
      assert e + Routes(cfg, lines) == Routes(cfg, lines);
    } else {
      SendFromFails(cfg, e, lines, answers, k);
      assert e + Routes(cfg, lines[..k + 1]) == Routes(cfg, lines[..k + 1]);
    }
  }

  /** The requests for a non-empty prefix of `lines`: the first line's, then the rest's. */
  lemma RoutesCons(cfg: Config, lines: seq<string>, m: nat)
    requires 0 < m <= |lines|
    ensures Routes(cfg, lines[..m]) == [Route(cfg, lines[0])] + Routes(cfg, lines[1..][..m - 1])
  {
    assert lines[1..][..m - 1] == lines[1..m];
  }

  /** When every line is answered with success, all are posted and success is reported. */
  lemma {:induction false} SendFromDelivered(cfg: Config, sent: seq<Request>, lines: seq<string>, answers: seq<HttpResult>)
    requires |answers| >= |lines|
    requires forall j :: 0 <= j < |lines| ==> Delivered(answers[j])
    ensures SendFrom(cfg, sent, lines, answers) == Sent(sent + Routes(cfg, lines), SendOk)
    decreases |lines|
  {
    if lines != [] {
      assert Delivered(answers[0]);
      assert forall j :: 0 <= j < |lines| - 1 ==> answers[1..][j] == answers[j + 1];
      SendFromDelivered(cfg, sent + [Route(cfg, lines[0])], lines[1..], answers[1..]);
      RoutesCons(cfg, lines, |lines|);
      assert lines[..|lines|] == lines && lines[1..][..|lines| - 1] == lines[1..];
    }
  }

  /** When line `k` is the first to fail, lines up to `k` are posted and line `k` is named. */
  lemma {:induction false} SendFromFails(cfg: Config, sent: seq<Request>, lines: seq<string>, answers: seq<HttpResult>, k: nat)
    requires |answers| >= |lines| && k < |lines|
    requires forall j :: 0 <= j < k ==> Delivered(answers[j])
    requires !Delivered(answers[k])
    ensures SendFrom(cfg, sent, lines, answers) == Sent(sent + Routes(cfg, lines[..k + 1]), SendError(lines[k], answers[k]))
    decreases |lines|
  {
    if k == 0 {
      assert Routes(cfg, lines[..1]) == [Route(cfg, lines[0])];
    } else {
      assert Delivered(answers[0]);
      assert forall j :: 0 <= j < k - 1 ==> answers[1..][j] == answers[j + 1];
      assert lines[1..][k - 1] == lines[k] && answers[1..][k - 1] == answers[k];
      SendFromFails(cfg, sent + [Route(cfg, lines[0])], lines[1..], answers[1..], k - 1);
      RoutesCons(cfg, lines, k + 1);
    }
  }

  /** The success message cannot be mistaken for an error message. */
  lemma SendErrorIsNotSuccess(command: string, h: HttpResult)
    ensures SendError(command, h) != SendOk
  {
    assert SendError(command, h)[0] == 'E' && SendOk[0] == 'C';
  }

  // ------------------------------------------------------------ file choices

  /** One entry of the file listing. */
  datatype FileInfo = FileInfo(name: string, path: string, date: real)

  /** A `fuzz.ratio` result: its value and the text `str()` renders for it. */
  datatype Score = Score(value: real, text: string)

  /** A listed file as the `best_match` loop sees it: its normalised name and its path. */
  datatype Candidate = Candidate(key: string, path: string)

  /** Every listed file with its name stripped and lower-cased, in listing order. */
  function Candidates(files: seq<FileInfo>): (r: seq<Candidate>)
    ensures |r| == |files|
  {
    seq(|files|, i requires 0 <= i < |files| => Candidate(Lower(Strip(files[i].name)), files[i].path))
  }

  /** The similarity of a candidate's normalised name to the query. */
  function Similarity(ratio: (string, string) -> Score, query: string, c: Candidate): real {
    ratio(query, c.key).value
  }

  /** `n`, with ".gcode" appended unless it already ends so. */
  function GcodeSuffix(n: string): (r: string)
    ensures EndsWith(r, ".gcode")
    ensures EndsWith(n, ".gcode") ==> r == n
  {
    if EndsWith(n, ".gcode") then n else n + ".gcode"
  }

  /** The query of `print_file_by_name`: stripped, lower-cased, ".gcode" appended unless present. */
  function GcodeQuery(fileName: string): (r: string)
    ensures EndsWith(r, ".gcode")
  {
    GcodeSuffix(Lower(Strip(fileName)))
  }

  /**
   * The `best_match` loop of `print_file_by_name` continued over `cands`
   * from the running best path and similarity.
   */
  function Best(ratio: (string, string) -> Score, query: string, cands: seq<Candidate>,
                best: Option<string>, bestSimilarity: real): Option<string>
    decreases |cands|
  {
    if cands == [] then best
    else
      var s := Similarity(ratio, query, cands[0]);
      if s > bestSimilarity then Best(ratio, query, cands[1..], Some(cands[0].path), s)
      else Best(ratio, query, cands[1..], best, bestSimilarity)
  }

  /** The index of the first candidate whose similarity is the greatest. */
  function MostSimilar(ratio: (string, string) -> Score, query: string, cands: seq<Candidate>): (m: nat)
    requires cands != []
    ensures m < |cands|
    ensures forall k :: 0 <= k < |cands| ==>
              Similarity(ratio, query, cands[k]) <= Similarity(ratio, query, cands[m])
    ensures forall k :: 0 <= k < m ==>
              Similarity(ratio, query, cands[k]) < Similarity(ratio, query, cands[m])
    decreases |cands|
  {
    if |cands| == 1 then 0
    else
      var j := 1 + MostSimilar(ratio, query, cands[1..]);
      assert forall k :: 1 <= k < |cands| ==> cands[k] == cands[1..][k - 1];
      if Similarity(ratio, query, cands[0]) >= Similarity(ratio, query, cands[j]) then 0 else j
  }

  /** The request that starts printing `path` (`print_file_by_name` and `print_file`). */
  function StartRequest(cfg: Config, path: string): Request {
    if cfg.server == OctoPrint && cfg.apiKey.Some? then
      Request(Url(cfg, "api/files/local/" + path), Headers(cfg), map["command" := JStr("select"), "print" := JBool(true)])
    else Request(Url(cfg, "printer/print/start"), Headers(cfg), map["filename" := JStr(path)])
  }

  const PrintStarted: string := "Impresión iniciada."
  const PrintStartError: string := "Error al iniciar la impresión: "

  /** The request posted (if any) and the returned message. */
  datatype Posted = Posted(request: Option<Request>, message: string)

  function NoSimilarFile(fileName: string): string {
    "No se encontró un archivo similar a '" + fileName + "'."
  }

  /** `print_file_by_name(file_name)` over the listing `files`; `answer` is what the post returns. */
  function PrintByName(cfg: Config, ratio: (string, string) -> Score, fileName: string,
                       files: seq<FileInfo>, answer: HttpResult): Posted {
    var best := Best(ratio, GcodeQuery(fileName), Candidates(files), None, 0.0);
    if best.None? || best.value == "" then Posted(None, NoSimilarFile(fileName))
    else Posted(Some(StartRequest(cfg, best.value)), if Delivered(answer) then PrintStarted else PrintStartError + Detail(answer))
  }

  /** `print_file_by_name`, with its loop over the listing. */
  method PrintFileByName(cfg: Config, ratio: (string, string) -> Score, fileName: string,
                         files: seq<FileInfo>, answer: HttpResult) returns (request: Option<Request>, message: string)
    ensures Posted(request, message) == PrintByName(cfg, ratio, fileName, files, answer)
  {
    var query := GcodeQuery(fileName);
    var bestMatch: Option<string> := None;
    var bestSimilarity: real := 0.0;
    ghost var cands := Candidates(files);
    var i := 0;
    while i < |files|
      invariant 0 <= i <= |files|
      invariant Best(ratio, query, cands[i..], bestMatch, bestSimilarity) == Best(ratio, query, cands, None, 0.0)
    {
      var similarity := ratio(query, Lower(Strip(files[i].name))).value;
      BestStep(ratio, query, cands, i, bestMatch, bestSimilarity, similarity, files[i].path);
      if similarity > bestSimilarity {
        bestSimilarity := similarity;
        bestMatch := Some(files[i].path);
      }
      i := i + 1;
    }
    assert cands[i..] == [];
    if bestMatch.None? || bestMatch.value == "" {
      return None, NoSimilarFile(fileName);
    }
    request := Some(StartRequest(cfg, bestMatch.value));
    if Delivered(answer) {
      message := PrintStarted;
    } else {
      message := PrintStartError + Detail(answer);
    }
  }

  /** One turn of the `best_match` loop, at position `i` of the candidates. */
  lemma BestStep(ratio: (string, string) -> Score, query: string, cands: seq<Candidate>, i: nat,
                 best: Option<string>, bestSimilarity: real, s: real, path: string)
    requires i < |cands| && s == Similarity(ratio, query, cands[i]) && path == cands[i].path
    ensures s > bestSimilarity ==>
              Best(ratio, query, cands[i..], best, bestSimilarity) == Best(ratio, query, cands[i + 1..], Some(path), s)
    ensures !(s > bestSimilarity) ==>
              Best(ratio, query, cands[i..], best, bestSimilarity) == Best(ratio, query, cands[i + 1..], best, bestSimilarity)
  {
    assert cands[i..][1..] == cands[i + 1..];
  }

  /** `print_file`: true unless the post raised, `raise_for_status` included (400 to 599). */
  predicate PrintFileSucceeds(answer: HttpResult) {
    answer.Response? && !(400 <= answer.status < 600)
  }

  /** The entries whose path is not blank, in listing order. */
  function ValidFiles(files: seq<FileInfo>): (r: seq<FileInfo>)
    ensures forall i :: 0 <= i < |r| ==> Strip(r[i].path) != ""
  {
    if files == [] then []
    else
      var rest := ValidFiles(files[1..]);
      if Strip(files[0].path) != "" then [files[0]] + rest else rest
  }

  /** The filter keeps every listed file whose path is not blank, and only listed files. */
  lemma {:induction false} ValidFilesKeeps(files: seq<FileInfo>)
    ensures forall f :: f in files && Strip(f.path) != "" ==> f in ValidFiles(files)
    ensures multiset(ValidFiles(files)) <= multiset(files)
  {
    if files != [] {
      ValidFilesKeeps(files[1..]);
      assert files == [files[0]] + files[1..];
    }
  }

  /** Newest first: the listing's descending sort on the date. */
  function Age(f: FileInfo): real {
    -f.date
  }

  const NoFiles: string := "No se encontraron archivos para imprimir."
  const NoValidFiles: string := "No se encontraron archivos válidos para imprimir."
  const RecentSent: string := "Se ha enviado la orden para imprimir el archivo mas reciente el nombre del archivo es:"
  const RecentFailed: string := "Error al intentar imprimir el archivo más reciente."

  /** `print_most_recent_file()` over the listing `files`; `answer` is what `print_file`'s post returns. */
  function PrintMostRecent(cfg: Config, files: seq<FileInfo>, answer: HttpResult): Posted {
    if files == [] then Posted(None, NoFiles)
    else
      var valid := ValidFiles(files);
      if valid == [] then Posted(None, NoValidFiles)
      else
        var name := SortBy(valid, Age)[0].name;
        Posted(Some(StartRequest(cfg, name)), if PrintFileSucceeds(answer) then RecentSent + name else RecentFailed)
  }

  // ------------------------------------------------------------ search_files

  /** One entry of `similar_files`. */
  datatype Ranked = Ranked(name: string, path: string, similarity: Score)

  /** `file.get('name') or file.get('path') or ""`, with its similarity to the query. */
  function Rank(ratio: (string, string) -> Score, query: string, f: FileInfo): Ranked {
    var name := if f.name != "" then f.name else f.path;
    Ranked(name, f.path, ratio(query, Lower(Strip(name))))
  }

  /** Most similar first. */
  function Distance(r: Ranked): real {
    -r.similarity.value
  }

  /** How many elements `xs[:n]` keeps of a list of length `len` (a negative `n` counts from the end). */
  function SliceLength(n: int, len: nat): (r: nat)
    ensures r <= len
    ensures n >= 0 ==> r <= n
  {
    if n >= len then len
    else if n >= 0 then n
    else if len + n > 0 then len + n
    else 0
  }

  /** `"{idx}. {name} (Similitud: {similarity}%)"`. */
  function ResultLine(idx: int, r: Ranked): string {
    IntToString(idx) + ". " + r.name + " (Similitud: " + r.similarity.text + "%)"
  }

  /** `similar_files`: every listed file with its similarity, in listing order. */
  function Ranks(ratio: (string, string) -> Score, query: string, files: seq<FileInfo>): (r: seq<Ranked>)
    ensures |r| == |files|
  {
    seq(|files|, i requires 0 <= i < |files| => Rank(ratio, query, files[i]))
  }

  /** The top of a ranking, as `search_files` reports it. */
  function Top(ranks: seq<Ranked>, topN: int): seq<Ranked> {
    var sorted := SortBy(ranks, Distance);
    sorted[..SliceLength(topN, |sorted|)]
  }

  function ResultLines(top: seq<Ranked>): (r: seq<string>)
    ensures |r| == |top|
  {
    seq(|top|, i requires 0 <= i < |top| => ResultLine(i + 1, top[i]))
  }

  const NoFilesOnPrinter: string := "No se encontraron archivos en la impresora."
  const NoSimilarFiles: string := "No se encontraron archivos similares."

  /** `search_files(file_name, top_n)` over the listing `files`. */
  function Search(ratio: (string, string) -> Score, fileName: string, files: seq<FileInfo>, topN: int): string {
    if files == [] then NoFilesOnPrinter
    else
      var lines := ResultLines(Top(Ranks(ratio, Lower(Strip(fileName)), files), topN));
      if lines == [] then NoSimilarFiles else Join(lines, "\n")
  }

  /** `search_files`: ranks every file, sorts, keeps the top and numbers it. */
  method SearchFiles(ratio: (string, string) -> Score, fileName: string, files: seq<FileInfo>, topN: int)
    returns (result: string)
    ensures result == Search(ratio, fileName, files, topN)
  {
    var query := Lower(Strip(fileName));
    if files == [] {
      return NoFilesOnPrinter;
    }
    var similarFiles := RankFiles(ratio, query, files);
    var sorted := SortBy(similarFiles, Distance);
    var lines := NumberLines(sorted[..SliceLength(topN, |sorted|)]);
    if lines == [] {
      return NoSimilarFiles;
    }
    return Join(lines, "\n");
  }

  /** The loop of `search_files` that builds `similar_files`. */
  method RankFiles(ratio: (string, string) -> Score, query: string, files: seq<FileInfo>) returns (similarFiles: seq<Ranked>)
    ensures similarFiles == Ranks(ratio, query, files)
  {
    similarFiles := [];
    for i := 0 to |files|
      invariant |similarFiles| == i
      invariant forall k :: 0 <= k < i ==> similarFiles[k] == Rank(ratio, query, files[k])
    {
      similarFiles := similarFiles + [Rank(ratio, query, files[i])];
    }
  }

  /** The `enumerate(..., start=1)` loop of `search_files` that builds `resultado`. */
  method NumberLines(top: seq<Ranked>) returns (lines: seq<string>)
    ensures lines == ResultLines(top)
  {
    lines := [];
    for i := 0 to |top|
      invariant |lines| == i
      invariant forall k :: 0 <= k < i ==> lines[k] == ResultLine(k + 1, top[k])
    {
      lines := lines + [ResultLine(i + 1, top[i])];
    }
  }

  // ------------------------------------------------------------ properties

  /**
   * The constructor accepts exactly the two server kinds, in any case; the
   * key "0" or "" means no key; the protocol is kept lower-cased.
   */
  lemma NewConfigAccepts(apiKey: string, printerIp: string, server: string, protocol: string)
    ensures NewConfig(apiKey, printerIp, server, protocol).Ok? <==>
              Lower(server) == "octoprint" || Lower(server) == "moonraker"
    ensures var r := NewConfig(apiKey, printerIp, server, protocol);
            r.Ok? ==> (r.value.apiKey.None? <==> apiKey == "0" || apiKey == "") &&
                      (r.value.server == OctoPrint <==> Lower(server) == "octoprint") &&
                      Lower(r.value.protocol) == r.value.protocol
  {
    LowerIdempotent(protocol);
  }

  /** The server name is matched case-insensitively. */
  lemma NewConfigIgnoresCase(apiKey: string, printerIp: string, s1: string, s2: string, protocol: string)
    requires Lower(s1) == Lower(s2)
    ensures NewConfig(apiKey, printerIp, s1, protocol) == NewConfig(apiKey, printerIp, s2, protocol)
  {
  }

  /**
   * Every request carries the JSON content type, and carries the API key
   * header exactly when a key other than "0" or "" was configured.
   */
  lemma HeadersCarryKey(apiKey: string, printerIp: string, server: string, protocol: string)
    requires NewConfig(apiKey, printerIp, server, protocol).Ok?
    ensures var h := Headers(NewConfig(apiKey, printerIp, server, protocol).value);
            ContentType in h && h[ContentType] == "application/json" &&
            (ApiKeyHeader in h <==> apiKey != "0" && apiKey != "") &&
            (ApiKeyHeader in h ==> h[ApiKeyHeader] == apiKey) &&
            h.Keys <= {ContentType, ApiKeyHeader}
  {
  }

  /** A URL names its protocol and ends in its endpoint; distinct endpoints give distinct URLs. */
  lemma UrlShape(cfg: Config, e1: string, e2: string)
    ensures StartsWith(Url(cfg, e1), cfg.protocol + "://") && EndsWith(Url(cfg, e1), "/" + e1)
    ensures Url(cfg, e1) == Url(cfg, e2) <==> e1 == e2
  {
    var p := cfg.protocol + "://" + cfg.printerIp + "/";
    assert Url(cfg, e1) == p + e1 && Url(cfg, e2) == p + e2;
    if Url(cfg, e1) == Url(cfg, e2) {
      assert e1 == (p + e1)[|p|..];
    }
    assert (p + e1)[..|cfg.protocol + "://"|] == cfg.protocol + "://";
    assert (p + e1)[|p + e1| - |"/" + e1|..] == "/" + e1;
  }

  /**
   * The four job commands go to the job endpoint with their fixed body,
   * whatever their case and whichever the server; any other line is sent
   * verbatim, as a command to OctoPrint when a key is set and as a script
   * otherwise.
   */
  lemma RouteTable(cfg: Config, command: string)
    ensures var r := Route(cfg, command);
            var special := SpecialPayload(Lower(command));
            r.headers == Headers(cfg) &&
            (special.Some? ==> r.url == Url(cfg, JobEndpoint) && r.body == special.value) &&
            (special.None? ==>
               (r.url == Url(cfg, CommandEndpoint) <==> cfg.server == OctoPrint && cfg.apiKey.Some?) &&
               (r.url == Url(cfg, CommandEndpoint) ==> r.body == map["command" := JStr(command)]) &&
               (r.url != Url(cfg, CommandEndpoint) ==> r.url == Url(cfg, ScriptEndpoint) && r.body == map["script" := JStr(command)]))
  {
    UrlShape(cfg, CommandEndpoint, ScriptEndpoint);
  }

  /** Only the four job commands are special, and "resume" is sent as a "pause" command with action "resume". */
  lemma SpecialPayloads(lower: string)
    ensures SpecialPayload(lower).Some? <==> lower in ["pause", "resume", "cancel", "restart"]
    ensures SpecialPayload(lower).Some? ==> "command" in SpecialPayload(lower).value
    ensures lower == "resume" ==> SpecialPayload(lower) == Some(map["command" := JStr("pause"), "action" := JStr("resume")])
  {
  }

  /** The ".gcode" suffix is already lower case. */
  lemma LowerGcode()
    ensures Lower(".gcode") == ".gcode"
  {
    var g := ".gcode";
    forall i | 0 <= i < |g|
      ensures LowerChar(g[i]) == g[i]
    {
      assert g[i] == '.' || 'a' <= g[i] <= 'z';
    }
  }

  /** Appending ".gcode" to a lower-case name leaves it lower case. */
  lemma GcodeSuffixLower(n: string)
    requires Lower(n) == n
    ensures Lower(GcodeSuffix(n)) == GcodeSuffix(n)
  {
    if !EndsWith(n, ".gcode") {
      LowerConcat(n, ".gcode");
      LowerGcode();
    }
  }

  /** Appending ".gcode" to a name without whitespace at its ends adds none. */
  lemma GcodeSuffixTrimmed(n: string)
    requires n == [] || (!IsSpace(n[0]) && !IsSpace(n[|n| - 1]))
    ensures var q := GcodeSuffix(n);
            !IsSpace(q[0]) && !IsSpace(q[|q| - 1])
  {
    if !EndsWith(n, ".gcode") {
      var q := n + ".gcode";
      assert q[|q| - 1] == 'e' && !IsSpace('e');
      if n == [] {
        assert q[0] == '.' && !IsSpace('.');
      } else {
        assert q[0] == n[0];
      }
    }
  }

  /** The query of `print_file_by_name` is already normalised: normalising it again changes nothing. */
  lemma GcodeQueryIdempotent(fileName: string)
    ensures GcodeQuery(GcodeQuery(fileName)) == GcodeQuery(fileName)
  {
    var t := Strip(fileName);
    var n := Lower(t);
    LowerIdempotent(t);
    if n != [] {
      LowerCharNotSpace(t[0]);
      LowerCharNotSpace(t[|t| - 1]);
    }
    GcodeSuffixLower(n);
    GcodeSuffixTrimmed(n);
    var q := GcodeSuffix(n);
    StripOfTrimmed(q);
    assert GcodeQuery(q) == GcodeSuffix(Lower(q));
  }

  /**
   * The `best_match` loop picks the path of the first candidate with the
   * greatest similarity, provided that similarity exceeds the running best.
   */
  lemma {:induction false} BestIsFirstMaximum(ratio: (string, string) -> Score, query: string, cands: seq<Candidate>,
                                              best: Option<string>, bestSimilarity: real)
    requires cands != []
    ensures var m := MostSimilar(ratio, query, cands);
            Best(ratio, query, cands, best, bestSimilarity) ==
              if Similarity(ratio, query, cands[m]) > bestSimilarity then Some(cands[m].path) else best
    decreases |cands|
  {
    var s := Similarity(ratio, query, cands[0]);
    if |cands| > 1 {
      var j := 1 + MostSimilar(ratio, query, cands[1..]);
      assert cands[j] == cands[1..][j - 1];
      if s > bestSimilarity {
        BestIsFirstMaximum(ratio, query, cands[1..], Some(cands[0].path), s);
      } else {
        BestIsFirstMaximum(ratio, query, cands[1..], best, bestSimilarity);
      }
    }
  }

  /**
   * `print_file_by_name` posts a start request for the first file whose
   * normalised name is the most similar to the query, exactly when that
   * similarity is positive and its path is not empty; otherwise it
   * reports that no similar file was found and posts nothing.
   */
  lemma PrintByNameChoice(cfg: Config, ratio: (string, string) -> Score, fileName: string,
                          files: seq<FileInfo>, answer: HttpResult)
    ensures var o := PrintByName(cfg, ratio, fileName, files, answer);
            var q := GcodeQuery(fileName);
            var cands := Candidates(files);
            var chosen := files != [] && Similarity(ratio, q, cands[MostSimilar(ratio, q, cands)]) > 0.0 &&
                          files[MostSimilar(ratio, q, cands)].path != "";
            (o.request.Some? <==> chosen) &&
            (chosen ==> o.request == Some(StartRequest(cfg, files[MostSimilar(ratio, q, cands)].path)) &&
                        (o.message == PrintStarted <==> Delivered(answer))) &&
            (!chosen ==> o.message == NoSimilarFile(fileName))
  {
    var q := GcodeQuery(fileName);
    var cands := Candidates(files);
    var best := Best(ratio, q, cands, None, 0.0);
    assert PrintByName(cfg, ratio, fileName, files, answer) ==
      if best.None? || best.value == "" then Posted(None, NoSimilarFile(fileName))
      else Posted(Some(StartRequest(cfg, best.value)), if Delivered(answer) then PrintStarted else PrintStartError + Detail(answer));
    if files == [] {
      assert best == None;
    } else {
      BestIsFirstMaximum(ratio, q, cands, None, 0.0);
      var m := MostSimilar(ratio, q, cands);
      assert cands[m].path == files[m].path;
      assert best == if Similarity(ratio, q, cands[m]) > 0.0 then Some(files[m].path) else None;
    }
    if !Delivered(answer) {
      assert (PrintStartError + Detail(answer))[0] == 'E' && PrintStarted[0] == 'I';
    }
  }

  /** Each candidate is its file's path with the file's name stripped and lower-cased. */
  lemma CandidateOf(files: seq<FileInfo>, i: nat)
    requires i < |files|
    ensures Candidates(files)[i].path == files[i].path
    ensures Candidates(files)[i].key == Lower(Strip(files[i].name))
  {
  }

  /** No file survives the blank-path filter exactly when every path is blank. */
  lemma ValidFilesEmpty(files: seq<FileInfo>)
    ensures ValidFiles(files) == [] <==> forall i :: 0 <= i < |files| ==> Strip(files[i].path) == ""
  {
    var r := ValidFiles(files);
    ValidFilesKeeps(files);
    if r != [] {
      assert r[0] in multiset(r);
      assert r[0] in files;
    }
    if exists i :: 0 <= i < |files| && Strip(files[i].path) != "" {
      var i :| 0 <= i < |files| && Strip(files[i].path) != "";
      assert files[i] in files;
    }
  }

  /** The first file with the least age has the greatest date, and no earlier file has it. */
  lemma NewestFirst(valid: seq<FileInfo>)
    requires valid != []
    ensures var m := FirstMinIndex(valid, Age);
            (forall k :: 0 <= k < |valid| ==> valid[k].date <= valid[m].date) &&
            (forall k :: 0 <= k < m ==> valid[k].date < valid[m].date)
  {
    var m := FirstMinIndex(valid, Age);
    forall k | 0 <= k < |valid|
      ensures valid[k].date <= valid[m].date
    {
      assert Age(valid[m]) <= Age(valid[k]);
    }
    forall k | 0 <= k < m
      ensures valid[k].date < valid[m].date
    {
      assert Age(valid[k]) > Age(valid[m]);
    }
  }

  /** An empty listing and a listing of blank paths each get their own message and no request. */
  lemma MostRecentMessages(cfg: Config, files: seq<FileInfo>, answer: HttpResult)
    ensures files == [] ==> PrintMostRecent(cfg, files, answer) == Posted(None, NoFiles)
    ensures files != [] && (forall i :: 0 <= i < |files| ==> Strip(files[i].path) == "") ==>
              PrintMostRecent(cfg, files, answer) == Posted(None, NoValidFiles)
  {
    ValidFilesEmpty(files);
  }

  /**
   * Otherwise `print_most_recent_file` asks to print, by its name, the
   * valid file the stable newest-first sort puts first: the first listed
   * file with a non-blank path among those with the least age, which
   * `NewestFirst` shows to be the first one with the greatest date. The
   * message names that file when the post succeeds.
   */
  lemma MostRecentRequest(cfg: Config, files: seq<FileInfo>, answer: HttpResult)
    requires files != [] && ValidFiles(files) != []
    ensures var valid := ValidFiles(files);
            var name := valid[FirstMinIndex(valid, Age)].name;
            var o := PrintMostRecent(cfg, files, answer);
            o.request == Some(StartRequest(cfg, name)) &&
            (PrintFileSucceeds(answer) ==> o.message == RecentSent + name) &&
            (!PrintFileSucceeds(answer) ==> o.message == RecentFailed)
  {
    SortByHead(ValidFiles(files), Age);
  }

  /**
   * `search_files` reports the first `top_n` entries of the ranking sorted
   * by non-increasing similarity (Python's slice rule, so a negative
   * `top_n` drops that many from the end).
   */
  lemma SearchTopSorted(ranks: seq<Ranked>, topN: int)
    ensures var top := Top(ranks, topN);
            |top| == SliceLength(topN, |ranks|) &&
            forall i, j :: 0 <= i < j < |top| ==> top[i].similarity.value >= top[j].similarity.value
  {
    var sorted := SortBy(ranks, Distance);
    var top := Top(ranks, topN);
    forall i, j | 0 <= i < j < |top|
      ensures top[i].similarity.value >= top[j].similarity.value
    {
      assert top[i] == sorted[i] && top[j] == sorted[j];
      assert Distance(sorted[i]) <= Distance(sorted[j]);
    }
  }

  /** The reported entries come from the ranking, and none left out is more similar than one reported. */
  lemma SearchTopSelects(ranks: seq<Ranked>, topN: int)
    ensures var top := Top(ranks, topN);
            multiset(top) <= multiset(ranks) &&
            forall i, r: Ranked :: 0 <= i < |top| && r in multiset(ranks) - multiset(top) ==>
                                     r.similarity.value <= top[i].similarity.value
  {
    var sorted := SortBy(ranks, Distance);
    var n := SliceLength(topN, |sorted|);
    var top := sorted[..n];
    var rest := sorted[n..];
    assert sorted == top + rest;
    assert multiset(ranks) == multiset(top) + multiset(rest);
    assert top == Top(ranks, topN);
    forall i, r: Ranked | 0 <= i < |top| && r in multiset(ranks) - multiset(top)
      ensures r.similarity.value <= top[i].similarity.value
    {
      assert multiset(rest)[r] > 0;
      RestBelowTop(sorted, n, i, r);
    }
  }

  /** In a ranking sorted by `Distance`, an entry past the cut is no more similar than one before it. */
  lemma RestBelowTop(sorted: seq<Ranked>, n: nat, i: nat, r: Ranked)
    requires SortedBy(sorted, Distance)
    requires i < n <= |sorted| && r in sorted[n..]
    ensures r.similarity.value <= sorted[i].similarity.value
  {
    var j :| 0 <= j < |sorted[n..]| && sorted[n..][j] == r;
    assert sorted[n + j] == r;
    assert Distance(sorted[i]) <= Distance(sorted[n + j]);
  }

  /** Each reported line starts with its 1-based rank. */
  lemma SearchLinesNumbered(top: seq<Ranked>)
    ensures var lines := ResultLines(top);
            forall i :: 0 <= i < |lines| ==> StartsWith(lines[i], IntToString(i + 1) + ". ")
  {
    var lines := ResultLines(top);
    forall i | 0 <= i < |lines|
      ensures StartsWith(lines[i], IntToString(i + 1) + ". ")
    {
      var pre := IntToString(i + 1) + ". ";
      assert lines[i] == pre + (top[i].name + " (Similitud: " + top[i].similarity.text + "%)");
      assert lines[i][..|pre|] == pre;
    }
  }
}
