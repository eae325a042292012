/** The test client of the command-line tools (cmd/tools): finding the
    configuration file, the JSON-RPC tools/call request it sends to a
    server subprocess, picking the response out of the server's output,
    and how the answer is reported. The subprocess is a parameter: from
    the CONFIG_PATH it is given and the text written to its standard input
    to the lines of its standard output. json.Marshal and the decoding of
    the response line are parameters too. */
module McpClient {
  import opened Wrappers
  import opened GoStrings
  import opened Paths
  import opened Fs
  import opened Values

  datatype Client = Client(configPath: string, verbose: bool)

  datatype McpError = McpError(code: int, message: string, data: Option<Value>)

  /** MCPResponse; a missing or null member is None. */
  datatype Response = Response(jsonrpc: string, id: int, result: Option<Value>, error: Option<McpError>)

  // ---------------------------------------------------------------------
  // NewClient: where the config file is looked for

  /** os.Stat(path) returns no error. */
  predicate Exists(fs: FileSystem, path: string)
    reads fs
  {
    fs.Stat(path).Got?
  }

  /** A relative config path is tried as given (the project root), then
      from cmd/tools/, then from cmd/. */
  function Candidates(configPath: string): (r: seq<string>)
    ensures |r| == 3 && r[0] == configPath
  {
    [configPath, Join(["../..", configPath]), Join(["..", configPath])]
  }

  /** The first path at or after `from` that exists. */
  function FirstExisting(fs: FileSystem, paths: seq<string>, from: nat): (r: Option<nat>)
    reads fs
    requires from <= |paths|
    ensures r.Some? ==> from <= r.value < |paths| && Exists(fs, paths[r.value])
    decreases |paths| - from
  {
    if from == |paths| then None
    else if Exists(fs, paths[from]) then Some(from)
    else FirstExisting(fs, paths, from + 1)
  }

  lemma {:induction false} FirstExistingSpec(fs: FileSystem, paths: seq<string>, from: nat)
    requires from <= |paths|
    ensures var r := FirstExisting(fs, paths, from);
      r.Some? ==> forall j :: from <= j < r.value ==> !Exists(fs, paths[j])
    ensures FirstExisting(fs, paths, from).None? ==>
      forall j :: from <= j < |paths| ==> !Exists(fs, paths[j])
    decreases |paths| - from
  {
    if from < |paths| && !Exists(fs, paths[from]) {
      FirstExistingSpec(fs, paths, from + 1);
    }
  }

  /** The file that marks the project root. */
  const GoMod := "go.mod"

  /** filepath.Join(dir, name) */
  function Below(dir: string, name: string): string {
    Join([dir, name])
  }

  /** The directories of the go.mod search, by depth: entry j is the
      clean working directory cut to its first j segments, so entry 0 is
      "/" and the last entry is the working directory itself. */
  function Ancestors(cwd: string): (a: seq<string>)
    ensures |a| == |Norm(cwd)| + 1
  {
    seq(|Norm(cwd)| + 1, j requires 0 <= j <= |Norm(cwd)| => Render(true, Norm(cwd)[..j]))
  }

  /** The same name below each of the directories. */
  function Under(dirs: seq<string>, name: string): (r: seq<string>)
    ensures |r| == |dirs|
  {
    seq(|dirs|, j requires 0 <= j < |dirs| => Below(dirs[j], name))
  }

  /** For each directory of the search, whether it settles it: go.mod is
      there and the config path exists below it. */
  function RootHits(fs: FileSystem, dirs: seq<string>, configPath: string): (h: seq<bool>)
    reads fs
    ensures |h| == |dirs|
  {
    seq(|dirs|, j requires 0 <= j < |dirs| reads fs =>
      Exists(fs, Under(dirs, GoMod)[j]) && Exists(fs, Under(dirs, configPath)[j]))
  }

  /** The search from depth k upwards, stopping before depth 0. */
  function RootSearch(hits: seq<bool>, k: nat): (r: Option<nat>)
    requires k < |hits|
    ensures r.Some? ==> 0 < r.value <= k && hits[r.value]
    decreases k
  {
    if k == 0 then None
    else if hits[k] then Some(k)
    else RootSearch(hits, k - 1)
  }

  /** The search goes upwards: the directories below the one it settles
      on do not settle it; when it settles on none, no directory does. */
  lemma {:induction false} RootSearchSpec(hits: seq<bool>, k: nat)
    requires k < |hits|
    ensures var r := RootSearch(hits, k);
      r.Some? ==> forall j :: r.value < j <= k ==> !hits[j]
    ensures RootSearch(hits, k).None? ==> forall j :: 0 < j <= k ==> !hits[j]
    decreases k
  {
    if k > 0 && !hits[k] {
      RootSearchSpec(hits, k - 1);
    }
  }

  /** The config path below the directory the go.mod search settles on. */
  function ProjectRoot(fs: FileSystem, configPath: string): Option<string>
    reads fs
  {
    var dirs := Ancestors(fs.cwd);
    match RootSearch(RootHits(fs, dirs, configPath), |dirs| - 1)
    case Some(j) => Some(Under(dirs, configPath)[j])
    case None => None
  }

  /** The path NewClient settles on. os.Getwd is the clean working
      directory. */
  function ResolvedConfig(fs: FileSystem, configPath: string): (r: string)
    reads fs
  {
    if Rooted(configPath) then configPath
    else match FirstExisting(fs, Candidates(configPath), 0)
      case Some(i) => Candidates(configPath)[i]
      case None =>
        match ProjectRoot(fs, configPath)
        case Some(p) => p
        case None => configPath
  }

  /** NewClient's verdict: only a config path that does not exist is an
      error; other stat errors let the client through. */
  function ClientFor(fs: FileSystem, configPath: string, verbose: bool): (r: Result<Client>)
    reads fs
    ensures var p := ResolvedConfig(fs, configPath);
      r.Err? <==> (fs.Stat(p).IoErr? && fs.Stat(p).err.IsNotExist())
    ensures r.Err? ==> r.error == "config file not found: " + ResolvedConfig(fs, configPath)
    ensures r.Ok? ==> r.value == Client(ResolvedConfig(fs, configPath), verbose)
  {
    var p := ResolvedConfig(fs, configPath);
    if fs.Stat(p).IoErr? && fs.Stat(p).err.IsNotExist() then Err("config file not found: " + p)
    else Ok(Client(p, verbose))
  }

  /** An absolute config path is used as it is; a relative one found by
      the search is the first candidate that exists, every earlier one
      missing. */
  lemma SearchOrder(fs: FileSystem, configPath: string)
    ensures Rooted(configPath) ==> ResolvedConfig(fs, configPath) == configPath
    ensures !Rooted(configPath) && FirstExisting(fs, Candidates(configPath), 0).Some? ==>
      var i := FirstExisting(fs, Candidates(configPath), 0).value;
      ResolvedConfig(fs, configPath) == Candidates(configPath)[i]
      && Exists(fs, Candidates(configPath)[i])
      && forall j :: 0 <= j < i ==> !Exists(fs, Candidates(configPath)[j])
  {
    FirstExistingSpec(fs, Candidates(configPath), 0);
  }

  /** An empty config flag is relative, and as a path it never exists, so
      the search moves on past it to the other candidates. */
  lemma EmptyConfigSkipped(fs: FileSystem)
    ensures !Rooted("") && !Exists(fs, "")
    ensures FirstExisting(fs, Candidates(""), 0).Some? ==> FirstExisting(fs, Candidates(""), 0).value > 0
  {
    fs.EmptyPathFails();
  }

  /** "config file not found" means that nothing was found: an absolute
      path that does not exist, or a relative one none of whose three
      candidates exists and for which no ancestor of the working directory
      holding go.mod holds it. The message names the path as given. */
  lemma NotFoundMeansNothingExists(fs: FileSystem, configPath: string, verbose: bool)
    requires ClientFor(fs, configPath, verbose).Err?
    ensures ClientFor(fs, configPath, verbose).error == "config file not found: " + configPath
    ensures !Exists(fs, configPath)
    ensures !Rooted(configPath) ==>
      (forall j :: 0 <= j < 3 ==> !Exists(fs, Candidates(configPath)[j]))
      && forall j :: 0 < j < |Ancestors(fs.cwd)| ==> !RootHits(fs, Ancestors(fs.cwd), configPath)[j]
  {
    if !Rooted(configPath) {
      FirstExistingSpec(fs, Candidates(configPath), 0);
      var dirs := Ancestors(fs.cwd);
      RootSearchSpec(RootHits(fs, dirs, configPath), |dirs| - 1);
    }
  }

  /** The loop over the three candidates: the first that exists. */
  method FindCandidate(fs: FileSystem, configPath: string) returns (r: Option<string>)
    ensures r == (match FirstExisting(fs, Candidates(configPath), 0)
      case Some(i) => Some(Candidates(configPath)[i])
      case None => None)
  {
    var possiblePaths := [configPath, Join(["../..", configPath]), Join(["..", configPath])];
    for i := 0 to |possiblePaths|
      invariant FirstExisting(fs, possiblePaths, i) == FirstExisting(fs, possiblePaths, 0)
    {
      if Exists(fs, possiblePaths[i]) {
        return Some(possiblePaths[i]);
      }
    }
    return None;
  }

  /** The last directory of the search is the clean working directory. */
  lemma AncestorLast(cwd: string)
    requires Rooted(cwd)
    ensures Clean(cwd) == Ancestors(cwd)[|Ancestors(cwd)| - 1]
  {
    var segs := Norm(cwd);
    assert segs[..|segs|] == segs;
  }

  /** Only the first directory of the search is "/", and none is ".". */
  lemma AncestorRoot(cwd: string, k: nat)
    requires Rooted(cwd) && k < |Ancestors(cwd)|
    ensures Ancestors(cwd)[k] == "/" <==> k == 0
    ensures Ancestors(cwd)[k] != "."
  {
    NormCanonical(cwd);
    RenderRootIff(Norm(cwd), k);
  }

  /** filepath.Dir of a directory of the search is the one before it. */
  lemma AncestorDir(cwd: string, k: nat)
    requires Rooted(cwd) && 0 < k < |Ancestors(cwd)|
    ensures Dir(Ancestors(cwd)[k]) == Ancestors(cwd)[k - 1]
  {
    var segs := Norm(cwd);
    var here, up := segs[..k], segs[..k - 1];
    assert Ancestors(cwd)[k] == Render(true, here) && Ancestors(cwd)[k - 1] == Render(true, up);
    hide Ancestors, Dir, Render;
    NormCanonical(cwd);
    assert Canonical(true, here) && Normal(here[k - 1]);
    DirRender(true, here);
    assert here[..k - 1] == up;
  }

  /** The search starts at the clean working directory; filepath.Dir
      steps it one directory up; it reaches "/" after the last segment and
      is never ".". */
  lemma AncestorSteps(cwd: string, k: nat)
    requires Rooted(cwd) && k < |Ancestors(cwd)|
    ensures Clean(cwd) == Ancestors(cwd)[|Ancestors(cwd)| - 1]
    ensures Ancestors(cwd)[k] == "/" <==> k == 0
    ensures Ancestors(cwd)[k] != "."
    ensures 0 < k ==> Dir(Ancestors(cwd)[k]) == Ancestors(cwd)[k - 1]
  {
    AncestorLast(cwd);
    AncestorRoot(cwd, k);
    if 0 < k {
      AncestorDir(cwd, k);
    }
  }

  /** The go.mod loop: from the working directory up to, not including,
      "/", the first directory holding go.mod under which the config path
      exists. */
  method FindProjectRoot(fs: FileSystem, configPath: string) returns (r: Option<string>)
    requires Rooted(fs.cwd)
    ensures r == ProjectRoot(fs, configPath)
  {
    // The walk needs only the facts the lemmas and SearchStep state about
    // these, not their bodies.
    hide Clean, Ancestors, Under, RootHits;
    var dir := Clean(fs.cwd);
    ghost var dirs := Ancestors(fs.cwd);
    ghost var hits := RootHits(fs, dirs, configPath);
    ghost var k: nat := |dirs| - 1;
    AncestorLast(fs.cwd);
    AncestorRoot(fs.cwd, k);
    // The loop condition dir != "/" && dir != ".", kept in a variable.
    var top := dir == "/" || dir == ".";
    while !top
      invariant k < |dirs| && dir == dirs[k]
      invariant top <==> k == 0
      invariant RootSearch(hits, k) == RootSearch(hits, |dirs| - 1)
      decreases k
    {
      var found;
      found, dir, top := SearchStep(fs, configPath, dir, k);
      if found.Some? {
        return found;
      }
      k := k - 1;
    }
    return None;
  }

  /** One turn of the go.mod loop at depth k: the config path below dir
      when go.mod is there and the config path exists below it; otherwise
      the parent directory filepath.Dir gives and whether the loop
      condition stops there. */
  method SearchStep(fs: FileSystem, configPath: string, dir: string, ghost k: nat)
    returns (found: Option<string>, up: string, top: bool)
    requires Rooted(fs.cwd) && 0 < k < |Ancestors(fs.cwd)| && dir == Ancestors(fs.cwd)[k]
    ensures found.Some? <==> RootHits(fs, Ancestors(fs.cwd), configPath)[k]
    ensures found.Some? ==> found.value == Under(Ancestors(fs.cwd), configPath)[k]
    ensures found.None? ==> up == Ancestors(fs.cwd)[k - 1] && (top <==> k - 1 == 0)
  {
    ghost var dirs := Ancestors(fs.cwd);
    assert Under(dirs, GoMod)[k] == Below(dir, GoMod);
    assert Under(dirs, configPath)[k] == Below(dir, configPath);
    if Exists(fs, Below(dir, GoMod)) {
      var testPath := Below(dir, configPath);
      if Exists(fs, testPath) {
        return Some(testPath), dir, false;
      }
    }
    AncestorDir(fs.cwd, k);
    AncestorRoot(fs.cwd, k - 1);
    up := Dir(dir);
    top := up == "/" || up == ".";
    found := None;
  }

  /** NewClient: an absolute path as it is, else the candidates, then the
      go.mod search; then the existence check. */
  method NewClient(fs: FileSystem, configFlag: string, verbose: bool) returns (r: Result<Client>)
    requires Rooted(fs.cwd)
    ensures r == ClientFor(fs, configFlag, verbose)
  {
    var configPath := configFlag;
    if !Rooted(configPath) {
      var candidate := FindCandidate(fs, configPath);
      if candidate.Some? {
        configPath := candidate.value;
      } else {
        var atRoot := FindProjectRoot(fs, configPath);
        if atRoot.Some? {
          configPath := atRoot.value;
        }
      }
    }
    var st := fs.Stat(configPath);
    if st.IoErr? && st.err.IsNotExist() {
      return Err("config file not found: " + configPath);
    }
    return Ok(Client(configPath, verbose));
  }

  // ---------------------------------------------------------------------
  // CallTool

  /** The request CallTool writes: a JSON-RPC 2.0 call of "tools/call"
      with id 1 and the tool's name and arguments as parameters. */
  function ToolCallRequest(toolName: string, arguments: map<string, Value>): Value {
    Object(map[
      "jsonrpc" := Str("2.0"),
      "id" := Num(1),
      "method" := Str("tools/call"),
      "params" := Object(map["name" := Str(toolName), "arguments" := Object(arguments)])])
  }

  /** A request object as section 4 of the JSON-RPC 2.0 Specification
      describes it: version "2.0", a method name, parameters that are
      structured if present, and an id that is a string, number or null if
      present. A call without an id is a notification. */
  predicate IsRequest(v: Value) {
    && v.Object?
    && "jsonrpc" in v.fields && v.fields["jsonrpc"] == Str("2.0")
    && "method" in v.fields && v.fields["method"].Str?
    && ("params" in v.fields ==> v.fields["params"].Object? || v.fields["params"].List?)
    && ("id" in v.fields ==> v.fields["id"].Str? || v.fields["id"].Num? || v.fields["id"].Null?)
  }

  /** How a tools/call request is read on the server side: its tool name
      and arguments. */
  function ToolCallOf(v: Value): Option<(string, map<string, Value>)> {
    if IsRequest(v) && v.fields["method"] == Str("tools/call") && "params" in v.fields
      && v.fields["params"].Object?
      && "name" in v.fields["params"].fields && v.fields["params"].fields["name"].Str?
      && "arguments" in v.fields["params"].fields && v.fields["params"].fields["arguments"].Object?
    then Some((v.fields["params"].fields["name"].s, v.fields["params"].fields["arguments"].fields))
    else None
  }

  /** The request is a JSON-RPC call (not a notification) from which the
      server reads back exactly the tool name and arguments sent. */
  lemma ToolCallRoundTrip(toolName: string, arguments: map<string, Value>)
    ensures IsRequest(ToolCallRequest(toolName, arguments))
    ensures "id" in ToolCallRequest(toolName, arguments).fields
    ensures ToolCallOf(ToolCallRequest(toolName, arguments)) == Some((toolName, arguments))
  {
  }

  /** A line the scanner loop stops at: trimmed, it starts with "{". */
  predicate JsonLine(line: string) {
    HasPrefix(TrimSpace(line), "{")
  }

  /** The index of the first line at or after `from` that `p` accepts. */
  function FirstWhere(p: string -> bool, lines: seq<string>, from: nat): (r: Option<nat>)
    requires from <= |lines|
    ensures r.Some? ==> from <= r.value < |lines| && p(lines[r.value])
    decreases |lines| - from
  {
    if from == |lines| then None
    else if p(lines[from]) then Some(from)
    else FirstWhere(p, lines, from + 1)
  }

  lemma {:induction false} FirstWhereSpec(p: string -> bool, lines: seq<string>, from: nat)
    requires from <= |lines|
    ensures var r := FirstWhere(p, lines, from);
      r.Some? ==> forall j :: from <= j < r.value ==> !p(lines[j])
    ensures FirstWhere(p, lines, from).None? ==> forall j :: from <= j < |lines| ==> !p(lines[j])
    decreases |lines| - from
  {
    if from < |lines| && !p(lines[from]) {
      FirstWhereSpec(p, lines, from + 1);
    }
  }

  function FirstJsonLine(lines: seq<string>, from: nat): (r: Option<nat>)
    requires from <= |lines|
  {
    FirstWhere(JsonLine, lines, from)
  }

  /** The line CallTool keeps: the first JSON line, trimmed; "" when there
      is none. */
  function ResponseLineOf(lines: seq<string>): (r: string)
    ensures r == "" <==> FirstJsonLine(lines, 0).None?
  {
    match FirstJsonLine(lines, 0)
    case Some(i) => TrimSpace(lines[i])
    case None => ""
  }

  /** The scanner loop: stop at the first line that looks like JSON. */
  method ScanResponse(lines: seq<string>) returns (responseLine: string)
    ensures responseLine == ResponseLineOf(lines)
  {
    responseLine := "";
    for i := 0 to |lines|
      invariant FirstJsonLine(lines, i) == FirstJsonLine(lines, 0)
    {
      var line := TrimSpace(lines[i]);
      if HasPrefix(line, "{") {
        responseLine := line;
        break;
      }
    }
  }

  /** What CallTool returns, given the server's reply to the request. */
  function CallResult(c: Client, toolName: string, arguments: map<string, Value>,
                      marshal: Value -> string, server: (string, string) -> seq<string>,
                      parse: string -> Result<Response>): (r: Result<Response>)
  {
    var lines := server(c.configPath, marshal(ToolCallRequest(toolName, arguments)) + "\n");
    var responseLine := ResponseLineOf(lines);
    if responseLine == "" then Err("no valid JSON response received")
    else match parse(responseLine)
      case Err(e) => Err("failed to parse response: " + e)
      case Ok(resp) => Ok(resp)
  }

  /** Without a JSON line in the server's output the call fails with "no
      valid JSON response received"; otherwise the answer is the decoding
      of the first JSON line, trimmed, and the lines before it are not
      JSON. */
  lemma CallResultSpec(c: Client, toolName: string, arguments: map<string, Value>,
                       marshal: Value -> string, server: (string, string) -> seq<string>,
                       parse: string -> Result<Response>)
    ensures var lines := server(c.configPath, marshal(ToolCallRequest(toolName, arguments)) + "\n");
      (forall i :: 0 <= i < |lines| ==> !JsonLine(lines[i])) <==>
        CallResult(c, toolName, arguments, marshal, server, parse) == Err("no valid JSON response received")
    ensures var lines := server(c.configPath, marshal(ToolCallRequest(toolName, arguments)) + "\n");
      CallResult(c, toolName, arguments, marshal, server, parse).Ok? ==>
        exists i :: 0 <= i < |lines| && JsonLine(lines[i])
          && (forall j :: 0 <= j < i ==> !JsonLine(lines[j]))
          && parse(TrimSpace(lines[i])) == CallResult(c, toolName, arguments, marshal, server, parse)
  {
    var lines := server(c.configPath, marshal(ToolCallRequest(toolName, arguments)) + "\n");
    FirstWhereSpec(JsonLine, lines, 0);
    var line := ResponseLineOf(lines);
    if line != "" {
      var i := FirstJsonLine(lines, 0).value;
      assert "failed to parse response: "[0] != "no valid JSON response received"[0];
      assert parse(TrimSpace(lines[i])).Ok? ==> CallResult(c, toolName, arguments, marshal, server, parse) == parse(TrimSpace(lines[i]));
    }
  }

  /** CallTool: write the request and a newline to the server, keep the
      first JSON line of its output and decode it. */
  method CallTool(c: Client, toolName: string, arguments: map<string, Value>,
                  marshal: Value -> string, server: (string, string) -> seq<string>,
                  parse: string -> Result<Response>) returns (r: Result<Response>)
    ensures r == CallResult(c, toolName, arguments, marshal, server, parse)
  {
    var request := ToolCallRequest(toolName, arguments);
    var reqBody := marshal(request);
    var output := server(c.configPath, reqBody + "\n");
    var responseLine := ScanResponse(output);
    if responseLine == "" {
      return Err("no valid JSON response received");
    }
    var mcpResp := parse(responseLine);
    if mcpResp.Err? {
      return Err("failed to parse response: " + mcpResp.error);
    }
    return mcpResp;
  }

  // ---------------------------------------------------------------------
  // PrettyPrint

  /** What PrettyPrint shows: the error's message, code and optional
      details; the text of a text result; the whole result; or nothing
      when the response holds neither. */
  datatype Report =
    | ErrorReport(message: string, code: int, details: Option<Value>)
    | SuccessText(text: string)
    | SuccessResult(result: Value)
    | Silent

  datatype Printout = Printout(report: Report, err: Option<string>)

  /** result.content[0].text, when every step of that path is there and
      the text is a string. */
  function ContentText(result: Value): (t: Option<string>) {
    if result.Object? && "content" in result.fields && result.fields["content"].List?
      && |result.fields["content"].items| > 0
      && result.fields["content"].items[0].Object?
      && "text" in result.fields["content"].items[0].fields
      && result.fields["content"].items[0].fields["text"].Str?
    then Some(result.fields["content"].items[0].fields["text"].s)
    else None
  }

  /** A text tool result as the server sends it (mcp.NewToolResultText). */
  function TextResult(text: string): Value {
    Object(map["content" := List([Object(map["type" := Str("text"), "text" := Str(text)])])])
  }

  function PrettyPrint(resp: Response): (p: Printout)
    ensures p.err.Some? <==> resp.error.Some?
    ensures resp.error.Some? ==> (p.err == Some("MCP error: " + resp.error.value.message)
      && p.report == ErrorReport(resp.error.value.message, resp.error.value.code, resp.error.value.data))
    ensures p.report.SuccessText? <==> resp.error.None? && resp.result.Some? && ContentText(resp.result.value).Some?
    ensures p.report.SuccessText? ==> p.report.text == ContentText(resp.result.value).value
    ensures p.report == Silent <==> resp.error.None? && resp.result.None?
  {
    match resp.error
    case Some(e) => Printout(ErrorReport(e.message, e.code, e.data), Some("MCP error: " + e.message))
    case None =>
      match resp.result
      case None => Printout(Silent, None)
      case Some(result) =>
        match ContentText(result)
        case Some(text) => Printout(SuccessText(text), None)
        case None => Printout(SuccessResult(result), None)
  }

  /** A text tool result without an error is reported as exactly its
      text. */
  lemma TextResultPrints(jsonrpc: string, id: int, text: string)
    ensures PrettyPrint(Response(jsonrpc, id, Some(TextResult(text)), None)) == Printout(SuccessText(text), None)
  {
    assert ContentText(TextResult(text)) == Some(text);
  }
}
