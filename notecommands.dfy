/** The create and update commands of the command-line tools
    (cmd/tools): each flag left empty is filled in from the note path, the
    metadata and the create_note or update_note arguments are built, and
    the tool is called through the test client. */
module NoteCommands {
  import opened Wrappers
  import opened GoStrings
  import opened Paths
  import opened Fs
  import opened Values
  import Notes
  import opened McpClient

  /** The flags both commands take; "" and an empty tag list mean "not
      given". */
  datatype Flags = Flags(
    title: string,
    category: string,
    primarySubject: string,
    tags: seq<string>,
    confidence: string,
    status: string,
    content: string)

  // ---------------------------------------------------------------------
  // Defaults from the note path

  /** The last '/'-separated part of the note path. */
  function FileName(notePath: string): string {
    var parts := Split(notePath);
    parts[|parts| - 1]
  }

  /** The file name without ".md", '_' read as a space, lower-cased, then
      each word capitalised. */
  function DefaultTitle(notePath: string): string {
    Title(ToLower(ReplaceChar(TrimSuffix(FileName(notePath), ".md"), '_', ' ')))
  }

  /** The first part of a path with a '/', else "general"; not checked
      against the categories. */
  function DefaultCategory(notePath: string): string {
    var parts := Split(notePath);
    if |parts| > 1 then parts[0] else "general"
  }

  function DefaultSubject(notePath: string): string {
    TrimSuffix(FileName(notePath), ".md")
  }

  const DefaultConfidence := "medium"
  const DefaultStatus := "needs_investigation"

  function DefaultContent(title: string): string {
    "# " + title + "\n\nContent for " + title
  }

  /** The flags once the defaults are in. `fillContent` is true for create
      and false for update, which never invents content. The tags default
      to the category and subject after those have been defaulted. */
  function Defaulted(notePath: string, f: Flags, fillContent: bool): Flags {
    var title := if f.title == "" then DefaultTitle(notePath) else f.title;
    var category := if f.category == "" then DefaultCategory(notePath) else f.category;
    var subject := if f.primarySubject == "" then DefaultSubject(notePath) else f.primarySubject;
    Flags(title, category, subject,
      if |f.tags| == 0 then [category, subject] else f.tags,
      if f.confidence == "" then DefaultConfidence else f.confidence,
      if f.status == "" then DefaultStatus else f.status,
      if fillContent && f.content == "" then DefaultContent(title) else f.content)
  }

  /** A flag the user supplied is never replaced, and update never
      touches the content. */
  lemma DefaultedKeeps(notePath: string, f: Flags, fillContent: bool)
    ensures var g := Defaulted(notePath, f, fillContent);
      && (f.title != "" ==> g.title == f.title)
      && (f.category != "" ==> g.category == f.category)
      && (f.primarySubject != "" ==> g.primarySubject == f.primarySubject)
      && (|f.tags| != 0 ==> g.tags == f.tags)
      && (f.confidence != "" ==> g.confidence == f.confidence)
      && (f.status != "" ==> g.status == f.status)
      && (f.content != "" || !fillContent ==> g.content == f.content)
  {
  }

  /** Each empty flag gets its default: the title, category and subject
      from the path, the tags from the category and subject as defaulted,
      and the content, for create only, from the title as defaulted. */
  lemma DefaultedFills(notePath: string, f: Flags, fillContent: bool)
    ensures var g := Defaulted(notePath, f, fillContent);
      && (f.title == "" ==> g.title == DefaultTitle(notePath))
      && (f.category == "" ==> g.category == DefaultCategory(notePath))
      && (f.primarySubject == "" ==> g.primarySubject == DefaultSubject(notePath))
      && (|f.tags| == 0 ==> g.tags == [g.category, g.primarySubject])
      && (f.confidence == "" ==> g.confidence == DefaultConfidence)
      && (f.status == "" ==> g.status == DefaultStatus)
      && (fillContent && f.content == "" ==> g.content == DefaultContent(g.title))
  {
  }

  /** The defaulting steps of RunE, one flag variable at a time. */
  method ApplyDefaults(notePath: string, f: Flags, fillContent: bool) returns (g: Flags)
    ensures g == Defaulted(notePath, f, fillContent)
  {
    var title, category, primarySubject, tags, confidence, status, content :=
      f.title, f.category, f.primarySubject, f.tags, f.confidence, f.status, f.content;
    if title == "" {
      var pathParts := Split(notePath);
      if |pathParts| > 0 {
        var filename := pathParts[|pathParts| - 1];
        title := TrimSuffix(filename, ".md");
        title := ReplaceChar(title, '_', ' ');
        title := Title(ToLower(title));
      }
    }
    assert title == Defaulted(notePath, f, fillContent).title;
    if category == "" {
      var pathParts := Split(notePath);
      if |pathParts| > 1 {
        category := pathParts[0];
      } else {
        category := "general";
      }
    }
    assert category == Defaulted(notePath, f, fillContent).category;
    if primarySubject == "" {
      var pathParts := Split(notePath);
      if |pathParts| > 0 {
        var filename := pathParts[|pathParts| - 1];
        primarySubject := TrimSuffix(filename, ".md");
      }
    }
    assert primarySubject == Defaulted(notePath, f, fillContent).primarySubject;
    if |tags| == 0 {
      tags := [category, primarySubject];
    }
    if confidence == "" {
      confidence := DefaultConfidence;
    }
    if status == "" {
      status := DefaultStatus;
    }
    if fillContent && content == "" {
      content := "# " + title + "\n\nContent for " + title;
    }
    g := Flags(title, category, primarySubject, tags, confidence, status, content);
  }

  /** Filling in the defaults twice changes nothing more: every value it
      puts in is one it would keep. */
  lemma DefaultsIdempotent(notePath: string, f: Flags, fillContent: bool)
    ensures Defaulted(notePath, Defaulted(notePath, f, fillContent), fillContent) == Defaulted(notePath, f, fillContent)
  {
    var g := Defaulted(notePath, f, fillContent);
    assert |g.tags| != 0;
    assert g.confidence != "" && g.status != "";
    assert fillContent ==> g.content != "" by {
      if fillContent && f.content == "" {
        assert DefaultContent(g.title)[0] == '#';
      }
    }
  }

  /** The default category is "general" exactly when the path has no
      '/'; otherwise it is the text before the first '/'. */
  lemma DefaultCategorySpec(notePath: string)
    ensures '/' !in notePath ==> DefaultCategory(notePath) == "general"
    ensures '/' in notePath ==>
      ('/' !in DefaultCategory(notePath) && HasPrefix(notePath, DefaultCategory(notePath) + "/"))
  {
    var parts := Split(notePath);
    JoinSplit(notePath);
    if '/' !in notePath {
      SplitNoSlash(notePath);
    } else if |parts| == 1 {
      assert false;
    } else {
      assert JoinSep(parts) == parts[0] + "/" + JoinSep(parts[1..]);
      assert notePath[..|parts[0]| + 1] == parts[0] + "/";
    }
  }

  /** The file name is the text after the last '/' (the whole path when
      there is none), and the subject is that name less ".md". */
  lemma FileNameSpec(notePath: string)
    ensures '/' !in FileName(notePath)
    ensures '/' !in notePath ==> FileName(notePath) == notePath
    ensures '/' in notePath ==> HasSuffix(notePath, "/" + FileName(notePath))
    ensures DefaultSubject(notePath) + ".md" == FileName(notePath) || DefaultSubject(notePath) == FileName(notePath)
  {
    var parts := Split(notePath);
    var n := |parts| - 1;
    JoinSplit(notePath);
    if '/' !in notePath {
      SplitNoSlash(notePath);
    } else if n == 0 {
      assert false;
    } else {
      assert parts == parts[..n] + [parts[n]];
      JoinSepAppend(parts[..n], [parts[n]]);
      var head := JoinSep(parts[..n]);
      assert notePath == head + "/" + parts[n];
      assert notePath[|head|..] == "/" + parts[n];
    }
  }

  /** The default title keeps the subject's length and has no '_' left
      in it. */
  lemma DefaultTitleShape(notePath: string)
    ensures |DefaultTitle(notePath)| == |DefaultSubject(notePath)|
    ensures '_' !in DefaultTitle(notePath)
  {
    var spaced := ReplaceChar(DefaultSubject(notePath), '_', ' ');
    var lower := ToLower(spaced);
    var t := Title(lower);
    assert DefaultTitle(notePath) == t;
    forall i | 0 <= i < |lower|
      ensures lower[i] != '_'
    {
      assert spaced[i] != '_';
    }
    TitleKeepsOrCapitalises(' ', lower);
    forall i | 0 <= i < |t|
      ensures t[i] != '_'
    {
      assert t[i] == lower[i] || t[i] == TitleChar(lower[i]);
    }
  }

  /** strings.Title changes a character only by capitalising it. */
  lemma {:induction false} TitleKeepsOrCapitalises(prev: char, s: string)
    ensures forall i :: 0 <= i < |s| ==> TitleFrom(prev, s)[i] == s[i] || TitleFrom(prev, s)[i] == TitleChar(s[i])
    decreases s
  {
    if s != [] {
      TitleKeepsOrCapitalises(s[0], s[1..]);
      assert forall i :: 1 <= i < |s| ==> TitleFrom(prev, s)[i] == TitleFrom(s[0], s[1..])[i - 1];
    }
  }

  // ---------------------------------------------------------------------
  // The tool arguments

  /** The metadata map both commands send. */
  function MetadataMap(g: Flags): (m: map<string, Value>)
    ensures m.Keys == {"title", "category", "primary_subject", "tags", "confidence", "status"}
  {
    map[
      "title" := Str(g.title),
      "category" := Str(g.category),
      "primary_subject" := Str(g.primarySubject),
      "tags" := List(StrList(g.tags)),
      "confidence" := Str(g.confidence),
      "status" := Str(g.status)]
  }

  /** The arguments of create_note and update_note: path, metadata and
      content, nothing else. */
  function NoteArguments(notePath: string, g: Flags): (m: map<string, Value>)
    ensures m.Keys == {"path", "metadata", "content"}
    ensures m["path"] == Str(notePath) && m["content"] == Str(g.content)
    ensures m["metadata"] == Object(MetadataMap(g))
  {
    map["path" := Str(notePath), "metadata" := Object(MetadataMap(g)), "content" := Str(g.content)]
  }

  /** What the server's ParseMetadata makes of the metadata sent: it
      accepts it exactly when the category, confidence and status are
      among the allowed values, and then keeps title, category, tags,
      confidence and status as sent, but takes the primary subject from
      the category and drops the one sent. */
  lemma ServerReadsMetadata(g: Flags)
    ensures Notes.Parse(MetadataMap(g)).Ok? <==>
      (g.category in Notes.Categories && g.confidence in Notes.ConfidenceLevels && g.status in Notes.Statuses)
    ensures Notes.Parse(MetadataMap(g)).Ok? ==>
      Notes.Parse(MetadataMap(g)).value ==
        Notes.Metadata(g.title, g.category, g.category, g.tags, g.confidence, g.status, "", "")
  {
    var m := MetadataMap(g);
    assert m["tags"].items == StrList(g.tags);
    if Notes.Parse(m).Ok? {
      var md := Notes.Parse(m).value;
      assert md.tags == g.tags;
    }
  }

  /** The default confidence and status are allowed values, so with those
      flags left empty the server can refuse the metadata only for its
      category. */
  lemma DefaultsAllowed(notePath: string, f: Flags, fillContent: bool)
    requires f.confidence == "" && f.status == ""
    ensures var g := Defaulted(notePath, f, fillContent);
      g.confidence in Notes.ConfidenceLevels && g.status in Notes.Statuses
  {
    assert Notes.ConfidenceLevels[1] == DefaultConfidence;
    assert Notes.Statuses[1] == DefaultStatus;
  }

  // ---------------------------------------------------------------------
  // RunE of both commands

  /** What a command run did: the request it sent to the server, if it
      got that far, what PrettyPrint reported, and the error RunE
      returned. */
  datatype Outcome = Outcome(sent: Option<Value>, report: Option<Report>, err: Option<string>)

  /** A run that reached the tool call: it sent the tools/call request;
      a failed call is wrapped as "failed to call <tool>: ..." with
      nothing printed, and a response is whatever PrettyPrint makes of it. */
  predicate Reports(r: Outcome, c: Client, toolName: string, arguments: map<string, Value>,
                    marshal: Value -> string, server: (string, string) -> seq<string>,
                    parse: string -> Result<Response>)
  {
    var called := CallResult(c, toolName, arguments, marshal, server, parse);
    r.sent == Some(ToolCallRequest(toolName, arguments))
    && (called.Err? ==> r.report.None? && r.err == Some("failed to call " + toolName + ": " + called.error))
    && (called.Ok? ==> r.report == Some(PrettyPrint(called.value).report) && r.err == PrettyPrint(called.value).err)
  }

  /** The end of both runs: call the tool, then report. */
  method CallAndReport(c: Client, toolName: string, arguments: map<string, Value>,
                       marshal: Value -> string, server: (string, string) -> seq<string>,
                       parse: string -> Result<Response>) returns (r: Outcome)
    ensures r.sent == Some(ToolCallRequest(toolName, arguments))
    ensures var called := CallResult(c, toolName, arguments, marshal, server, parse);
      called.Err? ==> r.report.None? && r.err == Some("failed to call " + toolName + ": " + called.error)
    ensures var called := CallResult(c, toolName, arguments, marshal, server, parse);
      called.Ok? ==> r.report == Some(PrettyPrint(called.value).report) && r.err == PrettyPrint(called.value).err
    ensures Reports(r, c, toolName, arguments, marshal, server, parse)
  {
    var resp := CallTool(c, toolName, arguments, marshal, server, parse);
    if resp.Err? {
      return Outcome(Some(ToolCallRequest(toolName, arguments)), None,
        Some("failed to call " + toolName + ": " + resp.error));
    }
    var printed := PrettyPrint(resp.value);
    return Outcome(Some(ToolCallRequest(toolName, arguments)), Some(printed.report), printed.err);
  }

  /** create: client, defaults (content included), create_note. */
  method RunCreate(fs: FileSystem, configFlag: string, verbose: bool, notePath: string, f: Flags,
                   marshal: Value -> string, server: (string, string) -> seq<string>,
                   parse: string -> Result<Response>) returns (r: Outcome)
    requires Rooted(fs.cwd)
    ensures ClientFor(fs, configFlag, verbose).Err? ==>
      r == Outcome(None, None, Some("failed to create client: " + ClientFor(fs, configFlag, verbose).error))
    ensures ClientFor(fs, configFlag, verbose).Ok? ==>
      r.sent == Some(ToolCallRequest("create_note", NoteArguments(notePath, Defaulted(notePath, f, true))))
    ensures ClientFor(fs, configFlag, verbose).Ok? ==>
      Reports(r, ClientFor(fs, configFlag, verbose).value, "create_note",
        NoteArguments(notePath, Defaulted(notePath, f, true)), marshal, server, parse)
  {
    // The callees' contracts are all the proof needs.
    hide ClientFor, CallResult, PrettyPrint, NoteArguments, Defaulted, Reports;
    var client := NewClient(fs, configFlag, verbose);
    if client.Err? {
      return Outcome(None, None, Some("failed to create client: " + client.error));
    }
    var g := ApplyDefaults(notePath, f, true);
    var arguments := NoteArguments(notePath, g);
    r := CallAndReport(client.value, "create_note", arguments, marshal, server, parse);
  }

  const ContentRequired := "content is required for update. Use --content flag"

  /** update: client, then the content check before any call, then the
      defaults (never for content) and update_note. */
  method RunUpdate(fs: FileSystem, configFlag: string, verbose: bool, notePath: string, f: Flags,
                   marshal: Value -> string, server: (string, string) -> seq<string>,
                   parse: string -> Result<Response>) returns (r: Outcome)
    requires Rooted(fs.cwd)
    ensures ClientFor(fs, configFlag, verbose).Err? ==>
      r == Outcome(None, None, Some("failed to create client: " + ClientFor(fs, configFlag, verbose).error))
    ensures ClientFor(fs, configFlag, verbose).Ok? && f.content == "" ==>
      r == Outcome(None, None, Some(ContentRequired))
    ensures ClientFor(fs, configFlag, verbose).Ok? && f.content != "" ==>
      r.sent == Some(ToolCallRequest("update_note", NoteArguments(notePath, Defaulted(notePath, f, false))))
    ensures ClientFor(fs, configFlag, verbose).Ok? && f.content != "" ==>
      Reports(r, ClientFor(fs, configFlag, verbose).value, "update_note",
        NoteArguments(notePath, Defaulted(notePath, f, false)), marshal, server, parse)
  {
    // The callees' contracts are all the proof needs.
    hide ClientFor, CallResult, PrettyPrint, NoteArguments, Defaulted, Reports;
    var client := NewClient(fs, configFlag, verbose);
    if client.Err? {
      return Outcome(None, None, Some("failed to create client: " + client.error));
    }
    if f.content == "" {
      return Outcome(None, None, Some(ContentRequired));
    }
    var g := ApplyDefaults(notePath, f, false);
    var arguments := NoteArguments(notePath, g);
    r := CallAndReport(client.value, "update_note", arguments, marshal, server, parse);
  }

  /** update sends the same title, category, subject, tags, confidence and
      status as create would for the same flags, and the content exactly
      as given. */
  lemma UpdateMatchesCreate(notePath: string, f: Flags)
    requires f.content != ""
    ensures var u, c := Defaulted(notePath, f, false), Defaulted(notePath, f, true);
      u == c && u.content == f.content
  {
  }
}
