/** The note tools of the MCP server: create_note, update_note,
    delete_note and read_note over the vault's file tree, with the
    spoiler filter and the validation chain the first two share. The clock
    (`now`, already formatted as RFC 3339 text) and yaml.Marshal (`yaml`)
    are parameters. */
module Tools {
  import opened Wrappers
  import opened GoStrings
  import opened Paths
  import opened Fs
  import opened Values
  import opened Files
  import opened Notes
  import opened Vault

  /** What a tool hands back (mcp.CallToolResult). `FileText` is a text
      result made of a file's bytes as they are; `Image` carries base64
      data and its MIME type. */
  datatype ToolResult =
    | Text(text: string)
    | Error(text: string)
    | FileText(bytes: seq<byte>)
    | Image(text: string, data: string, mimeType: string)

  /** 0755 and 0644. */
  const DirPerm: nat := 493
  const FilePerm: nat := 420

  // ---------------------------------------------------------------------
  // spoilerCheck

  const InvestigationHeaders: seq<string> := [
    "## analysis", "## investigation", "## questions", "## next steps",
    "## follow-up", "## theories", "## connections", "## clues",
    "## mysteries", "## research",
    "### investigation", "### questions", "### analysis", "### theories"]

  /** Index of the first of hs[from..] that occurs in s. */
  function FirstMatch(s: string, hs: seq<string>, from: nat): (r: Option<nat>)
    requires from <= |hs|
    ensures r.Some? ==> (from <= r.value < |hs| && Contains(s, hs[r.value])
      && forall j :: from <= j < r.value ==> !Contains(s, hs[j]))
    ensures r.None? ==> forall j :: from <= j < |hs| ==> !Contains(s, hs[j])
    decreases |hs| - from
  {
    if from == |hs| then None
    else if Contains(s, hs[from]) then Some(from)
    else FirstMatch(s, hs, from + 1)
  }

  function SpoilerError(header: string): string {
    "content contains investigation section header: '" + header + "'"
  }

  /** spoilerCheck's verdict: the content fails when its lower-cased form
      contains a header, and the error names the first such header. */
  function SpoilerVerdict(content: string): (r: Status)
    ensures r.Failed? <==> exists i ::
      0 <= i < |InvestigationHeaders| && Contains(ToLower(content), InvestigationHeaders[i])
    ensures r.Failed? ==> exists i ::
      && 0 <= i < |InvestigationHeaders|
      && Contains(ToLower(content), InvestigationHeaders[i])
      && r.error == SpoilerError(InvestigationHeaders[i])
      && forall j :: 0 <= j < i ==> !Contains(ToLower(content), InvestigationHeaders[j])
  {
    match FirstMatch(ToLower(content), InvestigationHeaders, 0)
    case None => Done
    case Some(i) => Failed(SpoilerError(InvestigationHeaders[i]))
  }

  /** spoilerCheck: lower-case the content, then try the headers in order. */
  method SpoilerCheck(content: string) returns (r: Status)
    ensures r == SpoilerVerdict(content)
  {
    var lower := ToLower(content);
    for i := 0 to |InvestigationHeaders|
      invariant FirstMatch(lower, InvestigationHeaders, i) == FirstMatch(lower, InvestigationHeaders, 0)
    {
      if Contains(lower, InvestigationHeaders[i]) {
        return Failed(SpoilerError(InvestigationHeaders[i]));
      }
    }
    return Done;
  }

  lemma LowerIdempotent(s: string)
    ensures ToLower(ToLower(s)) == ToLower(s)
  {
    assert forall i :: 0 <= i < |s| ==> LowerChar(LowerChar(s[i])) == LowerChar(s[i]);
  }

  /** Matching ignores case. */
  lemma SpoilerIgnoresCase(content: string)
    ensures SpoilerVerdict(ToLower(content)) == SpoilerVerdict(content)
  {
    LowerIdempotent(content);
  }

  /** An error never names a "###" header: each of them contains the
      "##" header of the same word, which comes earlier in the list. */
  lemma SpoilerNeverReportsSubheader(content: string)
    ensures SpoilerVerdict(content).Failed? ==> exists i ::
      && 0 <= i < 10
      && SpoilerVerdict(content).error == SpoilerError(InvestigationHeaders[i])
      && !HasPrefix(InvestigationHeaders[i], "###")
  {
    var lower := ToLower(content);
    var r := FirstMatch(lower, InvestigationHeaders, 0);
    if r.Some? {
      FirstMatchIsHeader(lower);
      ShortHeader(r.value);
      assert SpoilerVerdict(content).error == SpoilerError(InvestigationHeaders[r.value]);
    }
  }

  /** The first matching entry is always one of the ten "##" headers. */
  lemma FirstMatchIsHeader(s: string)
    ensures FirstMatch(s, InvestigationHeaders, 0).Some? ==> FirstMatch(s, InvestigationHeaders, 0).value < 10
  {
    var hs := InvestigationHeaders;
    var r := FirstMatch(s, hs, 0);
    if r.Some? && r.value >= 10 {
      var i := r.value;
      var j := if i == 10 then 1 else if i == 11 then 2 else if i == 12 then 0 else 5;
      SubheaderContainsHeader(i, j);
      ContainsTransitive(s, hs[i], hs[j]);
      assert false;
    }
  }

  /** Every header starts with "##". */
  lemma HeaderShapes()
    ensures forall i :: 0 <= i < |InvestigationHeaders| ==> HasPrefix(InvestigationHeaders[i], "##")
  {
  }

  /** The first ten are "##" headers. */
  lemma ShortHeader(i: nat)
    requires i < 10
    ensures !HasPrefix(InvestigationHeaders[i], "###")
  {
    assert InvestigationHeaders[i][2] == ' ';
  }

  lemma SubheaderContainsHeader(i: nat, j: nat)
    requires (i, j) in {(10, 1), (11, 2), (12, 0), (13, 5)}
    ensures j < i < |InvestigationHeaders| && Contains(InvestigationHeaders[i], InvestigationHeaders[j])
  {
    var hs := InvestigationHeaders;
    assert hs[i][1..] == hs[j];
    assert OccursAt(hs[i], hs[j], 1);
  }

  /** Lower-casing creates no '#'. */
  lemma LowerHashes(s: string)
    requires Contains(ToLower(s), "##")
    ensures Contains(s, "##")
  {
    var i: nat :| i <= |ToLower(s)| && OccursAt(ToLower(s), "##", i);
    assert LowerChar(s[i]) == '#' && LowerChar(s[i + 1]) == '#';
    assert OccursAt(s, "##", i);
  }


  /** Content without "##" always passes. */
  lemma SpoilerPassesWithoutHashes(content: string)
    requires !Contains(content, "##")
    ensures SpoilerVerdict(content) == Done
  {
    var lower := ToLower(content);
    if SpoilerVerdict(content).Failed? {
      var i :| 0 <= i < |InvestigationHeaders| && Contains(lower, InvestigationHeaders[i]);
      HeaderShapes();
      PrefixContained(lower, InvestigationHeaders[i], "##");
      LowerHashes(content);
      assert false;
    }
  }

  // ---------------------------------------------------------------------
  // The validation chain

  /** The path stage the note tools share: the "path" parameter,
      ValidatePath, then BuildSecurePath under the notes directory. */
  function PathRequest(cwd: string, vault: string, params: Args): (r: Result<(string, string)>)
    ensures r.Ok? ==> (ExtractStringParam(params, "path") == Ok(r.value.0)
      && ValidatePath(r.value.0).Ok?
      && r.value.1 == Join([vault, NotesDir, ValidatePath(r.value.0).value]))
  {
    match ExtractStringParam(params, "path")
    case Err(e) => Err("Parameter validation failed: " + e)
    case Ok(notePath) =>
      match ValidatePath(notePath)
      case Err(e) => Err(e)
      case Ok(clean) =>
        match BuildSecurePath(cwd, vault, NotesDir, clean)
        case Err(e) => Err(e)
        case Ok(full) => Ok((notePath, full))
  }

  /** A request that passed every check: the note path as sent, the full
      path it was secured to, the parsed metadata and the body. */
  datatype NoteRequest = NoteRequest(notePath: string, fullPath: string, metadata: Metadata, content: string)

  const SpoilerAdvice := ". Please provide only the user's direct observations without additional analysis or investigation prompts."

  /** The chain create_note and update_note run, in order, before touching
      the file system: arguments, content, spoilerCheck, metadata present
      and an object, ParseMetadata, then the path stage. */
  function CheckNote(tool: string, cwd: string, vault: string, params: Args): (r: Result<NoteRequest>)
    ensures r.Ok? ==> (params.Some? && ExtractStringParam(params, "content") == Ok(r.value.content)
      && SpoilerVerdict(r.value.content) == Done
      && "metadata" in params.value && params.value["metadata"].Object?
      && Parse(params.value["metadata"].fields) == Ok(r.value.metadata)
      && PathRequest(cwd, vault, params) == Ok((r.value.notePath, r.value.fullPath)))
  {
    if params.None? then Err("Missing arguments for " + tool)
    else match ExtractStringParam(params, "content")
      case Err(e) => Err("Parameter validation failed: " + e)
      case Ok(content) =>
        match SpoilerVerdict(content)
        case Failed(e) => Err("Content validation failed: " + e + SpoilerAdvice)
        case Done =>
          if "metadata" !in params.value then Err("Missing required parameter: metadata")
          else if !params.value["metadata"].Object? then Err("Parameter 'metadata' must be an object")
          else match Parse(params.value["metadata"].fields)
            case Err(e) => Err("Invalid metadata: " + e)
            case Ok(md) =>
              match PathRequest(cwd, vault, params)
              case Err(e) => Err(e)
              case Ok(p) => Ok(NoteRequest(p.0, p.1, md, content))
  }

  /** Every path the note tools accept resolves inside the notes
      directory, and its directory is the parent of that location. */
  lemma NotePathInside(cwd: string, vault: string, params: Args)
    requires Rooted(cwd)
    requires PathRequest(cwd, vault, params).Ok?
    ensures var full := PathRequest(cwd, vault, params).value.1;
      var k := AbsNorm(cwd, full);
      var base := AbsNorm(cwd, Join([vault, NotesDir]));
      |k| > |base| - 1 && k[..|base|] == base
      && k != [] && AbsNorm(cwd, Paths.Dir(full)) == k[..|k| - 1]
      && (Abs(cwd, full) == Abs(cwd, Join([vault, NotesDir]))
          || HasPrefix(Abs(cwd, full), Abs(cwd, Join([vault, NotesDir])) + "/"))
  {
    var notePath := PathRequest(cwd, vault, params).value.0;
    var clean := ValidatePath(notePath).value;
    SubDirsAreNames();
    ValidatePathConfined(notePath);
    ConfinedJoin(cwd, vault, NotesDir, clean);
    ConfinedDir(cwd, vault, NotesDir, clean);
  }

  // ---------------------------------------------------------------------
  // create_note

  /** The metadata create_note writes: both timestamps set to now. */
  function Created(md: Metadata, now: string): Metadata {
    md.(createdAt := now, updatedAt := now)
  }

  /** The facts about a secured note path the file-system steps rely on:
      it names an entry below the root, and its directory names that
      entry's parent. */
  predicate SecuredIn(fs: FileSystem, fullPath: string)
    reads fs
  {
    fullPath != "" && fs.Resolve(fullPath) != [] && fs.Resolve(Paths.Dir(fullPath)) == Parent(fs.Resolve(fullPath))
  }

  lemma NoteRequestSecured(fs: FileSystem, tool: string, vault: string, params: Args)
    requires fs.Valid() && CheckNote(tool, fs.cwd, vault, params).Ok?
    ensures SecuredIn(fs, CheckNote(tool, fs.cwd, vault, params).value.fullPath)
  {
    NotePathInside(fs.cwd, vault, params);
    var clean := ValidatePath(PathRequest(fs.cwd, vault, params).value.0).value;
    JoinTriple(vault, NotesDir, clean);
    CleanNotEmpty(if vault == "" then NotesDir + "/" + clean else vault + "/" + (NotesDir + "/" + clean));
  }

  /** When the note's own path is missing, its directory either is a
      directory, with every ancestor present, or is missing too. */
  lemma FreshParent(fs: FileSystem, fullPath: string)
    requires fs.Valid() && SecuredIn(fs, fullPath)
    requires fs.Stat(fullPath).IoErr? && fs.Stat(fullPath).err.IsNotExist()
    ensures var d := fs.Stat(Paths.Dir(fullPath));
      d == Got(Directory) || (d.IoErr? && d.err.IsNotExist())
    ensures fs.Stat(Paths.Dir(fullPath)) == Got(Directory) ==>
      NewDirs(fs.dirs, fs.Resolve(Paths.Dir(fullPath)), DirPerm) == map[]
  {
    var k := fs.Resolve(fullPath);
    var p := Parent(k);
    assert !fs.Denied(p) && !fs.UnderFile(p) by {
      forall i | 0 <= i <= |p|
        ensures k[..i] == p[..i]
      {
      }
    }
    assert p !in fs.files by {
      assert k[..|k| - 1] == p;
    }
    if p in fs.dirs {
      forall q | q in Prefixes(p)
        ensures q in fs.dirs
      {
        var i :| 0 <= i <= |p| && q == p[..i];
        DirAncestors(fs.dirs, p, i);
      }
      assert NewDirs(fs.dirs, p, DirPerm).Keys == {};
    }
  }

  /** The file-system half of createNoteHandler, once the request has
      passed every check: make the directory, then write the note. It
      succeeds exactly when nothing is at the note's path. */
  method CreateAt(fs: FileSystem, yaml: seq<(string, Value)> -> string, now: string, req: NoteRequest)
    returns (res: ToolResult)
    requires fs.Valid() && SecuredIn(fs, req.fullPath)
    modifies fs
    ensures fs.Valid()
    ensures old(fs.Stat(req.fullPath)).Got? ==>
      res == Error("File already exists: " + req.notePath) && unchanged(fs)
    ensures res.Text? <==> old(fs.Stat(req.fullPath)).IoErr? && old(fs.Stat(req.fullPath)).err.IsNotExist()
    ensures res.Text? ==> (res.text == "Successfully created note: " + req.notePath
      && fs.files == old(fs.files)[fs.Resolve(req.fullPath) :=
           Utf8(CreateContent(yaml, Created(req.metadata, now), req.content))]
      && fs.dirs == old(fs.dirs) + NewDirs(old(fs.dirs), fs.Resolve(Paths.Dir(req.fullPath)), DirPerm))
    ensures !res.Text? ==> fs.files == old(fs.files)
  {
    // Only the facts SecuredIn states about the paths are needed.
    hide AbsNorm, Paths.Dir, CreateContent, Utf8;
    var dir := Paths.Dir(req.fullPath);
    ghost var k := fs.Resolve(req.fullPath);
    ghost var before := fs.Stat(req.fullPath);
    ghost var absent := before.IoErr? && before.err.IsNotExist();
    ghost var dirs0 := fs.dirs;
    ghost var files0 := fs.files;
    ghost var under := fs.UnderFile(k);
    DirNotEmpty(req.fullPath);
    if before.Got? {
      fs.ParentIsDirectory(req.fullPath, dir);
    }
    if absent {
      FreshParent(fs, req.fullPath);
    }
    var made := EnsureDirExists(fs, dir, DirPerm);
    if made.Failed? {
      return Error("Directory was not found: " + made.error);
    }
    assert forall q :: q in Prefixes(Parent(k)) ==> |q| < |k|;
    assert before.IoErr? ==> fs.Stat(req.fullPath).IoErr?;
    assert absent ==> fs.dirs == dirs0 + NewDirs(dirs0, Parent(k), DirPerm);
    assert absent ==> fs.WriteError(req.fullPath).None? by {
      if absent {
        assert Parent(k)[..|Parent(k)|] == Parent(k);
      }
    }
    assert before.IoErr? && !absent ==> fs.WriteError(req.fullPath).Some? by {
      if before.IoErr? && !absent && !fs.Denied(k) {
        var i :| 0 <= i < |k| && k[..i] in files0;
        assert k[..i] in fs.files;
      }
    }
    res := WriteNew(fs, yaml, now, req);
  }

  /** The rest of createNoteHandler: refuse an existing entry, stamp the
      metadata and write the note. */
  method WriteNew(fs: FileSystem, yaml: seq<(string, Value)> -> string, now: string, req: NoteRequest)
    returns (res: ToolResult)
    requires fs.Valid()
    modifies fs
    ensures fs.Valid() && fs.dirs == old(fs.dirs)
    ensures old(fs.Stat(req.fullPath)).Got? ==>
      res == Error("File already exists: " + req.notePath) && unchanged(fs)
    ensures res.Text? <==> old(fs.Stat(req.fullPath)).IoErr? && old(fs.WriteError(req.fullPath)).None?
    ensures res.Text? ==> (res.text == "Successfully created note: " + req.notePath
      && fs.files == old(fs.files)[fs.Resolve(req.fullPath) :=
           Utf8(CreateContent(yaml, Created(req.metadata, now), req.content))])
    ensures !res.Text? ==> fs.files == old(fs.files)
  {
    var existing := fs.Stat(req.fullPath);
    if existing.Got? {
      return Error("File already exists: " + req.notePath);
    }
    var md := Created(req.metadata, now);
    var fileContent := CreateContent(yaml, md, req.content);
    var err := fs.WriteFile(req.fullPath, Utf8(fileContent), FilePerm);
    if err.Some? {
      return Error("Failed to write note file: " + err.value.Text());
    }
    return Text("Successfully created note: " + req.notePath);
  }

  /** createNoteHandler. */
  method CreateNote(fs: FileSystem, vault: string, yaml: seq<(string, Value)> -> string, now: string, params: Args)
    returns (res: ToolResult)
    requires fs.Valid()
    modifies fs
    ensures fs.Valid()
    ensures CheckNote("create_note", fs.cwd, vault, params).Err? ==>
      res == Error(CheckNote("create_note", fs.cwd, vault, params).error) && unchanged(fs)
    ensures var q := CheckNote("create_note", fs.cwd, vault, params);
      q.Ok? && old(fs.Stat(q.value.fullPath)).Got? ==>
        res == Error("File already exists: " + q.value.notePath) && unchanged(fs)
    ensures var q := CheckNote("create_note", fs.cwd, vault, params);
      res.Text? <==> (q.Ok? && old(fs.Stat(q.value.fullPath)).IoErr?
        && old(fs.Stat(q.value.fullPath)).err.IsNotExist())
    ensures var q := CheckNote("create_note", fs.cwd, vault, params);
      res.Text? ==> (q.Ok? && res.text == "Successfully created note: " + q.value.notePath
        && fs.files == old(fs.files)[fs.Resolve(q.value.fullPath) :=
             Utf8(CreateContent(yaml, Created(q.value.metadata, now), q.value.content))]
        && fs.dirs == old(fs.dirs) + NewDirs(old(fs.dirs), fs.Resolve(Paths.Dir(q.value.fullPath)), DirPerm))
    ensures !res.Text? ==> fs.files == old(fs.files)
  {
    var q := CheckNote("create_note", fs.cwd, vault, params);
    if q.Err? {
      return Error(q.error);
    }
    NoteRequestSecured(fs, "create_note", vault, params);
    res := CreateAt(fs, yaml, now, q.value);
  }

  // ---------------------------------------------------------------------
  // update_note

  /** The metadata update_note writes: updated_at set to now, created_at
      left as ParseMetadata made it. */
  function Updated(md: Metadata, now: string): Metadata {
    md.(updatedAt := now)
  }

  /** The file-system half of UpdateHandler: refuse a missing note, make
      sure of the directory, stamp updated_at and overwrite the file. It
      succeeds exactly when the note is there and may be written. */
  method UpdateAt(fs: FileSystem, yaml: seq<(string, Value)> -> string, now: string, req: NoteRequest)
    returns (res: ToolResult)
    requires fs.Valid() && SecuredIn(fs, req.fullPath)
    modifies fs
    ensures fs.Valid()
    ensures old(fs.Stat(req.fullPath)).IoErr? && old(fs.Stat(req.fullPath)).err.IsNotExist() ==>
      res == Error("Note not found: '" + req.notePath + "'. Use create_note to create new notes.")
      && unchanged(fs)
    ensures res.Text? <==> old(fs.Stat(req.fullPath)).Got? && old(fs.WriteError(req.fullPath)).None?
    ensures res.Text? ==> (res.text == "Successfully updated note: " + req.notePath
      && fs.files == old(fs.files)[fs.Resolve(req.fullPath) :=
           Utf8(CreateContent(yaml, Updated(req.metadata, now), req.content))]
      && fs.dirs == old(fs.dirs))
    ensures !res.Text? ==> fs.files == old(fs.files)
  {
    hide AbsNorm, Paths.Dir, CreateContent, Utf8;
    var found := fs.Stat(req.fullPath);
    if found.IoErr? && found.err.IsNotExist() {
      return Error("Note not found: '" + req.notePath + "'. Use create_note to create new notes.");
    }
    ghost var k := fs.Resolve(req.fullPath);
    ghost var files0 := fs.files;
    if found.Got? {
      DirNotEmpty(req.fullPath);
      fs.ParentIsDirectory(req.fullPath, Paths.Dir(req.fullPath));
    }
    var made := EnsureDirExists(fs, Paths.Dir(req.fullPath), DirPerm);
    if made.Failed? {
      return Error("Directory error: " + made.error);
    }
    assert found.IoErr? ==> fs.WriteError(req.fullPath).Some? by {
      if found.IoErr? && !fs.Denied(k) {
        var i :| 0 <= i < |k| && k[..i] in files0;
        assert k[..i] in fs.files;
      }
    }
    var md := Updated(req.metadata, now);
    var fileContent := CreateContent(yaml, md, req.content);
    var err := fs.WriteFile(req.fullPath, Utf8(fileContent), FilePerm);
    if err.Some? {
      return Error("Failed to write updated note file: " + err.value.Text());
    }
    return Text("Successfully updated note: " + req.notePath);
  }

  /** UpdateHandler. */
  method UpdateNote(fs: FileSystem, vault: string, yaml: seq<(string, Value)> -> string, now: string, params: Args)
    returns (res: ToolResult)
    requires fs.Valid()
    modifies fs
    ensures fs.Valid()
    ensures CheckNote("update_note", fs.cwd, vault, params).Err? ==>
      res == Error(CheckNote("update_note", fs.cwd, vault, params).error) && unchanged(fs)
    ensures var q := CheckNote("update_note", fs.cwd, vault, params);
      q.Ok? && old(fs.Stat(q.value.fullPath)).IoErr? && old(fs.Stat(q.value.fullPath)).err.IsNotExist() ==>
        res == Error("Note not found: '" + q.value.notePath + "'. Use create_note to create new notes.")
        && unchanged(fs)
    ensures var q := CheckNote("update_note", fs.cwd, vault, params);
      res.Text? <==> (q.Ok? && old(fs.Stat(q.value.fullPath)).Got? && old(fs.WriteError(q.value.fullPath)).None?)
    ensures var q := CheckNote("update_note", fs.cwd, vault, params);
      res.Text? ==> (q.Ok? && res.text == "Successfully updated note: " + q.value.notePath
        && fs.files == old(fs.files)[fs.Resolve(q.value.fullPath) :=
             Utf8(CreateContent(yaml, Updated(q.value.metadata, now), q.value.content))]
        && fs.dirs == old(fs.dirs))
    ensures !res.Text? ==> fs.files == old(fs.files)
  {
    var q := CheckNote("update_note", fs.cwd, vault, params);
    if q.Err? {
      return Error(q.error);
    }
    NoteRequestSecured(fs, "update_note", vault, params);
    res := UpdateAt(fs, yaml, now, q.value);
  }

  /** A rewritten note loses created_at: ParseMetadata left it empty and
      the field is omitted when empty, while updated_at is written. */
  lemma UpdateDropsCreatedAt(cwd: string, vault: string, params: Args, now: string)
    requires CheckNote("update_note", cwd, vault, params).Ok? && now != ""
    ensures var f := Fields(Updated(CheckNote("update_note", cwd, vault, params).value.metadata, now));
      (forall i :: 0 <= i < |f| ==> f[i].0 != "created_at")
      && exists i :: 0 <= i < |f| && f[i] == ("updated_at", Str(now))
  {
    var md := Updated(CheckNote("update_note", cwd, vault, params).value.metadata, now);
    var f := Fields(md);
    assert f[|f| - 1] == ("updated_at", Str(now));
  }

  // ---------------------------------------------------------------------
  // delete_note

  function DeleteRequest(cwd: string, vault: string, params: Args): (r: Result<(string, string)>)
    ensures params.None? ==> r == Err("Missing arguments for delete_note")
    ensures params.Some? ==> r == PathRequest(cwd, vault, params)
  {
    if params.None? then Err("Missing arguments for delete_note") else PathRequest(cwd, vault, params)
  }

  /** What a successful os.Remove left behind: the file, or the empty
      directory, at k is gone and nothing else changed. */
  ghost predicate RemovedOnly(k: Path, files0: map<Path, seq<byte>>, dirs0: map<Path, nat>,
                              files1: map<Path, seq<byte>>, dirs1: map<Path, nat>)
  {
    || (k in files0 && files1 == files0 - {k} && dirs1 == dirs0)
    || (k !in files0 && k in dirs0 && dirs1 == dirs0 - {k} && files1 == files0)
  }

  /** The file-system half of DeleteHandler. */
  method DeleteAt(fs: FileSystem, notePath: string, fullPath: string) returns (res: ToolResult)
    requires fs.Valid()
    modifies fs
    ensures fs.Valid()
    ensures old(fs.Stat(fullPath)).IoErr? && old(fs.Stat(fullPath)).err.IsNotExist() ==>
      res == Error("Note not found: '" + notePath + "'") && unchanged(fs)
    ensures res.Text? <==> old(fs.RemoveError(fullPath)).None?
    ensures res.Text? ==> (res.text == "Successfully deleted note: " + notePath
      && RemovedOnly(fs.Resolve(fullPath), old(fs.files), old(fs.dirs), fs.files, fs.dirs))
    ensures !res.Text? ==> unchanged(fs)
  {
    var found := fs.Stat(fullPath);
    if found.IoErr? && found.err.IsNotExist() {
      return Error("Note not found: '" + notePath + "'");
    }
    var err := fs.Remove(fullPath);
    if err.Some? {
      return Error("Failed to delete note file '" + notePath + "': " + err.value.Text());
    }
    return Text("Successfully deleted note: " + notePath);
  }

  /** DeleteHandler. os.Remove also removes an empty directory. */
  method DeleteNote(fs: FileSystem, vault: string, params: Args) returns (res: ToolResult)
    requires fs.Valid()
    modifies fs
    ensures fs.Valid()
    ensures match DeleteRequest(fs.cwd, vault, params)
      case Err(e) => res == Error(e) && unchanged(fs)
      case Ok((notePath, fullPath)) =>
        && (old(fs.Stat(fullPath)).IoErr? && old(fs.Stat(fullPath)).err.IsNotExist() ==>
              res == Error("Note not found: '" + notePath + "'") && unchanged(fs))
        && (res.Text? <==> old(fs.RemoveError(fullPath)).None?)
        && (res.Text? ==>
              res.text == "Successfully deleted note: " + notePath
              && RemovedOnly(fs.Resolve(fullPath), old(fs.files), old(fs.dirs), fs.files, fs.dirs))
    ensures !res.Text? ==> unchanged(fs)
  {
    var q := DeleteRequest(fs.cwd, vault, params);
    if q.Err? {
      return Error(q.error);
    }
    res := DeleteAt(fs, q.value.0, q.value.1);
  }

  // ---------------------------------------------------------------------
  // read_note

  /** CallToolRequest.RequireString of mcp-go. */
  function RequireString(params: Args, key: string): (r: Result<string>)
    ensures r.Ok? <==> params.Some? && key in params.value && params.value[key].Str?
    ensures r.Ok? ==> r.value == params.value[key].s
  {
    if params.Some? && key in params.value then
      if params.value[key].Str? then Ok(params.value[key].s)
      else Err("argument \"" + key + "\" is not a string")
    else Err("required argument \"" + key + "\" not found")
  }

  /** The inline check of read_note: the clean id is relative and does not
      start with "..". */
  predicate AcceptedId(id: string) {
    !HasPrefix(Clean(id), "..") && !Rooted(Clean(id))
  }

  /** The file read_note reads for an id. */
  function NoteFile(vault: string, id: string): string {
    Join([vault, NotesDir, Clean(id)])
  }

  /** The answer of read_note once the file has been read: its bytes, or
      the error, with a missing file told apart. */
  function ReadOutcome(id: string, read: IoResult<seq<byte>>): (r: ToolResult)
    ensures r.FileText? <==> read.Got?
    ensures read.Got? ==> r.bytes == read.value
    ensures read.IoErr? && read.err.IsNotExist() ==> r == Error("Note not found with ID: '" + id + "'")
    ensures read.IoErr? && !read.err.IsNotExist() ==>
      r == Error("Failed to read note file with ID '" + id + "': " + read.err.Text())
  {
    match read
    case Got(content) => FileText(content)
    case IoErr(e) =>
      if e.IsNotExist() then Error("Note not found with ID: '" + id + "'")
      else Error("Failed to read note file with ID '" + id + "': " + e.Text())
  }

  /** ReadNoteHandler: a query over the vault; nothing is modified. */
  function ReadNote(fs: FileSystem, vault: string, params: Args): (r: ToolResult)
    reads fs
    ensures RequireString(params, "id").Err? ==>
      r == Error("Missing required parameter 'id': " + RequireString(params, "id").error)
    ensures var id := RequireString(params, "id");
      id.Ok? && !AcceptedId(id.value) ==>
        r == Error("Invalid note ID: '" + id.value + "'. Must be a relative path within the vault.")
    ensures r.FileText? ==> var id := RequireString(params, "id").value;
      AcceptedId(id) && fs.ReadFile(NoteFile(vault, id)) == Got(r.bytes)
  {
    match RequireString(params, "id")
    case Err(e) => Error("Missing required parameter 'id': " + e)
    case Ok(id) =>
      var clean := Clean(id);
      if HasPrefix(clean, "..") || Rooted(clean) then
        Error("Invalid note ID: '" + id + "'. Must be a relative path within the vault.")
      else
        var full := Join([vault, NotesDir, clean]);
        var absBase := Abs(fs.cwd, Join([vault, NotesDir]));
        if !HasPrefix(Abs(fs.cwd, full), absBase) then
          Error("Access denied or invalid path for note ID: '" + id + "'")
        else ReadOutcome(id, fs.ReadFile(full))
  }

  /** An id the inline check accepts cleans to a confined name. */
  lemma AcceptedIdConfined(id: string)
    requires AcceptedId(id)
    ensures ConfinedName(Clean(id)) && Norm(Clean(id)) == Norm(id)
  {
    var clean := Clean(id);
    CleanNotEmpty(id);
    CleanIdempotent(id);
    CleanParse(id);
    assert ValidatePath(clean) == Ok(clean);
    ValidatePathConfined(clean);
  }

  /** The access check of read_note never fires: every id the inline check
      accepts (the empty id too, which cleans to ".") resolves inside the
      notes directory, so the answer is decided by reading the file alone. */
  lemma ReadAcceptedIds(fs: FileSystem, vault: string, params: Args)
    requires Rooted(fs.cwd)
    requires RequireString(params, "id").Ok? && AcceptedId(RequireString(params, "id").value)
    ensures var id := RequireString(params, "id").value;
      && AbsNorm(fs.cwd, NoteFile(vault, id)) == AbsNorm(fs.cwd, Join([vault, NotesDir])) + Norm(id)
      && ReadNote(fs, vault, params) == ReadOutcome(id, fs.ReadFile(NoteFile(vault, id)))
  {
    var id := RequireString(params, "id").value;
    AcceptedIdConfined(id);
    SubDirsAreNames();
    ConfinedJoin(fs.cwd, vault, NotesDir, Clean(id));
  }
}
