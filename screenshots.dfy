/** The screenshot tools analyze_screenshot and view_screenshot: the
    file_name parameter, the path stage that discards ValidatePath's
    error, and the two answers (a Base64 data URL, or the compressed image
    with its MIME type). Image compression and mime.TypeByExtension are
    parameters. */
module Screenshots {
  import opened Wrappers
  import opened GoStrings
  import opened Paths
  import opened Fs
  import opened Values
  import opened Files
  import opened Vault
  import opened Base64
  import opened Tools

  /** Both handlers answer a nil argument map with the view_screenshot
      message. */
  const MissingArguments := "Missing arguments for view_screenshot"

  /** The file_name stage: arguments present, a string, not empty. Go's
      `%v` of a nil error is "<nil>". */
  function FileName(params: Args): (r: Result<string>)
    ensures params.None? ==> r == Err(MissingArguments)
    ensures r.Ok? <==> (ExtractStringParam(params, "file_name").Ok?
      && ExtractStringParam(params, "file_name").value != "")
    ensures r.Ok? ==> r.value == ExtractStringParam(params, "file_name").value
    ensures params.Some? && ExtractStringParam(params, "file_name") == Ok("") ==>
      r == Err("Parameter validation failed: <nil>")
  {
    if params.None? then Err(MissingArguments)
    else match ExtractStringParam(params, "file_name")
      case Err(e) => Err("Parameter validation failed: " + e)
      case Ok(name) =>
        if name == "" then Err("Parameter validation failed: <nil>") else Ok(name)
  }

  /** The cleaned name, or "" when ValidatePath refuses it: Go returns ""
      with the error, and the handlers drop the error. */
  function ScreenshotClean(name: string): (c: string)
    ensures c == "" || ConfinedName(c)
    ensures ValidatePath(name).Ok? ==> c == Clean(name)
  {
    match ValidatePath(name)
    case Ok(clean) =>
      ValidatePathConfined(name);
      clean
    case Err(_) => ""
  }

  /** The path stage of both handlers. */
  function ScreenshotPath(cwd: string, vault: string, name: string): Result<string> {
    BuildSecurePath(cwd, vault, ScreenshotDir, ScreenshotClean(name))
  }

  /** Whatever the name, the path stage succeeds and the path resolves to
      the screenshots directory or below it: a traversal or absolute name
      becomes the directory itself. */
  lemma ScreenshotPathInside(cwd: string, vault: string, name: string)
    requires Rooted(cwd)
    ensures ScreenshotPath(cwd, vault, name) == Ok(Join([vault, ScreenshotDir, ScreenshotClean(name)]))
    ensures var full, base := Abs(cwd, Join([vault, ScreenshotDir, ScreenshotClean(name)])),
        Abs(cwd, Join([vault, ScreenshotDir]));
      full == base || HasPrefix(full, base + "/")
    ensures ValidatePath(name).Err? ==>
      AbsNorm(cwd, Join([vault, ScreenshotDir, ScreenshotClean(name)])) == AbsNorm(cwd, Join([vault, ScreenshotDir]))
  {
    SubDirsAreNames();
    var c := ScreenshotClean(name);
    ConfinedJoin(cwd, vault, ScreenshotDir, c);
    if c == "" {
      assert Split("") == [""];
      assert Fold(false, [], [""]) == Fold(false, [], []);
    }
  }

  /** The answer of analyze_screenshot once the file has been read. */
  function AnalyzeOutcome(fullPath: string, read: IoResult<seq<byte>>): (r: ToolResult)
    ensures read.Got? ==> r == Text(DataUrl(read.value))
    ensures read.IoErr? && read.err.IsNotExist() ==> r == Error("Screenshot not found: '" + fullPath + "'")
    ensures read.IoErr? && !read.err.IsNotExist() ==>
      r == Error("Failed to read screenshot file '" + fullPath + "': " + read.err.Text())
  {
    match read
    case Got(content) => Text(JpegDataUrlPrefix + Encode(content))
    case IoErr(e) =>
      if e.IsNotExist() then Error("Screenshot not found: '" + fullPath + "'")
      else Error("Failed to read screenshot file '" + fullPath + "': " + e.Text())
  }

  /** AnalyzeHandler: a query over the vault. */
  function Analyze(fs: FileSystem, vault: string, params: Args): (r: ToolResult)
    reads fs
    ensures FileName(params).Err? ==> r == Error(FileName(params).error)
    ensures FileName(params).Ok? && ScreenshotPath(fs.cwd, vault, FileName(params).value).Ok? ==>
      var full := ScreenshotPath(fs.cwd, vault, FileName(params).value).value;
      r == AnalyzeOutcome(full, fs.ReadFile(full))
  {
    match FileName(params)
    case Err(e) => Error(e)
    case Ok(name) =>
      match ScreenshotPath(fs.cwd, vault, name)
      case Err(e) => Error(e)
      case Ok(full) => AnalyzeOutcome(full, fs.ReadFile(full))
  }

  /** A successful analysis carries the file's bytes, which decode back
      from the data URL. */
  lemma AnalyzeDecodes(fs: FileSystem, vault: string, params: Args)
    requires Rooted(fs.cwd) && FileName(params).Ok?
    ensures var full := Join([vault, ScreenshotDir, ScreenshotClean(FileName(params).value)]);
      Analyze(fs, vault, params).Text? <==> fs.ReadFile(full).Got?
    ensures var full := Join([vault, ScreenshotDir, ScreenshotClean(FileName(params).value)]);
      var r := Analyze(fs, vault, params);
      r.Text? ==> (HasPrefix(r.text, JpegDataUrlPrefix)
        && Decode(r.text[|JpegDataUrlPrefix|..]) == Some(fs.ReadFile(full).value))
  {
    ScreenshotPathInside(fs.cwd, vault, FileName(params).value);
  }

  /** ViewHandler. `compress` stands for utils.CompressImage(path, 200,
      200, 70) and yields the Base64 data of the smaller image; `lookup` is
      mime.TypeByExtension. */
  function View(cwd: string, vault: string, compress: string -> Result<string>, lookup: string -> string,
                params: Args): (r: ToolResult)
    ensures FileName(params).Err? ==> r == Error(FileName(params).error)
    ensures r.Image? ==> (FileName(params).Ok?
      && ScreenshotPath(cwd, vault, FileName(params).value).Ok?
      && var full := ScreenshotPath(cwd, vault, FileName(params).value).value;
      && compress(full) == Ok(r.data)
      && r.text == "Screenshot loaded successfully"
      && r.mimeType == MimeType(lookup, full))
  {
    match FileName(params)
    case Err(e) => Error(e)
    case Ok(name) =>
      match ScreenshotPath(cwd, vault, name)
      case Err(e) => Error(e)
      case Ok(full) =>
        match compress(full)
        case Err(e) => Error(e)
        case Ok(data) => Image("Screenshot loaded successfully", data, MimeType(lookup, full))
  }

  /** Only compression can make view_screenshot fail once the name is
      accepted: the path stage never does. */
  lemma ViewFailsOnlyInCompression(cwd: string, vault: string, compress: string -> Result<string>,
                                   lookup: string -> string, params: Args)
    requires Rooted(cwd) && FileName(params).Ok?
    ensures var full := Join([vault, ScreenshotDir, ScreenshotClean(FileName(params).value)]);
      View(cwd, vault, compress, lookup, params) ==
        (if compress(full).Ok? then Image("Screenshot loaded successfully", compress(full).value, MimeType(lookup, full))
         else Error(compress(full).error))
  {
    ScreenshotPathInside(cwd, vault, FileName(params).value);
  }
}
