/** The local files of the Google Drive storage (runtime/storage/drive):
    the OAuth credentials in the working directory, and the token and the
    drive configuration in a private directory under the home directory.
    os.Getwd and os.UserHomeDir are parameters that may carry an error. */
module Drive {
  import opened Wrappers
  import opened GoStrings
  import opened Paths
  import opened Fs
  import opened Files

  const ConfigDir := ".blueprince_mcp"
  const ConfigFile := "drive_config.json"
  const TokenFile := "drive_token.json"
  const AppCredsFile := ".credentials.json"
  /** Mode 0700 of the configuration directory. */
  const ConfigDirPerm := 448

  const HomeError := "unable to get user home directory: "

  function CredsPath(wd: Result<string>): Result<string> {
    match wd
    case Err(e) => Err("failed to get working directory: " + e)
    case Ok(w) => Ok(Join([w, AppCredsFile]))
  }

  function TokenPath(home: Result<string>): Result<string> {
    match home
    case Err(e) => Err(HomeError + e)
    case Ok(h) => Ok(Join([h, ConfigDir, TokenFile]))
  }

  function ConfigPath(home: Result<string>): Result<string> {
    match home
    case Err(e) => Err(HomeError + e)
    case Ok(h) => Ok(Join([h, ConfigDir, ConfigFile]))
  }

  /** The directory EnsureConfigDir makes. */
  function ConfigDirPath(h: string): string {
    Join([h, ConfigDir])
  }

  // ---------------------------------------------------------------------
  // Joins below an absolute directory

  /** Joining a name to an absolute directory gives the clean directory
      with the name pushed. */
  lemma JoinName(h: string, b: string)
    requires Rooted(h) && Normal(b)
    ensures Join([h, b]) == Render(true, Norm(h) + [b])
  {
    var q := h + "/" + b;
    JoinPair(h, b);
    RootedJoin2(h, b);
    SplitConcat(h, b);
    SplitNoSlash(b);
    FoldAppend(true, [], Split(h), [b]);
    assert Fold(true, Norm(h), [b]) == Fold(true, Norm(h) + [b], []);
  }

  lemma JoinNames(h: string, a: string, b: string)
    requires Rooted(h) && Normal(a) && Normal(b)
    ensures Join([h, a, b]) == Render(true, Norm(h) + [a, b])
  {
    var q := h + "/" + (a + "/" + b);
    JoinTriple(h, a, b);
    RootedJoin2(h, a + "/" + b);
    SplitConcat(h, a + "/" + b);
    SplitConcat(a, b);
    SplitNoSlash(a);
    SplitNoSlash(b);
    assert Split(q) == Split(h) + [a, b];
    FoldAppend(true, [], Split(h), [a, b]);
    assert [a, b][1..] == [b];
    assert Fold(true, Norm(h), [a, b]) == Fold(true, Norm(h) + [a], [b]);
    assert Fold(true, Norm(h) + [a], [b]) == Fold(true, Norm(h) + [a, b], []);
  }

  /** A rendered rooted stack ends with '/' and its last names. */
  lemma RenderEndsWith(st: seq<string>, more: seq<string>)
    requires more != []
    ensures Render(true, st + more) == Render(true, st) + "/" + JoinSep(more)
      || (st == [] && Render(true, st + more) == "/" + JoinSep(more))
    ensures HasSuffix(Render(true, st + more), "/" + JoinSep(more))
  {
    if st == [] {
      assert st + more == more;
    } else {
      JoinSepAppend(st, more);
    }
  }

  // ---------------------------------------------------------------------
  // What the paths are

  /** For an absolute working directory the credentials path is absolute,
      clean, and names .credentials.json directly inside it. */
  lemma CredsPathShape(wd: string)
    requires Rooted(wd)
    ensures var p := CredsPath(Ok(wd)).value;
      Rooted(p) && Clean(p) == p && Norm(p) == Norm(wd) + [AppCredsFile]
      && HasSuffix(p, "/" + AppCredsFile)
  {
    JoinName(wd, AppCredsFile);
    var st := Norm(wd) + [AppCredsFile];
    NormCanonical(wd);
    RenderParse(true, st);
    RenderEndsWith(Norm(wd), [AppCredsFile]);
  }

  /** For an absolute home the configuration directory is absolute and
      clean, directly inside home. */
  lemma ConfigDirShape(h: string)
    requires Rooted(h)
    ensures var d := ConfigDirPath(h);
      Rooted(d) && Clean(d) == d && Norm(d) == Norm(h) + [ConfigDir] && HasSuffix(d, "/" + ConfigDir)
  {
    NormCanonical(h);
    JoinName(h, ConfigDir);
    RenderParse(true, Norm(h) + [ConfigDir]);
    RenderEndsWith(Norm(h), [ConfigDir]);
  }

  /** A file f joined below the configuration directory is that directory,
      a '/' and f; it is absolute and clean. */
  lemma InConfigDir(h: string, f: string)
    requires Rooted(h) && Normal(f)
    ensures var d, p := ConfigDirPath(h), Join([h, ConfigDir, f]);
      p == d + "/" + f && Rooted(p) && Clean(p) == p
      && HasSuffix(p, "/" + ConfigDir + "/" + f)
  {
    var base := Norm(h) + [ConfigDir];
    var d := ConfigDirPath(h);
    ConfigDirShape(h);
    JoinNames(h, ConfigDir, f);
    assert Norm(h) + [ConfigDir, f] == base + [f];
    RenderEndsWith(base, [f]);
    NormCanonical(h);
    StepCanonical(true, Norm(h), ConfigDir);
    StepCanonical(true, base, f);
    RenderParse(true, base + [f]);
    var p := d + "/" + f;
    var tail := "/" + ConfigDir + "/" + f;
    assert p[|p| - |tail|..] == d[|d| - |"/" + ConfigDir|..] + "/" + f;
  }

  /** For an absolute home the token and drive configuration paths are
      absolute and clean, and each is its file directly inside the
      configuration directory. */
  lemma HomePathsShape(h: string)
    requires Rooted(h)
    ensures var d, t, c := ConfigDirPath(h), TokenPath(Ok(h)).value, ConfigPath(Ok(h)).value;
      t == d + "/" + TokenFile && c == d + "/" + ConfigFile
    ensures var t, c := TokenPath(Ok(h)).value, ConfigPath(Ok(h)).value;
      Rooted(t) && Clean(t) == t && Rooted(c) && Clean(c) == c
      && HasSuffix(t, "/" + ConfigDir + "/" + TokenFile)
      && HasSuffix(c, "/" + ConfigDir + "/" + ConfigFile)
  {
    InConfigDir(h, TokenFile);
    InConfigDir(h, ConfigFile);
  }

  /** The token and the drive configuration never share a path, and both
      begin with the configuration directory and a '/'. */
  lemma TokenAndConfigApart(h: string)
    requires Rooted(h)
    ensures TokenPath(Ok(h)).value != ConfigPath(Ok(h)).value
    ensures HasPrefix(TokenPath(Ok(h)).value, ConfigDirPath(h) + "/")
    ensures HasPrefix(ConfigPath(Ok(h)).value, ConfigDirPath(h) + "/")
  {
    HomePathsShape(h);
    var d := ConfigDirPath(h);
    assert |TokenPath(Ok(h)).value| == |d| + 17;
    assert |ConfigPath(Ok(h)).value| == |d| + 18;
    assert (d + "/" + TokenFile)[..|d + "/"|] == d + "/";
    assert (d + "/" + ConfigFile)[..|d + "/"|] == d + "/";
  }

  // ---------------------------------------------------------------------
  // EnsureConfigDir

  /** EnsureConfigDir: EnsureDirExists on the configuration directory with
      mode 0700, after asking for the home directory. */
  method EnsureConfigDir(fs: FileSystem, home: Result<string>) returns (r: Status)
    requires fs.Valid()
    modifies fs
    ensures fs.Valid()
    ensures home.Err? ==> r == Failed(HomeError + home.error) && unchanged(fs)
    ensures home.Ok? ==> var d := ConfigDirPath(home.value);
      old(fs.Stat(d)).Got? ==> r == Done && unchanged(fs)
    ensures home.Ok? ==> var d := ConfigDirPath(home.value);
      (old(fs.Stat(d)).IoErr? && !old(fs.Stat(d)).err.IsNotExist()) ==>
        r == Failed("failed to check directory '" + d + "': " + old(fs.Stat(d)).err.Text()) && unchanged(fs)
    ensures home.Ok? ==> var d := ConfigDirPath(home.value);
      (old(fs.Stat(d)).IoErr? && old(fs.Stat(d)).err.IsNotExist()) ==>
        r == Done && fs.files == old(fs.files)
        && fs.dirs == old(fs.dirs) + NewDirs(old(fs.dirs), fs.Resolve(d), ConfigDirPerm)
    ensures r.Done? ==> home.Ok? && fs.Stat(ConfigDirPath(home.value)).Got?
  {
    if home.Err? {
      return Failed(HomeError + home.error);
    }
    var configDir := Join([home.value, ConfigDir]);
    JoinPair(home.value, ConfigDir);
    CleanNotEmpty(if home.value == "" then ConfigDir else home.value + "/" + ConfigDir);
    r := EnsureDirExists(fs, configDir, ConfigDirPerm);
    assert r.Done? ==> fs.Stat(configDir).Got?;
  }
}
