/** The setup command (cmd/setup): create the vault directory, its three
    sub-directories and the six note categories, then point config.yaml
    and the Claude Desktop config.json at the vault. The theorem of this
    module is that a successful setup leaves a vault the configuration
    validators accept, unless one of those paths was a regular file. */
module Setup {
  import opened Wrappers
  import opened GoStrings
  import opened Paths
  import opened Fs
  import opened Values
  import opened Files
  import opened Vault
  import Notes
  import opened Configuration

  const DefaultVaultBaseDir := "~"
  const DefaultVaultName := "Documents/blueprince_mcp"

  /** baseRequiredSubdirs: the order setup creates them in. */
  const SetupSubdirs: seq<string> := [MetaDir, NotesDir, ScreenshotDir]

  /** 0755 */
  const VaultPerm := 493

  /** The vault path of the command: its one optional argument, or the
      default below the home directory. */
  function TargetVaultPath(args: seq<string>): (r: string)
    ensures |args| == 0 ==> r == "~/Documents/blueprince_mcp"
    ensures |args| > 0 ==> r == args[0]
  {
    if |args| > 0 then args[0]
    else
      DefaultJoin();
      Join([DefaultVaultBaseDir, DefaultVaultName])
  }

  /** filepath.Join of a name and a two-name relative path is their plain
      concatenation: nothing to clean. */
  lemma JoinNames(a: string, b: string, c: string)
    requires Normal(a) && Normal(b) && Normal(c)
    ensures Join([a, b + "/" + c]) == a + "/" + b + "/" + c
  {
    var t := a + "/" + (b + "/" + c);
    assert a + "/" + b + "/" + c == t;
    assert FromFirstNonEmpty([a, b + "/" + c]) == [a, b + "/" + c];
    assert JoinSep([a, b + "/" + c]) == t by {
      assert [a, b + "/" + c][1..] == [b + "/" + c];
    }
    assert !Rooted(t) by {
      assert t[0] == a[0];
    }
    SplitNoSlash(a);
    SplitNoSlash(b);
    SplitNoSlash(c);
    SplitConcat(b, c);
    SplitConcat(a, b + "/" + c);
    assert Split(t) == [a, b, c];
    FoldNormals(false, [], [a, b, c]);
    assert Norm(t) == [a, b, c];
    assert Clean(t) == JoinSep([a, b, c]);
    assert Join([a, b + "/" + c]) == Clean(t);
    assert JoinSep([a, b, c]) == t by {
      assert [b, c][1..] == [c];
      assert JoinSep([b, c]) == b + "/" + c;
      assert [a, b, c][1..] == [b, c];
    }
  }

  lemma DefaultJoin()
    ensures Join([DefaultVaultBaseDir, DefaultVaultName]) == "~/Documents/blueprince_mcp"
  {
    DefaultNamesNormal();
    DefaultNameParts();
    DefaultPathText();
    JoinNames(DefaultVaultBaseDir, "Documents", "blueprince_mcp");
  }

  lemma DefaultNamesNormal()
    ensures Normal(DefaultVaultBaseDir) && Normal("Documents") && Normal("blueprince_mcp")
  {
  }

  lemma DefaultNameParts()
    ensures DefaultVaultName == "Documents" + "/" + "blueprince_mcp"
  {
  }

  lemma DefaultPathText()
    ensures DefaultVaultBaseDir + "/" + "Documents" + "/" + "blueprince_mcp" == "~/Documents/blueprince_mcp"
  {
  }

  /** The paths of the two loops of setupVault. */
  function CreatedSubdirs(abs: string): seq<string> {
    SubPaths(abs, SetupSubdirs)
  }

  function CreatedCategories(abs: string): seq<string> {
    SubPaths(Join([abs, NotesDir]), Notes.Categories)
  }

  /** Stat of every path of ps reports something other than a regular file. */
  ghost predicate NoFileAmong(fs: FileSystem, ps: seq<string>)
    reads fs
  {
    forall i :: 0 <= i < |ps| ==> fs.Stat(ps[i]) != Got(RegularFile)
  }

  /** None of the directories setup ensures exists as a regular file. */
  ghost predicate NoFileInTheWay(fs: FileSystem, abs: string)
    reads fs
  {
    NoFileAmong(fs, [abs]) && NoFileAmong(fs, CreatedSubdirs(abs)) && NoFileAmong(fs, CreatedCategories(abs))
  }

  /** An entry that can be reached sits at p, given the file and directory
      tables. */
  predicate PresentIn(fs: FileSystem, files: map<Path, seq<byte>>, dirs: map<Path, nat>, p: string) {
    p != "" && !fs.Denied(fs.Resolve(p)) && (fs.Resolve(p) in files || fs.Resolve(p) in dirs)
  }

  predicate AllPresent(fs: FileSystem, files: map<Path, seq<byte>>, dirs: map<Path, nat>, ps: seq<string>) {
    forall i :: 0 <= i < |ps| ==> PresentIn(fs, files, dirs, ps[i])
  }

  /** Every path of ps names a directory of `dirs` that can be reached. */
  predicate DirsIn(fs: FileSystem, dirs: map<Path, nat>, ps: seq<string>) {
    forall i :: 0 <= i < |ps| ==> ps[i] != "" && !fs.Denied(fs.Resolve(ps[i])) && fs.Resolve(ps[i]) in dirs
  }

  /** What the directory stage of setupVault leaves behind. */
  predicate Prepared(fs: FileSystem, dirs: map<Path, nat>, abs: string) {
    DirsIn(fs, dirs, [abs]) && DirsIn(fs, dirs, CreatedSubdirs(abs)) && DirsIn(fs, dirs, CreatedCategories(abs))
  }

  /** Stat finds something exactly where the tables hold an entry. */
  lemma PresentIsStat(fs: FileSystem, p: string)
    ensures PresentIn(fs, fs.files, fs.dirs, p) <==> fs.Stat(p).Got?
  {
  }

  lemma AllPresentGrows(fs: FileSystem, files: map<Path, seq<byte>>, d0: map<Path, nat>, d1: map<Path, nat>,
                        ps: seq<string>)
    requires d0.Keys <= d1.Keys && AllPresent(fs, files, d0, ps)
    ensures AllPresent(fs, files, d1, ps)
  {
  }

  /** No regular file among the keys of ps, given the file table. */
  predicate NoFileKeys(fs: FileSystem, files: map<Path, seq<byte>>, ps: seq<string>) {
    forall i :: 0 <= i < |ps| ==> ps[i] == "" || fs.Denied(fs.Resolve(ps[i])) || fs.Resolve(ps[i]) !in files
  }

  lemma NoFileKeysOf(fs: FileSystem, ps: seq<string>)
    requires NoFileAmong(fs, ps)
    ensures NoFileKeys(fs, fs.files, ps)
  {
    forall i | 0 <= i < |ps|
      ensures ps[i] == "" || fs.Denied(fs.Resolve(ps[i])) || fs.Resolve(ps[i]) !in fs.files
    {
      assert fs.Stat(ps[i]) != Got(RegularFile);
    }
  }

  /** A path that is present and was no regular file is a directory. */
  lemma PresentNoFileIsDir(fs: FileSystem, files: map<Path, seq<byte>>, dirs: map<Path, nat>, ps: seq<string>)
    requires AllPresent(fs, files, dirs, ps) && NoFileKeys(fs, files, ps)
    ensures DirsIn(fs, dirs, ps)
  {
  }

  lemma DirsInStat(fs: FileSystem, ps: seq<string>)
    requires fs.Valid() && DirsIn(fs, fs.dirs, ps)
    ensures forall i :: 0 <= i < |ps| ==> fs.Stat(ps[i]) == Got(Directory)
  {
    forall i | 0 <= i < |ps|
      ensures fs.Stat(ps[i]) == Got(Directory)
    {
    }
  }

  /** A vault where every directory setup ensures is a directory passes
      all three checks of LoadConfig on the disk. */
  lemma ValidatorsAccept(fs: FileSystem, abs: string)
    requires fs.Valid() && Prepared(fs, fs.dirs, abs)
    ensures ValidateDir(fs, abs) == Done
    ensures DirsVerdict(fs, abs, BaseSubdirs, "subdirectory") == Done
    ensures DirsVerdict(fs, Join([abs, NotesDir]), Notes.Categories, "note category subdirectory") == Done
  {
    DirsInStat(fs, [abs]);
    assert [abs][0] == abs;
    BaseSubdirsAccepted(fs, abs);
    DirsInStat(fs, CreatedCategories(abs));
    DirsVerdictSpec(fs, Join([abs, NotesDir]), Notes.Categories, "note category subdirectory");
  }

  lemma DirectoriesSwapped(fs: FileSystem, xs: seq<string>, ys: seq<string>)
    requires |xs| == 3 == |ys| && ys[0] == xs[1] && ys[1] == xs[0] && ys[2] == xs[2]
    requires forall i :: 0 <= i < |xs| ==> fs.Stat(xs[i]) == Got(Directory)
    ensures forall i :: 0 <= i < |ys| ==> fs.Stat(ys[i]) == Got(Directory)
  {
    forall i | 0 <= i < |ys|
      ensures fs.Stat(ys[i]) == Got(Directory)
    {
      if i == 0 {
      } else if i == 1 {
      } else {
        assert ys[i] == xs[2];
      }
    }
  }

  /** LoadConfig checks the sub-directories in another order than setup
      creates them. */
  lemma BaseSubdirsAccepted(fs: FileSystem, abs: string)
    requires fs.Valid() && DirsIn(fs, fs.dirs, CreatedSubdirs(abs))
    ensures DirsVerdict(fs, abs, BaseSubdirs, "subdirectory") == Done
  {
    var subs := CreatedSubdirs(abs);
    DirsInStat(fs, subs);
    var base := SubPaths(abs, BaseSubdirs);
    assert base[0] == subs[1] && base[1] == subs[0] && base[2] == subs[2];
    DirectoriesSwapped(fs, subs, base);
    DirsVerdictSpec(fs, abs, BaseSubdirs, "subdirectory");
  }

  /** The body of setupVault's two loops for one directory: EnsureDirExists,
      its error wrapped with what the directory is. */
  method EnsureOne(fs: FileSystem, subpath: string, what: string) returns (r: Status)
    requires fs.Valid()
    modifies fs
    ensures fs.Valid() && fs.files == old(fs.files) && old(fs.dirs).Keys <= fs.dirs.Keys
    ensures r.Done? ==> PresentIn(fs, fs.files, fs.dirs, subpath)
    ensures r.Failed? ==> HasPrefix(r.error, "failed to ensure " + what + " '" + subpath + "': ")
    ensures r.Failed? ==> HasPrefix(r.error, "failed to ensure ")
  {
    var e := EnsureDirExists(fs, subpath, VaultPerm);
    if e.Failed? {
      var head := "failed to ensure " + what + " '" + subpath + "': ";
      r := Failed(head + e.error);
      assert r.error[..|head|] == head;
      assert head[..|"failed to ensure "|] == "failed to ensure ";
      return;
    }
    PresentIsStat(fs, subpath);
    return Done;
  }

  /** One of setupVault's two loops, over the joined paths
      filepath.Join(base, name) of its names: each directory in turn,
      stopping at the first failure. */
  method EnsureEach(fs: FileSystem, paths: seq<string>, what: string) returns (r: Status)
    requires fs.Valid()
    modifies fs
    ensures fs.Valid() && fs.files == old(fs.files) && old(fs.dirs).Keys <= fs.dirs.Keys
    ensures r.Done? ==> AllPresent(fs, fs.files, fs.dirs, paths)
    ensures r.Failed? ==> exists i ::
        && 0 <= i < |paths|
        && HasPrefix(r.error, "failed to ensure " + what + " '" + paths[i] + "': ")
        && AllPresent(fs, fs.files, fs.dirs, paths[..i])
    ensures r.Failed? ==> HasPrefix(r.error, "failed to ensure ")
  {
    for i := 0 to |paths|
      invariant fs.Valid() && fs.files == old(fs.files) && old(fs.dirs).Keys <= fs.dirs.Keys
      invariant AllPresent(fs, fs.files, fs.dirs, paths[..i])
    {
      ghost var dirs0 := fs.dirs;
      r := EnsureOne(fs, paths[i], what);
      AllPresentGrows(fs, fs.files, dirs0, fs.dirs, paths[..i]);
      if r.Failed? {
        return;
      }
      assert paths[..i + 1] == paths[..i] + [paths[i]];
    }
    assert paths[..|paths|] == paths;
    return Done;
  }

  /** The directory half of setupVault: the vault, the paths of its
      sub-directories, then those of the note categories under notes/. */
  method EnsureVaultDirs(fs: FileSystem, abs: string, subpaths: seq<string>, categories: seq<string>)
    returns (r: Status)
    requires fs.Valid()
    modifies fs
    ensures fs.Valid() && fs.files == old(fs.files) && old(fs.dirs).Keys <= fs.dirs.Keys
    ensures r.Failed? ==> HasPrefix(r.error, "failed to ensure ")
    ensures r.Done? ==> (AllPresent(fs, fs.files, fs.dirs, [abs])
      && AllPresent(fs, fs.files, fs.dirs, subpaths)
      && AllPresent(fs, fs.files, fs.dirs, categories))
  {
    r := EnsureOne(fs, abs, "vault directory");
    if r.Failed? {
      return;
    }
    assert AllPresent(fs, fs.files, fs.dirs, [abs]);
    ghost var dirs1 := fs.dirs;
    r := EnsureEach(fs, subpaths, "subdirectory");
    if r.Failed? {
      return;
    }
    AllPresentGrows(fs, fs.files, dirs1, fs.dirs, [abs]);
    ghost var dirs2 := fs.dirs;
    r := EnsureEach(fs, categories, "./note/{category} subdirectory");
    if r.Failed? {
      return;
    }
    AllPresentGrows(fs, fs.files, dirs2, fs.dirs, [abs]);
    AllPresentGrows(fs, fs.files, dirs2, fs.dirs, subpaths);
  }

  /** updateYamlConfigVaultPath: the steps and messages of UpdateYamlField
      for the key obsidian_vault_path; it differs only in what it logs. */
  method UpdateYamlConfigVaultPath(fs: FileSystem, configPath: string, vaultPath: string,
                                   decode: seq<byte> -> Result<map<string, Value>>,
                                   encode: map<string, Value> -> Result<seq<byte>>)
    returns (err: Option<string>)
    requires fs.Valid()
    modifies fs
    ensures fs.Valid() && fs.dirs == old(fs.dirs)
    ensures Untouched(old(fs.files), fs.files, {fs.Resolve(configPath), fs.Resolve(configPath + ".bak")})
    ensures old(fs.ReadFile(configPath)).IoErr? ==>
      err == Some("failed to read config file: " + old(fs.ReadFile(configPath)).err.Text()) && unchanged(fs)
    ensures old(fs.ReadFile(configPath)).Got? ==>
      var rewrite := YamlRewrite(old(fs.ReadFile(configPath)).value, ObsidianVaultPathField, vaultPath,
        decode, encode);
      && (rewrite.Err? ==> err == Some(rewrite.error) && unchanged(fs))
      && (rewrite.Ok? ==> Rewritten(fs, old(fs.files), old(fs.WriteError(configPath + ".bak")).None?,
            err.None?, configPath, old(fs.ReadFile(configPath)).value, rewrite.value))
      && (rewrite.Ok? && old(fs.WriteError(configPath)).None? ==> err.None?)
    ensures err.None? ==> (old(fs.ReadFile(configPath)).Got?
      && var rewrite := YamlRewrite(old(fs.ReadFile(configPath)).value, ObsidianVaultPathField, vaultPath,
           decode, encode);
      && rewrite.Ok? && fs.ReadFile(configPath) == Got(rewrite.value))
  {
    err := UpdateYamlField(fs, configPath, ObsidianVaultPathField, vaultPath, decode, encode);
  }

  /** updateClaudeDesktopConfig: the steps and messages of
      UpdateClaudeDesktopEnvVar for the variable OBSIDIAN_VAULT_PATH. */
  method UpdateClaudeDesktopConfig(fs: FileSystem, configPath: string, vaultPath: string,
                                   decode: seq<byte> -> Result<map<string, Value>>,
                                   encode: map<string, Value> -> Result<seq<byte>>)
    returns (err: Option<string>)
    requires fs.Valid()
    modifies fs
    ensures fs.Valid() && fs.dirs == old(fs.dirs)
    ensures Untouched(old(fs.files), fs.files, {fs.Resolve(configPath), fs.Resolve(configPath + ".bak")})
    ensures old(fs.ReadFile(configPath)).IoErr? ==>
      err == Some("failed to read claude desktop config file '" + configPath + "': "
        + old(fs.ReadFile(configPath)).err.Text()) && unchanged(fs)
    ensures old(fs.ReadFile(configPath)).Got? ==>
      var rewrite := JsonRewrite(configPath, old(fs.ReadFile(configPath)).value, ObsidianVaultPathEnv,
        vaultPath, decode, encode);
      && (rewrite.Err? ==> err == Some(rewrite.error) && unchanged(fs))
      && (rewrite.Ok? ==> Rewritten(fs, old(fs.files), old(fs.WriteError(configPath + ".bak")).None?,
            err.None?, configPath, old(fs.ReadFile(configPath)).value, rewrite.value))
      && (rewrite.Ok? && old(fs.WriteError(configPath)).None? ==> err.None?)
    ensures err.None? ==> (old(fs.ReadFile(configPath)).Got?
      && var rewrite := JsonRewrite(configPath, old(fs.ReadFile(configPath)).value, ObsidianVaultPathEnv,
           vaultPath, decode, encode);
      && rewrite.Ok? && fs.ReadFile(configPath) == Got(rewrite.value))
  {
    err := UpdateClaudeDesktopEnvVar(fs, configPath, ObsidianVaultPathEnv, vaultPath, decode, encode);
  }

  /** files1 agrees with files0 outside the keys ks. */
  ghost predicate Untouched(files0: map<Path, seq<byte>>, files1: map<Path, seq<byte>>, ks: set<Path>) {
    forall k :: k !in ks ==> (k in files0 <==> k in files1) && (k in files0 ==> files0[k] == files1[k])
  }

  /** A path ending in "/" and a name resolves to an entry of that name. */
  lemma LastName(cwd: string, a: string, x: string)
    requires a != "" && Normal(x)
    ensures var k := AbsNorm(cwd, a + "/" + x); k != [] && k[|k| - 1] == x
  {
    AbsNormSlash(cwd, a, x);
    SplitNoSlash(x);
    assert [x][1..] == [];
    assert Fold(true, AbsNorm(cwd, a), [x]) == AbsNorm(cwd, a) + [x];
  }

  /** Agreeing outside a, then outside b, is agreeing outside both. */
  lemma UntouchedChain(f0: map<Path, seq<byte>>, f1: map<Path, seq<byte>>, f2: map<Path, seq<byte>>,
                       a: set<Path>, b: set<Path>)
    requires Untouched(f0, f1, a) && Untouched(f1, f2, b)
    ensures Untouched(f0, f2, a + b)
  {
  }

  /** An entry outside ks is as it was. */
  lemma UntouchedAt(f0: map<Path, seq<byte>>, f1: map<Path, seq<byte>>, ks: set<Path>, k: Path)
    requires Untouched(f0, f1, ks) && k !in ks
    ensures (k in f0 <==> k in f1) && (k in f0 ==> f0[k] == f1[k])
  {
  }

  /** The entries config.yaml and its backup resolve to. */
  function YamlKeys(cwd: string): set<Path> {
    {AbsNorm(cwd, YamlConfigFile), AbsNorm(cwd, YamlConfigFile + ".bak")}
  }

  /** The entries the Claude Desktop configuration and its backup resolve to. */
  function JsonKeys(cwd: string): set<Path> {
    {AbsNorm(cwd, JsonConfigFile), AbsNorm(cwd, JsonConfigFile + ".bak")}
  }

  /** Both configuration files were present in `before`, and `after` holds
      each rewritten to point at the vault `abs`. */
  ghost predicate ConfigsRewritten(cwd: string, before: map<Path, seq<byte>>, after: map<Path, seq<byte>>,
                                   abs: string,
                                   yamlDecode: seq<byte> -> Result<map<string, Value>>,
                                   yamlEncode: map<string, Value> -> Result<seq<byte>>,
                                   jsonDecode: seq<byte> -> Result<map<string, Value>>,
                                   jsonEncode: map<string, Value> -> Result<seq<byte>>)
  {
    var yk, jk := AbsNorm(cwd, YamlConfigFile), AbsNorm(cwd, JsonConfigFile);
    && yk in before && jk in before && yk in after && jk in after
    && YamlRewrite(before[yk], ObsidianVaultPathField, abs, yamlDecode, yamlEncode) == Ok(after[yk])
    && JsonRewrite(JsonConfigFile, before[jk], ObsidianVaultPathEnv, abs, jsonDecode, jsonEncode) == Ok(after[jk])
  }

  /** The YAML file and its backup are entries apart from the JSON file
      and its backup. */
  lemma ConfigKeysApart(cwd: string)
    ensures YamlKeys(cwd) !! JsonKeys(cwd)
  {
    // Resolving the literal paths is left to LastName.
    hide AbsNorm, Split, Fold, Norm;
    assert YamlConfigFile == "cmd/config/local" + "/" + "config.yaml";
    assert YamlConfigFile + ".bak" == "cmd/config/local" + "/" + "config.yaml.bak";
    assert JsonConfigFile == "cmd/config/claude_desktop" + "/" + "config.json";
    assert JsonConfigFile + ".bak" == "cmd/config/claude_desktop" + "/" + "config.json.bak";
    LastName(cwd, "cmd/config/local", "config.yaml");
    LastName(cwd, "cmd/config/local", "config.yaml.bak");
    LastName(cwd, "cmd/config/claude_desktop", "config.json");
    LastName(cwd, "cmd/config/claude_desktop", "config.json.bak");
  }

  /** The error setupVault returns when the YAML update fails. */
  function YamlFailure(e: string): (r: string)
    ensures HasPrefix(r, YamlFailureHead)
  {
    var r := YamlFailureHead + YamlConfigFile + "': " + e;
    assert r[..|YamlFailureHead|] == YamlFailureHead;
    r
  }

  const YamlFailureHead := "failed to update config file '"

  /** The error setupVault returns when the JSON update fails; it is never
      taken for a YAML failure. */
  function JsonFailure(e: string): (r: string)
    ensures !HasPrefix(r, YamlFailureHead)
  {
    var r := "failed to update claude desktop config file '" + JsonConfigFile + "': " + e;
    assert r[17] != YamlFailureHead[17] || r[18] != YamlFailureHead[18];
    r
  }

  /** The configuration half of setupVault: config.yaml, then the Claude
      Desktop configuration, each with its own error. */
  method UpdateConfigs(fs: FileSystem, abs: string,
                       yamlDecode: seq<byte> -> Result<map<string, Value>>,
                       yamlEncode: map<string, Value> -> Result<seq<byte>>,
                       jsonDecode: seq<byte> -> Result<map<string, Value>>,
                       jsonEncode: map<string, Value> -> Result<seq<byte>>)
    returns (err: Option<string>)
    requires fs.Valid()
    modifies fs
    ensures fs.Valid() && fs.dirs == old(fs.dirs)
    ensures Untouched(old(fs.files), fs.files, YamlKeys(fs.cwd) +
      if err.Some? && HasPrefix(err.value, YamlFailureHead) then {} else JsonKeys(fs.cwd))
    ensures err.None? ==>
      ConfigsRewritten(fs.cwd, old(fs.files), fs.files, abs, yamlDecode, yamlEncode, jsonDecode, jsonEncode)
  {
    hide AbsNorm, YamlRewrite, JsonRewrite, YamlFailure, JsonFailure, Rewritten, Untouched;
    ghost var yk, ybk := fs.Resolve(YamlConfigFile), fs.Resolve(YamlConfigFile + ".bak");
    ghost var jk, jbk := fs.Resolve(JsonConfigFile), fs.Resolve(JsonConfigFile + ".bak");
    assert YamlKeys(fs.cwd) == {yk, ybk} && JsonKeys(fs.cwd) == {jk, jbk};
    ConfigKeysApart(fs.cwd);
    ghost var files0 := fs.files;
    ghost var yaml0 := fs.ReadFile(YamlConfigFile);
    err := UpdateYamlConfigVaultPath(fs, YamlConfigFile, abs, yamlDecode, yamlEncode);
    if err.Some? {
      assert YamlKeys(fs.cwd) + {} == YamlKeys(fs.cwd);
      return Some(YamlFailure(err.value));
    }
    ghost var files1 := fs.files;
    assert yk in files0 && YamlRewrite(files0[yk], ObsidianVaultPathField, abs, yamlDecode, yamlEncode)
      == Ok(files1[yk]);
    err := UpdateClaudeDesktopConfig(fs, JsonConfigFile, abs, jsonDecode, jsonEncode);
    UntouchedChain(files0, files1, fs.files, YamlKeys(fs.cwd), JsonKeys(fs.cwd));
    if err.Some? {
      return Some(JsonFailure(err.value));
    }
    UntouchedAt(files1, fs.files, JsonKeys(fs.cwd), yk);
    assert jk in files1 && JsonRewrite(JsonConfigFile, files1[jk], ObsidianVaultPathEnv, abs, jsonDecode, jsonEncode)
      == Ok(fs.files[jk]);
  }

  /** setupVault. `home` is what os.UserHomeDir reports; the codecs are
      yaml.Unmarshal/Marshal and json.Unmarshal/MarshalIndent. */
  method SetupVault(fs: FileSystem, vaultPath: string, home: Result<string>,
                    yamlDecode: seq<byte> -> Result<map<string, Value>>,
                    yamlEncode: map<string, Value> -> Result<seq<byte>>,
                    jsonDecode: seq<byte> -> Result<map<string, Value>>,
                    jsonEncode: map<string, Value> -> Result<seq<byte>>)
    returns (err: Option<string>)
    requires fs.Valid()
    modifies fs
    ensures fs.Valid()
    ensures ResolveAndCleanPath(fs.cwd, vaultPath, home).Err? ==>
      err == Some("failed to resolve and clean vault path: " + ResolveAndCleanPath(fs.cwd, vaultPath, home).error)
      && unchanged(fs)
    // Only the configuration files change, and the JSON one only if config.yaml was updated.
    ensures Untouched(old(fs.files), fs.files, YamlKeys(fs.cwd) +
      if err.Some? && HasPrefix(err.value, YamlFailureHead) then {} else JsonKeys(fs.cwd))
    ensures err.None? ==> ResolveAndCleanPath(fs.cwd, vaultPath, home).Ok?
    // No configuration file is written before every directory is in place.
    ensures fs.files != old(fs.files) ==>
      ResolveAndCleanPath(fs.cwd, vaultPath, home).Ok?
      && var abs := ResolveAndCleanPath(fs.cwd, vaultPath, home).value;
      && AllPresent(fs, old(fs.files), fs.dirs, [abs])
      && AllPresent(fs, old(fs.files), fs.dirs, CreatedSubdirs(abs))
      && AllPresent(fs, old(fs.files), fs.dirs, CreatedCategories(abs))
    ensures err.None? ==>
      var abs := ResolveAndCleanPath(fs.cwd, vaultPath, home).value;
      old(NoFileInTheWay(fs, abs)) ==>
        && ValidateDir(fs, abs) == Done
        && DirsVerdict(fs, abs, BaseSubdirs, "subdirectory") == Done
        && DirsVerdict(fs, Join([abs, NotesDir]), Notes.Categories, "note category subdirectory") == Done
    // A success leaves both configuration files rewritten for the vault.
    ensures err.None? ==>
      ConfigsRewritten(fs.cwd, old(fs.files), fs.files, ResolveAndCleanPath(fs.cwd, vaultPath, home).value,
                       yamlDecode, yamlEncode, jsonDecode, jsonEncode)
  {
    var resolved := ResolveAndCleanPath(fs.cwd, vaultPath, home);
    if resolved.Err? {
      return Some("failed to resolve and clean vault path: " + resolved.error);
    }
    var abs := resolved.value;
    ghost var subpaths, categories := CreatedSubdirs(abs), CreatedCategories(abs);
    ghost var clear := NoFileInTheWay(fs, abs);
    if clear {
      NoFileKeysOf(fs, [abs]);
      NoFileKeysOf(fs, subpaths);
      NoFileKeysOf(fs, categories);
    }
    ghost var files0 := fs.files;
    var e := EnsureVaultDirs(fs, abs, SubPaths(abs, SetupSubdirs), SubPaths(Join([abs, NotesDir]), Notes.Categories));
    if e.Failed? {
      return Some(e.error);
    }
    ghost var dirs1 := fs.dirs;
    if clear {
      PresentNoFileIsDir(fs, files0, dirs1, [abs]);
      PresentNoFileIsDir(fs, files0, dirs1, subpaths);
      PresentNoFileIsDir(fs, files0, dirs1, categories);
    }
    hide ConfigsRewritten, YamlKeys, JsonKeys;
    err := UpdateConfigs(fs, abs, yamlDecode, yamlEncode, jsonDecode, jsonEncode);
    if err.Some? {
      return;
    }
    if clear {
      ValidatorsAccept(fs, abs);
    }
    return None;
  }
}
