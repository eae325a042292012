/** The configuration package of the server (cmd/config): loading and
    validating config.yaml against the vault on disk, and rewriting one
    key of the YAML file or one environment variable of the Claude Desktop
    JSON file, with a ".bak" copy of the original bytes written first.
    The YAML and JSON codecs are parameters: a decoder from bytes and an
    encoder back to bytes. */
module Configuration {
  import opened Wrappers
  import opened GoStrings
  import opened Paths
  import opened Fs
  import opened Values
  import opened Files
  import opened Vault
  import Notes

  const YamlConfigFile := "cmd/config/local/config.yaml"
  const JsonConfigFile := "cmd/config/claude_desktop/config.json"

  const ObsidianVaultPathField := "obsidian_vault_path"
  const GoogleDriveScreenshotFolderField := "google_drive_screenshot_folder"
  const GoogleDriveSecretsField := "google_drive_secrets_dir"
  const RootField := "root"

  const ObsidianVaultPathEnv := "OBSIDIAN_VAULT_PATH"
  const GoogleDriveScreenshotFolderEnv := "GOOGLE_DRIVE_SCREENSHOT_FOLDER"
  const GoogleDriveSecretsEnv := "GOOGLE_DRIVE_SECRETS_DIR"
  const RootEnv := "ROOT"

  /** The vault path config.yaml ships with. */
  const Placeholder := "/path/to/your/obsidian/vault"

  /** os.WriteFile(..., 0644) */
  const ConfigPerm := 420

  datatype ServerConfig = ServerConfig(host: string, port: int)

  datatype Config = Config(
    server: ServerConfig,
    obsidianVaultPath: string,
    googleDriveFolder: string,
    googleDriveSecrets: string,
    root: string)

  // ---------------------------------------------------------------------
  // Required directories

  /** The directories a structure check visits: filepath.Join(base, name)
      for each name. */
  function SubPaths(base: string, names: seq<string>): (r: seq<string>)
    ensures |r| == |names|
  {
    seq(|names|, i requires 0 <= i < |names| => Join([base, names[i]]))
  }

  /** The index of the first path at or after `from` that does not pass
      ValidateDir (FirstBadDirSpec states it). */
  function FirstBadDir(fs: FileSystem, paths: seq<string>, from: nat): (r: Option<nat>)
    reads fs
    requires from <= |paths|
    ensures r.Some? ==> from <= r.value < |paths| && ValidateDir(fs, paths[r.value]).Failed?
    decreases |paths| - from
  {
    if from == |paths| then None
    else if ValidateDir(fs, paths[from]) != Done then Some(from)
    else FirstBadDir(fs, paths, from + 1)
  }

  lemma {:induction false} FirstBadDirSpec(fs: FileSystem, paths: seq<string>, from: nat)
    requires from <= |paths|
    ensures var r := FirstBadDir(fs, paths, from);
      r.Some? ==> (ValidateDir(fs, paths[r.value]) != Done
        && forall j :: from <= j < r.value ==> ValidateDir(fs, paths[j]) == Done)
    ensures FirstBadDir(fs, paths, from).None? ==>
      forall j :: from <= j < |paths| ==> ValidateDir(fs, paths[j]) == Done
    decreases |paths| - from
  {
    if from < |paths| && ValidateDir(fs, paths[from]) == Done {
      FirstBadDirSpec(fs, paths, from + 1);
    }
  }

  /** What a structure check reports: nothing when every directory is
      there, otherwise the first missing one by name, with ValidateDir's
      text. `what` is "subdirectory" or "note category subdirectory". */
  function DirsVerdict(fs: FileSystem, base: string, names: seq<string>, what: string): (r: Status)
    reads fs
  {
    var paths := SubPaths(base, names);
    match FirstBadDir(fs, paths, 0)
    case None => Done
    case Some(i) => Failed("required " + what + " '" + names[i] + "' error: " + ValidateDir(fs, paths[i]).error)
  }

  /** A structure check passes iff every directory exists; FirstBadDirSpec
      gives the first that does not, which the error names. */
  lemma DirsVerdictSpec(fs: FileSystem, base: string, names: seq<string>, what: string)
    ensures DirsVerdict(fs, base, names, what) == Done <==>
      forall i :: 0 <= i < |names| ==> fs.Stat(SubPaths(base, names)[i]) == Got(Directory)
  {
    FirstBadDirSpec(fs, SubPaths(base, names), 0);
  }

  /** The loop both validators run: ValidateDir on each name in order,
      returning at the first failure. */
  method CheckSubdirs(fs: FileSystem, base: string, names: seq<string>, what: string) returns (r: Status)
    ensures r == DirsVerdict(fs, base, names, what)
  {
    ghost var paths := SubPaths(base, names);
    for i := 0 to |names|
      invariant FirstBadDir(fs, paths, i) == FirstBadDir(fs, paths, 0)
    {
      var subdirPath := Join([base, names[i]]);
      assert subdirPath == paths[i];
      var err := ValidateDir(fs, subdirPath);
      if err.Failed? {
        return Failed("required " + what + " '" + names[i] + "' error: " + err.error);
      }
    }
    return Done;
  }

  /** validateBaseVaultStructure checks these, in this order. */
  const BaseSubdirs: seq<string> := [NotesDir, MetaDir, ScreenshotDir]

  method ValidateBaseVaultStructure(fs: FileSystem, vaultPath: string) returns (r: Status)
    ensures r == DirsVerdict(fs, vaultPath, BaseSubdirs, "subdirectory")
  {
    r := CheckSubdirs(fs, vaultPath, BaseSubdirs, "subdirectory");
  }

  method ValidateNoteCategoriesStructure(fs: FileSystem, notesBasePath: string) returns (r: Status)
    ensures r == DirsVerdict(fs, notesBasePath, Notes.Categories, "note category subdirectory")
  {
    r := CheckSubdirs(fs, notesBasePath, Notes.Categories, "note category subdirectory");
  }

  // ---------------------------------------------------------------------
  // LoadConfig

  /** Every guard of LoadConfig after decoding passes for vault path v. */
  predicate VaultReady(fs: FileSystem, v: string)
    reads fs
  {
    v != "" && v != Placeholder && v != "/"
    && ValidateDir(fs, v) == Done
    && DirsVerdict(fs, v, BaseSubdirs, "subdirectory") == Done
    && DirsVerdict(fs, Join([v, NotesDir]), Notes.Categories, "note category subdirectory") == Done
  }

  /** The vault guards of LoadConfig. The first that fails gives the
      error; VaultGuardOrder states the order. */
  function VaultGuard(fs: FileSystem, configPath: string, v: string): (r: Option<string>)
    reads fs
    ensures r.None? <==> VaultReady(fs, v)
  {
    if v == "" || v == Placeholder then
      Some("config error: obsidian_vault_path must be set to a valid path in " + configPath)
    else if v == "/" then
      Some("config error: obsidian_vault_path cannot be the root directory '/' in " + configPath)
    else if ValidateDir(fs, v).Failed? then
      Some("config error for obsidian_vault_path: " + ValidateDir(fs, v).error)
    else if DirsVerdict(fs, v, BaseSubdirs, "subdirectory").Failed? then
      Some("config error in vault '" + v + "': " + DirsVerdict(fs, v, BaseSubdirs, "subdirectory").error)
    else
      var notesDirPath := Join([v, NotesDir]);
      match DirsVerdict(fs, notesDirPath, Notes.Categories, "note category subdirectory")
      case Failed(e) => Some("config error in notes directory structure within '" + notesDirPath + "': " + e)
      case Done => None
  }

  /** The guards on the path's text come first: set and not the
      placeholder, then not "/". */
  lemma VaultGuardRejectsText(fs: FileSystem, configPath: string, v: string)
    ensures v == "" || v == Placeholder ==>
      VaultGuard(fs, configPath, v) == Some("config error: obsidian_vault_path must be set to a valid path in " + configPath)
    ensures v == "/" ==>
      VaultGuard(fs, configPath, v) == Some("config error: obsidian_vault_path cannot be the root directory '/' in " + configPath)
  {
  }

  /** Then the disk: the vault is a directory, then its three
      sub-directories, then the six categories below notes/. */
  lemma VaultGuardOrder(fs: FileSystem, configPath: string, v: string)
    requires v != "" && v != Placeholder && v != "/"
    ensures ValidateDir(fs, v).Failed? ==>
      VaultGuard(fs, configPath, v) == Some("config error for obsidian_vault_path: " + ValidateDir(fs, v).error)
    ensures ValidateDir(fs, v) == Done && DirsVerdict(fs, v, BaseSubdirs, "subdirectory").Failed? ==>
      VaultGuard(fs, configPath, v) ==
        Some("config error in vault '" + v + "': " + DirsVerdict(fs, v, BaseSubdirs, "subdirectory").error)
    ensures (ValidateDir(fs, v) == Done && DirsVerdict(fs, v, BaseSubdirs, "subdirectory") == Done
      && DirsVerdict(fs, Join([v, NotesDir]), Notes.Categories, "note category subdirectory").Failed?) ==>
      VaultGuard(fs, configPath, v) ==
        Some("config error in notes directory structure within '" + Join([v, NotesDir]) + "': "
          + DirsVerdict(fs, Join([v, NotesDir]), Notes.Categories, "note category subdirectory").error)
  {
  }

  /** LoadConfig: read, decode, then the vault guards. `decode` is
      yaml.Unmarshal into a Config. On success the decoded configuration
      comes back unchanged. */
  method LoadConfig(fs: FileSystem, configPath: string, decode: seq<byte> -> Result<Config>)
    returns (r: Result<Config>)
    ensures fs.ReadFile(configPath).IoErr? ==>
      r == Err("config error: failed to read config file " + configPath + ": "
        + fs.ReadFile(configPath).err.Text())
    ensures fs.ReadFile(configPath).Got? && decode(fs.ReadFile(configPath).value).Err? ==>
      r == Err("config error: failed to unmarshal config file " + configPath + ": "
        + decode(fs.ReadFile(configPath).value).error)
    ensures fs.ReadFile(configPath).Got? && decode(fs.ReadFile(configPath).value).Ok? ==>
      var guard := VaultGuard(fs, configPath, decode(fs.ReadFile(configPath).value).value.obsidianVaultPath);
      guard.Some? ==> r == Err(guard.value)
    ensures r.Ok? <==> (fs.ReadFile(configPath).Got? && decode(fs.ReadFile(configPath).value).Ok?
      && VaultReady(fs, decode(fs.ReadFile(configPath).value).value.obsidianVaultPath))
    ensures r.Ok? ==> r == decode(fs.ReadFile(configPath).value)
  {
    var configFile := fs.ReadFile(configPath);
    if configFile.IoErr? {
      return Err("config error: failed to read config file " + configPath + ": " + configFile.err.Text());
    }
    var cfg := decode(configFile.value);
    if cfg.Err? {
      return Err("config error: failed to unmarshal config file " + configPath + ": " + cfg.error);
    }
    var v := cfg.value.obsidianVaultPath;
    if v == "" || v == Placeholder {
      return Err("config error: obsidian_vault_path must be set to a valid path in " + configPath);
    }
    if v == "/" {
      return Err("config error: obsidian_vault_path cannot be the root directory '/' in " + configPath);
    }
    var dirErr := ValidateDir(fs, v);
    if dirErr.Failed? {
      return Err("config error for obsidian_vault_path: " + dirErr.error);
    }
    var baseErr := ValidateBaseVaultStructure(fs, v);
    if baseErr.Failed? {
      return Err("config error in vault '" + v + "': " + baseErr.error);
    }
    var notesDirPath := Join([v, NotesDir]);
    var catErr := ValidateNoteCategoriesStructure(fs, notesDirPath);
    if catErr.Failed? {
      return Err("config error in notes directory structure within '" + notesDirPath + "': " + catErr.error);
    }
    return cfg;
  }

  /** A configuration LoadConfig accepts names a vault whose every required
      directory exists: notes, meta and screenshots below it, and the six
      categories below notes. */
  lemma AcceptedVaultIsComplete(fs: FileSystem, v: string)
    requires VaultReady(fs, v)
    ensures fs.Stat(v) == Got(Directory)
    ensures fs.Stat(Join([v, NotesDir])) == Got(Directory)
    ensures fs.Stat(Join([v, MetaDir])) == Got(Directory)
    ensures fs.Stat(Join([v, ScreenshotDir])) == Got(Directory)
    ensures forall i :: 0 <= i < |Notes.Categories| ==>
      fs.Stat(SubPaths(Join([v, NotesDir]), Notes.Categories)[i]) == Got(Directory)
  {
    DirsVerdictSpec(fs, v, BaseSubdirs, "subdirectory");
    DirsVerdictSpec(fs, Join([v, NotesDir]), Notes.Categories, "note category subdirectory");
    var base := SubPaths(v, BaseSubdirs);
    assert base[0] == Join([v, NotesDir]) && base[1] == Join([v, MetaDir]) && base[2] == Join([v, ScreenshotDir]);
  }

  // ---------------------------------------------------------------------
  // Map-level updates

  /** m1 is m0 with at most `key` changed, and `key` present. */
  predicate UpdatedOnly<V(==)>(m0: map<string, V>, m1: map<string, V>, key: string) {
    key in m1
    && (forall k :: k in m1 && k != key ==> k in m0 && m1[k] == m0[k])
    && (forall k :: k in m0 ==> k in m1)
  }

  /** `configMap[fieldName] = value` */
  function SetField(m: map<string, Value>, fieldName: string, value: string): (r: map<string, Value>)
    ensures UpdatedOnly(m, r, fieldName) && r[fieldName] == Str(value)
  {
    m[fieldName := Str(value)]
  }

  const McpServersKey := "mcpServers"
  const ServerKey := "blueprince_notes_mcp"
  const EnvKey := "env"

  const NoServersError := "claude desktop config: 'mcpServers' key not found or not a map"
  const NoServerError := "claude desktop config: 'mcpServers.blueprince_notes_mcp' key not found or not a map"

  /** The "mcpServers" object, when there is one. */
  predicate HasServers(config: map<string, Value>) {
    McpServersKey in config && config[McpServersKey].Object?
  }

  predicate HasServer(config: map<string, Value>) {
    HasServers(config) && ServerKey in config[McpServersKey].fields
    && config[McpServersKey].fields[ServerKey].Object?
  }

  /** The server's env object, or the empty map that replaces a missing or
      non-object one. */
  function EnvOf(server: map<string, Value>): map<string, Value> {
    if EnvKey in server && server[EnvKey].Object? then server[EnvKey].fields else map[]
  }

  /** The nested update of UpdateClaudeDesktopEnvVar: reach
      mcpServers.blueprince_notes_mcp, create or replace its env object
      when it is not one, and set env[envVarName]. Go's maps are shared by
      reference, so the change shows in the outer map. */
  function SetEnv(config: map<string, Value>, envVarName: string, value: string): (r: Result<map<string, Value>>)
    ensures !HasServers(config) ==> r == Err(NoServersError)
    ensures HasServers(config) && !HasServer(config) ==> r == Err(NoServerError)
    ensures r.Ok? <==> HasServer(config)
    ensures r.Ok? ==> (HasServer(r.value)
      && UpdatedOnly(config, r.value, McpServersKey)
      && UpdatedOnly(config[McpServersKey].fields, r.value[McpServersKey].fields, ServerKey)
      && var server0, server1 :=
           config[McpServersKey].fields[ServerKey].fields, r.value[McpServersKey].fields[ServerKey].fields;
      && UpdatedOnly(server0, server1, EnvKey)
      && server1[EnvKey].Object?
      && UpdatedOnly(EnvOf(server0), server1[EnvKey].fields, envVarName)
      && server1[EnvKey].fields[envVarName] == Str(value))
  {
    if !HasServers(config) then Err(NoServersError)
    else
      var servers := config[McpServersKey].fields;
      if !(ServerKey in servers && servers[ServerKey].Object?) then Err(NoServerError)
      else
        var server := servers[ServerKey].fields;
        var env := EnvOf(server)[envVarName := Str(value)];
        var server1 := server[EnvKey := Object(env)];
        var servers1 := servers[ServerKey := Object(server1)];
        Ok(config[McpServersKey := Object(servers1)])
  }

  /** The pure middle of UpdateYamlField: unmarshal, set the field,
      marshal. */
  function YamlRewrite(original: seq<byte>, fieldName: string, value: string,
                       decode: seq<byte> -> Result<map<string, Value>>,
                       encode: map<string, Value> -> Result<seq<byte>>): (r: Result<seq<byte>>)
    ensures decode(original).Err? ==> r == Err("failed to unmarshal config file: " + decode(original).error)
    ensures r.Ok? ==> exists m :: decode(original) == Ok(m) && encode(SetField(m, fieldName, value)) == r
    ensures decode(original).Ok? && encode(SetField(decode(original).value, fieldName, value)).Err? ==>
      r == Err("failed to marshal updated config: "
        + encode(SetField(decode(original).value, fieldName, value)).error)
  {
    match decode(original)
    case Err(e) => Err("failed to unmarshal config file: " + e)
    case Ok(m) =>
      match encode(SetField(m, fieldName, value))
      case Err(e) => Err("failed to marshal updated config: " + e)
      case Ok(out) => Ok(out)
  }

  /** The pure middle of UpdateClaudeDesktopEnvVar: unmarshal, the nested
      update, marshal with indentation. */
  function JsonRewrite(configPath: string, original: seq<byte>, envVarName: string, value: string,
                       decode: seq<byte> -> Result<map<string, Value>>,
                       encode: map<string, Value> -> Result<seq<byte>>): (r: Result<seq<byte>>)
    ensures decode(original).Err? ==>
      r == Err("failed to unmarshal claude desktop config file '" + configPath + "': " + decode(original).error)
    ensures decode(original).Ok? && SetEnv(decode(original).value, envVarName, value).Err? ==>
      r == Err(SetEnv(decode(original).value, envVarName, value).error)
    ensures r.Ok? ==> exists m :: (decode(original) == Ok(m)
      && SetEnv(m, envVarName, value).Ok?
      && encode(SetEnv(m, envVarName, value).value) == r)
    ensures (decode(original).Ok? && SetEnv(decode(original).value, envVarName, value).Ok?
      && encode(SetEnv(decode(original).value, envVarName, value).value).Err?) ==>
      r == Err("failed to marshal updated claude desktop config: "
        + encode(SetEnv(decode(original).value, envVarName, value).value).error)
  {
    match decode(original)
    case Err(e) => Err("failed to unmarshal claude desktop config file '" + configPath + "': " + e)
    case Ok(m) =>
      match SetEnv(m, envVarName, value)
      case Err(e) => Err(e)
      case Ok(m1) =>
        match encode(m1)
        case Err(e) => Err("failed to marshal updated claude desktop config: " + e)
        case Ok(out) => Ok(out)
  }

  /** The codec reads back what it writes. */
  ghost predicate RoundTrips(decode: seq<byte> -> Result<map<string, Value>>,
                             encode: map<string, Value> -> Result<seq<byte>>) {
    forall m :: encode(m).Ok? ==> decode(encode(m).value) == Ok(m)
  }

  /** With a codec that reads back what it writes, the rewritten YAML
      decodes to the original map with only the field changed. */
  lemma YamlRewriteSetsOnlyField(original: seq<byte>, fieldName: string, value: string,
                                 decode: seq<byte> -> Result<map<string, Value>>,
                                 encode: map<string, Value> -> Result<seq<byte>>)
    requires RoundTrips(decode, encode)
    requires YamlRewrite(original, fieldName, value, decode, encode).Ok?
    ensures var m1 := decode(YamlRewrite(original, fieldName, value, decode, encode).value);
      (m1.Ok? && decode(original).Ok?
       && UpdatedOnly(decode(original).value, m1.value, fieldName)
       && m1.value[fieldName] == Str(value))
  {
    var m := decode(original).value;
    assert encode(SetField(m, fieldName, value)).Ok?;
  }

  /** With such a codec, the rewritten JSON decodes to a configuration
      whose server env holds the variable, all else as it was. */
  lemma JsonRewriteSetsOnlyEnv(configPath: string, original: seq<byte>, envVarName: string, value: string,
                               decode: seq<byte> -> Result<map<string, Value>>,
                               encode: map<string, Value> -> Result<seq<byte>>)
    requires RoundTrips(decode, encode)
    requires JsonRewrite(configPath, original, envVarName, value, decode, encode).Ok?
    ensures var m1 := decode(JsonRewrite(configPath, original, envVarName, value, decode, encode).value);
      (m1.Ok? && decode(original).Ok? && HasServer(decode(original).value)
       && Ok(m1.value) == SetEnv(decode(original).value, envVarName, value))
  {
    var m := decode(original).value;
    assert encode(SetEnv(m, envVarName, value).value).Ok?;
  }

  // ---------------------------------------------------------------------
  // Writing the files

  /** The file map after createBackup and the final os.WriteFile: the
      backup holds the original bytes when its write succeeded, and the
      target holds the new bytes when that write succeeded. */
  ghost predicate Rewritten(fs: FileSystem, files0: map<Path, seq<byte>>, backedUp: bool, written: bool,
                            configPath: string, original: seq<byte>, updated: seq<byte>)
    reads fs
  {
    var backed := if backedUp then files0[fs.Resolve(configPath + ".bak") := original] else files0;
    fs.files == if written then backed[fs.Resolve(configPath) := updated] else backed
  }

  /** A regular file below a directory, in no directory itself, can be
      written; in particular after its ".bak" was written beside it. */
  lemma WritableFile(fs: FileSystem, path: string)
    requires fs.Valid() && path != "" && !fs.Denied(fs.Resolve(path))
    requires fs.Resolve(path) != [] && Parent(fs.Resolve(path)) in fs.dirs && fs.Resolve(path) !in fs.dirs
    ensures fs.WriteError(path).None?
  {
    var k := fs.Resolve(path);
    forall i | 0 <= i < |k|
      ensures k[..i] !in fs.files
    {
      assert Parent(k)[..i] == k[..i];
      DirAncestors(fs.dirs, Parent(k), i);
    }
  }
  /** A file that can be read can be written back, since permissions
      never change here: the updaters' write-failure branches are not
      taken after a successful read. */
  lemma ReadableIsWritable(fs: FileSystem, path: string)
    requires fs.Valid() && fs.ReadFile(path).Got?
    ensures fs.WriteError(path).None?
  {
    var k := fs.Resolve(path);
    assert k in fs.files && k !in fs.dirs;
    WritableFile(fs, path);
  }


  /** createBackup */
  method CreateBackup(fs: FileSystem, originalPath: string, content: seq<byte>) returns (err: Option<FsError>)
    requires fs.Valid()
    modifies fs
    ensures fs.Valid() && fs.dirs == old(fs.dirs)
    ensures err == old(fs.WriteError(originalPath + ".bak"))
    ensures err.None? ==> fs.files == old(fs.files)[fs.Resolve(originalPath + ".bak") := content]
    ensures err.Some? ==> unchanged(fs)
  {
    err := fs.WriteFile(originalPath + ".bak", content, ConfigPerm);
  }

  /** UpdateYamlField. A backup failure is only a warning on the console. */
  method UpdateYamlField(fs: FileSystem, configPath: string, fieldName: string, value: string,
                         decode: seq<byte> -> Result<map<string, Value>>,
                         encode: map<string, Value> -> Result<seq<byte>>)
    returns (err: Option<string>)
    requires fs.Valid()
    modifies fs
    ensures fs.Valid() && fs.dirs == old(fs.dirs)
    ensures old(fs.ReadFile(configPath)).IoErr? ==>
      err == Some("failed to read config file: " + old(fs.ReadFile(configPath)).err.Text()) && unchanged(fs)
    ensures old(fs.ReadFile(configPath)).Got? ==>
      var rewrite := YamlRewrite(old(fs.ReadFile(configPath)).value, fieldName, value, decode, encode);
      && (rewrite.Err? ==> err == Some(rewrite.error) && unchanged(fs))
      && (rewrite.Ok? ==> Rewritten(fs, old(fs.files), old(fs.WriteError(configPath + ".bak")).None?,
            err.None?, configPath, old(fs.ReadFile(configPath)).value, rewrite.value))
      && (rewrite.Ok? && err.Some? ==> HasPrefix(err.value, "failed to write updated config file: "))
      && (rewrite.Ok? && old(fs.WriteError(configPath)).None? ==> err.None?)
      && (err.None? ==> rewrite.Ok? && fs.ReadFile(configPath) == Got(rewrite.value))
  {
    var yamlFile := fs.ReadFile(configPath);
    if yamlFile.IoErr? {
      return Some("failed to read config file: " + yamlFile.err.Text());
    }
    var updated := YamlRewrite(yamlFile.value, fieldName, value, decode, encode);
    if updated.Err? {
      return Some(updated.error);
    }
    ghost var writable := fs.WriteError(configPath).None?;
    var backupErr := CreateBackup(fs, configPath, yamlFile.value);
    if writable {
      // Whatever the backup did, the target can still be written.
      WritableFile(fs, configPath);
    }
    var writeErr := fs.WriteFile(configPath, updated.value, ConfigPerm);
    if writeErr.Some? {
      return Some("failed to write updated config file: " + writeErr.value.Text());
    }
    return None;
  }

  /** UpdateClaudeDesktopEnvVar. */
  method UpdateClaudeDesktopEnvVar(fs: FileSystem, configPath: string, envVarName: string, value: string,
                                   decode: seq<byte> -> Result<map<string, Value>>,
                                   encode: map<string, Value> -> Result<seq<byte>>)
    returns (err: Option<string>)
    requires fs.Valid()
    modifies fs
    ensures fs.Valid() && fs.dirs == old(fs.dirs)
    ensures old(fs.ReadFile(configPath)).IoErr? ==>
      err == Some("failed to read claude desktop config file '" + configPath + "': "
        + old(fs.ReadFile(configPath)).err.Text()) && unchanged(fs)
    ensures old(fs.ReadFile(configPath)).Got? ==>
      var rewrite := JsonRewrite(configPath, old(fs.ReadFile(configPath)).value, envVarName, value, decode, encode);
      && (rewrite.Err? ==> err == Some(rewrite.error) && unchanged(fs))
      && (rewrite.Ok? ==> Rewritten(fs, old(fs.files), old(fs.WriteError(configPath + ".bak")).None?,
            err.None?, configPath, old(fs.ReadFile(configPath)).value, rewrite.value))
      && (rewrite.Ok? && err.Some? ==>
            HasPrefix(err.value, "failed to write updated claude desktop config file '" + configPath + "': "))
      && (rewrite.Ok? && old(fs.WriteError(configPath)).None? ==> err.None?)
      && (err.None? ==> rewrite.Ok? && fs.ReadFile(configPath) == Got(rewrite.value))
  {
    var jsonFile := fs.ReadFile(configPath);
    if jsonFile.IoErr? {
      return Some("failed to read claude desktop config file '" + configPath + "': " + jsonFile.err.Text());
    }
    var updated := JsonRewrite(configPath, jsonFile.value, envVarName, value, decode, encode);
    if updated.Err? {
      return Some(updated.error);
    }
    ghost var writable := fs.WriteError(configPath).None?;
    var backupErr := CreateBackup(fs, configPath, jsonFile.value);
    if writable {
      // Whatever the backup did, the target can still be written.
      WritableFile(fs, configPath);
    }
    var writeErr := fs.WriteFile(configPath, updated.value, ConfigPerm);
    if writeErr.Some? {
      return Some("failed to write updated claude desktop config file '" + configPath + "': "
        + writeErr.value.Text());
    }
    return None;
  }
}
