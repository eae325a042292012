/** The older configuration loader of the server binary
    (cmd/server/config): a configuration with the server address and the
    vault path only, whose vault must hold the six note categories directly
    below it. The YAML decoder is a parameter. */
module ServerConfiguration {
  import opened Wrappers
  import opened Fs
  import opened Files
  import Notes
  import Configuration

  datatype Config = Config(server: Configuration.ServerConfig, obsidianVaultPath: string)

  /** validateVaultStructure's check: each category directly below the
      vault, in order; the error names the first one missing. */
  function VaultStructure(fs: FileSystem, v: string): (r: Status)
    reads fs
  {
    Configuration.DirsVerdict(fs, v, Notes.Categories, "subdirectory")
  }

  /** validateVaultStructure passes iff all six category directories
      exist below the vault. */
  lemma VaultStructureSpec(fs: FileSystem, v: string)
    ensures VaultStructure(fs, v) == Done <==>
      forall i :: 0 <= i < |Notes.Categories| ==>
        fs.Stat(Configuration.SubPaths(v, Notes.Categories)[i]) == Got(Directory)
  {
    Configuration.DirsVerdictSpec(fs, v, Notes.Categories, "subdirectory");
  }

  /** The loop of validateVaultStructure. */
  method ValidateVaultStructure(fs: FileSystem, vaultPath: string) returns (r: Status)
    ensures r == VaultStructure(fs, vaultPath)
  {
    r := Configuration.CheckSubdirs(fs, vaultPath, Notes.Categories, "subdirectory");
  }

  /** Every guard after decoding passes for vault path v. */
  predicate VaultReady(fs: FileSystem, v: string)
    reads fs
  {
    v != "" && v != Configuration.Placeholder && v != "/"
    && ValidateDir(fs, v) == Done && VaultStructure(fs, v) == Done
  }

  /** The guards in their order; the first that fails gives the error. */
  function VaultGuard(fs: FileSystem, configPath: string, v: string): (r: Option<string>)
    reads fs
    ensures r.None? <==> VaultReady(fs, v)
  {
    if v == "" || v == Configuration.Placeholder then
      Some("config error: OBSIDIAN_VAULT_PATH must be set to a valid path in " + configPath)
    else if v == "/" then
      Some("config error: OBSIDIAN_VAULT_PATH cannot be the root directory '/' in " + configPath)
    else if ValidateDir(fs, v).Failed? then
      Some("config error for OBSIDIAN_VAULT_PATH: " + ValidateDir(fs, v).error)
    else match VaultStructure(fs, v)
      case Failed(e) => Some("config error in vault '" + v + "': " + e)
      case Done => None
  }

  /** The text of the path is checked before the disk: unset or the
      placeholder, then "/", then a directory, then the categories; the
      first failure gives the message. */
  lemma VaultGuardOrder(fs: FileSystem, configPath: string, v: string)
    ensures v == "" || v == Configuration.Placeholder ==>
      VaultGuard(fs, configPath, v) == Some("config error: OBSIDIAN_VAULT_PATH must be set to a valid path in " + configPath)
    ensures v == "/" ==>
      VaultGuard(fs, configPath, v) == Some("config error: OBSIDIAN_VAULT_PATH cannot be the root directory '/' in " + configPath)
    ensures v != "" && v != Configuration.Placeholder && v != "/" && ValidateDir(fs, v).Failed? ==>
      VaultGuard(fs, configPath, v) == Some("config error for OBSIDIAN_VAULT_PATH: " + ValidateDir(fs, v).error)
    ensures (v != "" && v != Configuration.Placeholder && v != "/" && ValidateDir(fs, v) == Done
      && VaultStructure(fs, v).Failed?) ==>
      VaultGuard(fs, configPath, v) == Some("config error in vault '" + v + "': " + VaultStructure(fs, v).error)
  {
  }

  /** LoadConfig: read, decode, then the guards. On success the decoded
      configuration comes back unchanged. */
  method LoadConfig(fs: FileSystem, configPath: string, decode: seq<byte> -> Result<Config>)
    returns (r: Result<Config>)
    ensures fs.ReadFile(configPath).IoErr? ==>
      r == Err("config error: failed to read config file " + configPath + ": "
        + fs.ReadFile(configPath).err.Text())
    ensures fs.ReadFile(configPath).Got? && decode(fs.ReadFile(configPath).value).Err? ==>
      r == Err("config error: failed to unmarshal config file " + configPath + ": "
        + decode(fs.ReadFile(configPath).value).error)
    ensures fs.ReadFile(configPath).Got? && decode(fs.ReadFile(configPath).value).Ok? ==>
      var guard := VaultGuard(fs, configPath, decode(fs.ReadFile(configPath).value).value.obsidianVaultPath);
      guard.Some? ==> r == Err(guard.value)
    ensures r.Ok? <==> (fs.ReadFile(configPath).Got? && decode(fs.ReadFile(configPath).value).Ok?
      && VaultReady(fs, decode(fs.ReadFile(configPath).value).value.obsidianVaultPath))
    ensures r.Ok? ==> r == decode(fs.ReadFile(configPath).value)
  {
    var configFile := fs.ReadFile(configPath);
    if configFile.IoErr? {
      return Err("config error: failed to read config file " + configPath + ": " + configFile.err.Text());
    }
    var cfg := decode(configFile.value);
    if cfg.Err? {
      return Err("config error: failed to unmarshal config file " + configPath + ": " + cfg.error);
    }
    var v := cfg.value.obsidianVaultPath;
    if v == "" || v == Configuration.Placeholder {
      return Err("config error: OBSIDIAN_VAULT_PATH must be set to a valid path in " + configPath);
    }
    if v == "/" {
      return Err("config error: OBSIDIAN_VAULT_PATH cannot be the root directory '/' in " + configPath);
    }
    var dirErr := ValidateDir(fs, v);
    if dirErr.Failed? {
      return Err("config error for OBSIDIAN_VAULT_PATH: " + dirErr.error);
    }
    var structErr := ValidateVaultStructure(fs, v);
    if structErr.Failed? {
      return Err("config error in vault '" + v + "': " + structErr.error);
    }
    return cfg;
  }

  /** A vault this loader accepts is a directory holding every category
      directory directly below it (not below notes/, as the newer loader
      demands). */
  lemma AcceptedVaultHasCategories(fs: FileSystem, v: string)
    requires VaultReady(fs, v)
    ensures fs.Stat(v) == Got(Directory)
    ensures forall i :: 0 <= i < |Notes.Categories| ==>
      fs.Stat(Configuration.SubPaths(v, Notes.Categories)[i]) == Got(Directory)
  {
    VaultStructureSpec(fs, v);
  }
}
