# blueprince-mcp in Dafny

This project models the core of blueprince-mcp: an MCP (Model Context Protocol) server that keeps spoiler-free Markdown notes about the game Blue Prince in an Obsidian vault, plus the command-line tools around it. The model covers:

- **Path confinement.** A note path from a client is cleaned and refused when it is empty, absolute or begins with `..`. The note is then joined under `<vault>/notes`, and the join is accepted only if its absolute form has the absolute notes directory as a string prefix.
- **Note metadata.** Field-by-field validation of YAML/JSON front-matter, and the file layout `---\n<yaml>---\n\n<body>`.
- **The note tools.** `create_note` only creates, `update_note` only overwrites, `delete_note` only removes and `read_note` reads. All of them work against a file system held in maps.
- **The screenshot tools.** Their path stage, and the JPEG data URL (section 3 of RFC 2397) with standard Base64 (section 4 of RFC 4648).
- **Configuration.** The vault guards of both configuration loaders, the backup-then-rewrite of the YAML configuration and of the desktop client's JSON configuration, and the setup command that creates exactly the directories the loaders check.
- **The CLI client.** Default metadata derived from a note path, the config-file search, the JSON-RPC 2.0 `tools/call` request (JSON-RPC 2.0 Specification, section 4), the choice of the first JSON response line, and its printing.
- **Google Drive storage.** The local credential, token and configuration paths, and the creation of the private configuration directory.
- **The resource registry.** The rules resource, then one `file:///` resource for every visible file of the vault.

## Structure

Each Dafny module follows one Go package or file.

| module | models |
|---|---|
| `Paths` | Go's `filepath` functions Clean, Join, Abs, IsAbs, Dir and Ext, on `/`-separated segments |
| `GoStrings` | the parts of `strings` and `unicode` the code calls |
| `Fs` | the `os` calls, as a `FileSystem` class whose maps of files and directories are keyed by resolved absolute path |
| `Values` | decoded JSON/YAML values (Go's `any`) |
| `Wrappers` | `Option`, `Result`, `Status` |
| `Vault` | the vault's directory names |
| `Files` | `runtime/utils/files.go`, `runtime/utils/mcp.go` |
| `Notes` | `runtime/models/notes` |
| `Tools` | the note tool handlers |
| `Base64`, `Screenshots` | the screenshot tools |
| `Configuration` | `cmd/config/config.go` |
| `ServerConfiguration` | `cmd/server/config/config.go` |
| `Setup` | `cmd/setup/main.go` |
| `McpClient` | `cmd/tools/client.go` |
| `NoteCommands` | `cmd/tools/create.go`, `cmd/tools/update.go` |
| `Drive` | `runtime/storage/drive/utils.go` |
| `Resources` | `runtime/mcp/resources` |

The form of each module follows the code:

- Pure Go functions are Dafny functions, with lemmas about them.
- Go loops are methods with loop invariants. Each is proved equal to a specification function.
- Handlers that write files are methods that modify the `FileSystem` object.
- The MCP server's resource table is a class whose map field `AddResource` updates.

The clock, the YAML/JSON codecs, `mime.TypeByExtension`, the image compressor, the MCP server process and `os.UserHomeDir` are parameters. The working directory is a field of the file system.

The empty path names no entry. As on the operating system, stat, read, write, mkdir and remove all fail on it with "no such file or directory" (Fs.FileSystem.EmptyPathFails). An empty `--config` flag or configuration path therefore fails to load instead of naming the working directory.

The directory tree that `filepath.WalkDir` visits is a parameter too (`tree`, an `Entry` value or a walk error). Files.ListFiles takes it, and Resources.RegisterVault and Resources.Register take a function from the resolved root to it. This tree is not tied to the `FileSystem` object that the read and write handlers use. A caller must give a tree whose root entry is named with the root's base name. The walk tests that name like any other, so a hidden vault root is skipped as a whole (`runtime/mcp/resources/files/vault.go:42-46`).

Behaviours of the code that the model keeps as written:

- `ValidatePath` tests the two characters `..`, not a `..` segment. It therefore refuses names such as `..notes/x` that stay inside the vault.
- Called on its own, `BuildSecurePath` accepts `../notes-evil/x` under the base `notes`. Behind `ValidatePath`, every accepted path stays inside the base directory.
- `ParseMetadata` reads the primary subject from the `category` key.
- `update_note` rewrites a note without its `created_at`, because `ParseMetadata` never reads timestamps.
- `read_note`'s `BuildSecurePath` check can never fail after its own inline check.
- The screenshot tools drop `ValidatePath`'s error, so a refused name becomes the screenshots directory itself.
- `registerSpoilerPreventionRules` cannot fail, so the abort branch of `Register` is unreachable.
- When the vault root cannot be stat'ed, the walk callback receives a nil entry and returns nil. Registration then succeeds without file resources.
- The older server loader wants the six category directories directly under the vault. The newer loader wants them under `notes/`.

## Model

| member | source | states |
|---|---|---|
| Files.ValidatePath | runtime/utils/files.go:97-111 | the empty path fails with "note path cannot be empty"; success holds exactly when the clean form is neither absolute nor begins with ".."; the result is then the clean form; every other failure names the path |
| Files.ValidatePathConfined | runtime/utils/files.go:103-110 | an accepted path is clean, relative, made of names only, and has no ".." segment |
| Files.ValidatePathRefusesDotDotNames | runtime/utils/files.go:103-108 | a name that begins with ".." without escaping (such as "..notes") is still refused, with the invalid-path message |
| Files.ValidatePathIdempotent | runtime/utils/files.go:97-111 | what ValidatePath returns, it accepts again unchanged |
| Files.BuildSecurePath | runtime/utils/files.go:115-135 | on success the result is the relative join of vault, sub-directory and name (not its absolute form); the error is "access denied: path '<name>' is outside the notes directory" |
| Files.ConfinedJoin | runtime/utils/files.go:115-135 | for the empty name or any confined name, BuildSecurePath succeeds, and the resolved path is the resolved base plus the name's own segments: it equals the base or lies below base + "/" |
| Files.ConfinedDir | runtime/utils/files.go:115-135 | the directory of a confined join resolves to the parent of the join's resolved location |
| Files.ValidatedPathsStayInside | runtime/utils/files.go:97-135 | ValidatePath followed by BuildSecurePath never leaves the base directory: the resolved result extends the resolved base by the name's segments |
| Files.SiblingPassesPrefixCheck | runtime/utils/files.go:120-132 | called directly, BuildSecurePath accepts "../<sibling>" whose name starts with the sub-directory's name, although it resolves beside the base and not below base + "/"; ValidatePath refuses that name |
| Files.ResolvedBelow | runtime/utils/files.go:120-132 | extending the resolved segments of the base gives a path equal to the base or below base + "/" at a '/' boundary |
| Files.ExpandTilde | runtime/utils/files.go:67-78 | a path not starting with "~" is returned unchanged; otherwise only the leading "~" is replaced by the home directory; a home-directory failure is wrapped |
| Files.ResolveAndCleanPath | runtime/utils/files.go:81-93 | a success is absolute and clean, and is the resolution of the expanded path against the working directory; the only failure is an expansion failure, wrapped with "failed to expand path: " |
| Files.WalkDir | runtime/utils/files.go:15-47 | the walk loop computes the recursive walk: files reported in walk order, hidden entries (and everything below a hidden directory) skipped, the first error aborting |
| Files.WalkReportsVisible | runtime/utils/files.go:15-47 | a walk that is not aborted reports a file exactly when it is a visible regular file: neither it nor any directory above it is hidden |
| Files.WalkSkipsHidden | runtime/utils/files.go:138-147 | nothing the walk reports has a name starting with "." anywhere on its path |
| Files.KidsPrefixAbort | runtime/utils/files.go:17-21 | once some child aborts the walk, the remaining children change nothing |
| Files.ListFiles | runtime/utils/files.go:15-47 | ListFiles returns the listing of the root entry: its visible files' root-relative paths, or the walk error |
| Files.ListFilesExact | runtime/utils/files.go:15-47 | without an error, the listing is exactly the visible files, each given by its path relative to the root |
| Files.EnsureDirExists | runtime/utils/files.go:151-167 | an existing entry (a regular file too) is accepted with nothing changed; a Stat failure other than not-exist is reported with nothing changed; the empty path fails with "failed to create directory '': " and mkdir's error, nothing changed; any other missing directory is created with every missing parent at the given mode and nothing else changes; success means the path now exists |
| Files.ValidateDir | runtime/utils/files.go:50-64 | passes exactly when the path is an existing directory; a missing path is reported as not existing |
| Files.GetMimeType | runtime/utils/files.go:169-191 | the loop over the text suffixes computes the MIME rule |
| Files.MimeMarkdown | runtime/utils/files.go:173-178 | ".md" in any letter case gives text/markdown when the lookup knows nothing better than a text type |
| Files.MimeFallback | runtime/utils/files.go:180-190 | an unknown extension gives text/plain for the eight listed text suffixes and application/octet-stream otherwise; a known non-text type is kept |
| Files.ExtractStringParam | runtime/utils/mcp.go:6-22 | nil arguments, a missing key and a non-string value give their three errors; a string, the empty string included, is returned exactly |
| Notes.Parse | runtime/models/notes/notes.go:77-147 | accepted exactly when the map is well formed (title, category, tags, confidence and status present with the right type, and enumerated values in their lists); on success the primary subject equals the category, both timestamps are empty, and the tags keep their length, order and text |
| Notes.ParseFirstFailure | runtime/models/notes/notes.go:81-144 | each check fails with its own text (title, category type, category value, tags missing, tags not an array, a non-string tag, confidence type, confidence value, status type, status value), and only when every earlier field passed, whatever the later fields hold |
| Notes.ParseMetadata | runtime/models/notes/notes.go:77-147 | the field-by-field method with its tag loop computes Parse |
| Notes.IsOneOf | runtime/models/notes/notes.go:150-157 | the early-return scan answers true exactly when the value is in the list |
| Notes.IsValidCategory | runtime/models/notes/notes.go:150-157 | true exactly for people, puzzles, rooms, items, lore and general |
| Notes.IsValidConfidence | runtime/models/notes/notes.go:160-167 | true exactly for high, medium and low |
| Notes.IsValidStatus | runtime/models/notes/notes.go:170-177 | true exactly for the five listed statuses |
| Notes.ParseDecoded | runtime/models/notes/notes.go:99-104 | a record written out and read back is accepted, with the primary subject replaced by the category and the timestamps dropped |
| Notes.ParseIgnoresOtherKeys | runtime/models/notes/notes.go:77-147 | a key other than the five checked ones ("primary_subject" and the timestamps included) never changes the verdict |
| Notes.CreateContent | runtime/models/notes/notes.go:180-190 | the note begins with "---\n", ends with the body, and between them holds the YAML followed by "---\n\n" |
| Notes.CreateContentSplits | runtime/models/notes/notes.go:180-190 | the YAML and the body are recovered from the note at known offsets |
| Tools.SpoilerVerdict | runtime/mcp/tools/create.go:156-184 | the content fails exactly when its lower-case form contains one of the headers, and the error names the first header in list order that occurs |
| Tools.SpoilerCheck | runtime/mcp/tools/create.go:156-184 | the header loop computes SpoilerVerdict |
| Tools.SpoilerIgnoresCase | runtime/mcp/tools/create.go:157 | a content and its lower-case form get the same verdict |
| Tools.SpoilerNeverReportsSubheader | runtime/mcp/tools/create.go:160-175 | an error never names a "###" header, because the "##" header of the same word comes first and is contained in it |
| Tools.SpoilerPassesWithoutHashes | runtime/mcp/tools/create.go:160-175 | content without "##" always passes |
| Tools.PathRequest | runtime/mcp/tools/notes/update.go:67-87 | a success carries a string "path" parameter that ValidatePath accepts, and the join of the vault, the notes directory and its clean form |
| Tools.CheckNote | runtime/mcp/tools/create.go:69-119 | a request passes only when the arguments hold content that passes the spoiler check, a metadata object that ParseMetadata accepts, and a path the path stage accepts; the request carries exactly those values |
| Tools.NotePathInside | runtime/mcp/tools/create.go:101-119 | every path the note tools accept resolves to the notes directory or below it, and its directory resolves to the parent of that location |
| Tools.NoteRequestSecured | runtime/mcp/tools/create.go:101-130 | the file an accepted request names lies inside the notes directory of the vault on the modelled disk |
| Tools.CreateNote | runtime/mcp/tools/create.go:65-153 | a failed check changes nothing and returns its error; an existing entry gives "File already exists" and changes nothing; it succeeds exactly when the checks pass and stat reports the path missing; a success writes exactly that file, with the stamped metadata framed by CreateContent, and adds only the missing parent directories; any failure leaves the files as they were |
| Tools.WriteNew | runtime/mcp/tools/create.go:127-148 | an existing entry is refused with nothing changed; it succeeds exactly when the path is missing and can be written; a success writes only the new note and no directory changes |
| Tools.CreateAt | runtime/mcp/tools/create.go:121-150 | on a path inside the notes directory, an existing entry is refused with nothing changed; it succeeds exactly when stat reports the path missing; a success writes only the new note and adds exactly the parent directories that were missing |
| Tools.FreshParent | runtime/mcp/tools/create.go:120-129 | when stat reports the note missing, its directory is either a directory, and then nothing needs creating, or missing as well; it is never a file or unreadable |
| Tools.UpdateNote | runtime/mcp/tools/notes/update.go:29-120 | a failed check changes nothing; a missing note gives "Note not found ... Use create_note to create new notes." and changes nothing; it succeeds exactly when the checks pass, the note exists and can be written; a success overwrites only that file, with updated_at set to the clock, and no directory changes |
| Tools.UpdateAt | runtime/mcp/tools/notes/update.go:89-115 | a missing note is refused with nothing changed; it succeeds exactly when the note exists and can be written; a success overwrites only that file; every failure leaves the files unchanged |
| Tools.UpdateDropsCreatedAt | runtime/mcp/tools/notes/update.go:101-102 | the rewritten front-matter has no created_at entry and has updated_at set to the clock |
| Tools.DeleteRequest | runtime/mcp/tools/notes/delete.go:40-65 | nil arguments give "Missing arguments for delete_note"; otherwise the verdict is the path stage's |
| Tools.DeleteNote | runtime/mcp/tools/notes/delete.go:35-82 | a failed check changes nothing; a missing note gives "Note not found" and changes nothing; it succeeds exactly when os.Remove can remove the entry, and a success removes exactly that entry; a failure changes nothing |
| Tools.DeleteAt | runtime/mcp/tools/notes/delete.go:67-80 | a missing entry gives "Note not found"; it succeeds exactly when os.Remove can remove the entry, and then removes only it; a failure changes nothing |
| Tools.RequireString | runtime/mcp/tools/read.go:20-24 | the id is returned exactly when it is a present string; otherwise there is an error |
| Tools.ReadNote | runtime/mcp/tools/read.go:18-59 | a missing id and an id refused by the inline check give their messages; file contents come back only for an accepted id, and are exactly the bytes of its file; nothing is modified |
| Tools.ReadOutcome | runtime/mcp/tools/read.go:47-57 | the file's bytes, a not-found message for a missing file, or the read error otherwise |
| Tools.AcceptedIdConfined | runtime/mcp/tools/read.go:28-32 | an id the inline check accepts cleans to a confined name |
| Tools.ReadAcceptedIds | runtime/mcp/tools/read.go:36-44 | for every accepted id (the empty id too) the access check passes and the path is inside the notes directory, so only the read decides the answer |
| Base64.SymbolIndex | runtime/mcp/tools/screenshots/analyze.go:89 | the alphabet maps each of 0..63 to a character that decodes back to it |
| Base64.IndexSymbol | runtime/mcp/tools/screenshots/analyze.go:89 | every alphabet character is the symbol of its decoded value |
| Base64.Encode | runtime/mcp/tools/screenshots/analyze.go:89 | the encoding has 4 characters per started group of 3 bytes, uses only alphabet characters and padding, and pads only in the last two places |
| Base64.QuadRoundTrip | runtime/mcp/tools/screenshots/analyze.go:89 | a full group of three bytes decodes back from its four symbols |
| Base64.RoundTrip | runtime/mcp/tools/screenshots/analyze.go:89 | decoding undoes encoding for every byte string |
| Base64.DataUrl | runtime/mcp/tools/screenshots/analyze.go:89-91 | the answer is "data:image/jpeg;base64," followed by data that decode back to the file's bytes |
| Screenshots.FileName | runtime/mcp/tools/screenshots/analyze.go:58-70 | nil arguments give the missing-arguments error; success holds exactly for a non-empty string file_name; the empty string gives "Parameter validation failed: <nil>" |
| Screenshots.ScreenshotClean | runtime/mcp/tools/screenshots/analyze.go:73-78 | the cleaned name, or "" when ValidatePath refuses it, so the dropped error cannot let a traversal through |
| Screenshots.ScreenshotPathInside | runtime/mcp/tools/screenshots/analyze.go:73-78 | the path stage always succeeds, and the path resolves to the screenshots directory or below it; a refused name resolves to the directory itself |
| Screenshots.Analyze | runtime/mcp/tools/screenshots/analyze.go:58-93 | a bad file name gives its error; otherwise the answer is decided by reading the screenshot's path |
| Screenshots.AnalyzeOutcome | runtime/mcp/tools/screenshots/analyze.go:81-91 | a read failure is reported; a read success gives the JPEG data URL of the bytes |
| Screenshots.AnalyzeDecodes | runtime/mcp/tools/screenshots/analyze.go:81-91 | analysis succeeds exactly when the file can be read, and its data URL decodes back to the file's bytes |
| Screenshots.View | runtime/mcp/tools/screenshots/view.go:50-96 | a bad file name gives its error; an image answer carries the compressor's data for the screenshot's path, the MIME type of that path and the fixed success text |
| Screenshots.ViewFailsOnlyInCompression | runtime/mcp/tools/screenshots/view.go:66-80 | once the file name is accepted, only compression can make view_screenshot fail |
| Configuration.FirstBadDirSpec | cmd/config/config.go:88-108 | the index found fails ValidateDir and every earlier one passes; when none is found, all pass |
| Configuration.DirsVerdictSpec | cmd/config/config.go:88-108 | a structure check passes exactly when every listed directory exists; otherwise its error names the first missing one |
| Configuration.CheckSubdirs | cmd/config/config.go:88-108 | the validators' loop computes that verdict |
| Configuration.ValidateBaseVaultStructure | cmd/config/config.go:88-97 | checks notes, meta and screenshots below the vault, in that order |
| Configuration.ValidateNoteCategoriesStructure | cmd/config/config.go:100-108 | checks the six categories below the notes directory, in list order |
| Configuration.VaultGuard | cmd/config/config.go:61-82 | no error exactly when the path is set, is not the placeholder and not "/", is a directory, and holds the three sub-directories and the six categories under notes |
| Configuration.VaultGuardRejectsText | cmd/config/config.go:61-69 | an unset or placeholder path, and then "/", are refused before any disk access |
| Configuration.VaultGuardOrder | cmd/config/config.go:70-82 | the disk checks run in order: the vault directory, then its sub-directories, then the categories; the first failure gives the message |
| Configuration.LoadConfig | cmd/config/config.go:49-85 | read and decode failures give their messages; a configuration is returned exactly when it decodes and passes every guard, and it is then the decoded one unchanged |
| Configuration.AcceptedVaultIsComplete | cmd/config/config.go:49-108 | an accepted vault is a directory with notes, meta and screenshots below it and the six categories below notes |
| Configuration.SetField | cmd/config/config.go:124-125 | only the field changes, and it holds the new string |
| Configuration.SetEnv | cmd/config/config.go:160-179 | missing mcpServers or a missing blueprince_notes_mcp server gives its error; otherwise only the server's env changes (created when it is missing or not an object), and only the variable inside it |
| Configuration.YamlRewrite | cmd/config/config.go:118-130 | decode, set the field, encode; each codec failure gives its message |
| Configuration.JsonRewrite | cmd/config/config.go:154-185 | decode, the nested env update, encode; each failure gives its message |
| Configuration.YamlRewriteSetsOnlyField | cmd/config/config.go:111-144 | with a codec that reads back what it writes, the new YAML decodes to the old map with only the field changed |
| Configuration.JsonRewriteSetsOnlyEnv | cmd/config/config.go:147-198 | with such a codec, the new JSON decodes to exactly the nested update of the old configuration |
| Configuration.CreateBackup | cmd/config/config.go:201-204 | the original bytes are written to "<path>.bak" and nothing else changes; a write failure is reported with nothing changed |
| Configuration.WritableFile | cmd/config/config.go:137-140 | os.WriteFile cannot fail on an entry that is not denied, is not a directory and whose parent directory exists, as a configuration file that was just read is |
| Configuration.ReadableIsWritable | cmd/config/config.go:112-140 | a configuration file that os.ReadFile can read, os.WriteFile can write back |
| Configuration.UpdateYamlField | cmd/config/config.go:111-144 | a read or rewrite failure gives its message and changes nothing; otherwise the backup is written first when it can be (a backup failure only warns), then the new content; a writable file always ends up holding the rewrite, and a failure to write is reported as such; success means the file now holds the rewrite; directories never change |
| Configuration.UpdateClaudeDesktopEnvVar | cmd/config/config.go:147-198 | the same read, backup and write discipline for the JSON configuration, with its own messages; a readable file that rewrites is always updated when it can be written |
| ServerConfiguration.VaultStructureSpec | cmd/server/config/config.go:58-68 | the older check passes exactly when all six categories exist directly below the vault |
| ServerConfiguration.ValidateVaultStructure | cmd/server/config/config.go:58-68 | the loop computes that verdict |
| ServerConfiguration.VaultGuard | cmd/server/config/config.go:37-52 | no error exactly when the path is set, is not the placeholder and not "/", is a directory and holds every category directly below it |
| ServerConfiguration.VaultGuardOrder | cmd/server/config/config.go:37-52 | the guards run in order (set and not the placeholder, not "/", a directory, the categories) and the first failure gives its message |
| ServerConfiguration.LoadConfig | cmd/server/config/config.go:25-55 | read and decode failures give their messages; a configuration is returned exactly when it decodes and passes every guard, unchanged |
| ServerConfiguration.AcceptedVaultHasCategories | cmd/server/config/config.go:25-68 | an accepted vault is a directory with every category directly below it |
| Setup.TargetVaultPath | cmd/setup/main.go:43-46 | the one argument when given, otherwise the default below the home directory |
| Setup.DefaultPathText | cmd/setup/main.go:18-19 | the default vault path is "~/Documents/blueprince_mcp" |
| Setup.EnsureOne | cmd/setup/main.go:70-77 | EnsureDirExists on one directory, its error wrapped with what the directory is |
| Setup.EnsureEach | cmd/setup/main.go:70-87 | each directory in order, stopping at the first failure, whose message names it; the directories before it exist, on success all of them do; no file changes and no directory disappears |
| Setup.EnsureVaultDirs | cmd/setup/main.go:64-88 | the vault, then its sub-directories, then the categories under notes; on success all exist; a failure says what failed to be ensured |
| Setup.ValidatorsAccept | cmd/setup/main.go:64-88 | a vault where everything setup ensures is a directory passes all three disk checks of the configuration loader |
| Setup.BaseSubdirsAccepted | cmd/config/config.go:88-97 | the loader accepts the sub-directories setup creates, although it checks them in another order |
| Setup.UpdateYamlConfigVaultPath | cmd/setup/main.go:138-186 | only the configuration file and its backup may change; a read failure and a rewrite failure change nothing; otherwise the backup comes first and the file is rewritten with obsidian_vault_path set whenever it can be written; success means the file holds that rewrite |
| Setup.UpdateClaudeDesktopConfig | cmd/setup/main.go:190-250 | only the JSON configuration and its backup may change; a read failure and a rewrite failure change nothing; otherwise the backup comes first and the file is rewritten with OBSIDIAN_VAULT_PATH set in the server's env whenever it can be written; success means the file holds that rewrite |
| Setup.SetupVault | cmd/setup/main.go:55-105 | a path that cannot be resolved changes nothing; only the two configuration files and their backups can change, and the JSON one is not touched when the config.yaml update failed; the configuration files change only once every directory is in place; on success both files hold their rewrites for the vault's absolute path and, when no regular file was in the way, the vault passes every directory check of the configuration loader |
| Setup.UpdateConfigs | cmd/setup/main.go:90-99 | config.yaml is updated first and its failure returns before the JSON file is touched; on success both files were present and hold their rewrites for the vault; no directory changes |
| Setup.ConfigKeysApart | cmd/setup/main.go:21-22 | config.yaml and its backup are entries apart from the Claude Desktop config.json and its backup |
| McpClient.Candidates | cmd/tools/client.go:56-63 | there are three candidates, the first of them the path as given |
| McpClient.FirstExistingSpec | cmd/tools/client.go:64-71 | every path before the one chosen is missing; when none is chosen, all are missing |
| McpClient.FindCandidate | cmd/tools/client.go:64-71 | the candidate loop returns the first one that exists |
| McpClient.RootSearchSpec | cmd/tools/client.go:73-95 | the go.mod search goes upwards: the directories below the one it settles on do not settle it; when it settles on none, no directory does |
| McpClient.AncestorSteps | cmd/tools/client.go:77 | the search starts at the clean working directory; each filepath.Dir steps one directory up; it reaches "/" and never "." |
| McpClient.SearchStep | cmd/tools/client.go:77-87 | one turn of the loop returns the config path below the directory exactly when go.mod and the config path both exist there; otherwise it moves one directory up and reports whether the loop condition stops there |
| McpClient.FindProjectRoot | cmd/tools/client.go:73-95 | the loop returns the config path below the first ancestor that holds go.mod and the config file, or nothing |
| McpClient.ClientFor | cmd/tools/client.go:51-105 | the error holds exactly when the resolved config path does not exist, and it names that path; any other Stat outcome lets the client through |
| McpClient.EmptyConfigSkipped | cmd/tools/client.go:56-70 | an empty `--config` is relative and never exists as a path, so the first candidate found, if any, is a later one: "../.." or ".." |
| McpClient.SearchOrder | cmd/tools/client.go:56-71 | an absolute path is used as it is; a relative one found among the candidates is the first that exists |
| McpClient.NotFoundMeansNothingExists | cmd/tools/client.go:56-102 | "config file not found" means that no candidate and no go.mod ancestor held the file |
| McpClient.NewClient | cmd/tools/client.go:51-105 | the method computes ClientFor |
| McpClient.ToolCallRoundTrip | cmd/tools/client.go:109-117 | the request is a JSON-RPC 2.0 call with an id, from which the server reads back exactly the tool name and arguments sent |
| McpClient.FirstWhereSpec | cmd/tools/client.go:166-178 | no line before the index chosen qualifies; when none is chosen, no line does |
| McpClient.ScanResponse | cmd/tools/client.go:166-178 | the scanner loop keeps the first trimmed line starting with "{", or "" |
| McpClient.CallResultSpec | cmd/tools/client.go:166-190 | without a JSON line the call fails with "no valid JSON response received"; otherwise the answer is the decoding of the first JSON line, and no earlier line is JSON |
| McpClient.CallTool | cmd/tools/client.go:108-191 | the method computes that result |
| McpClient.PrettyPrint | cmd/tools/client.go:194-225 | an error response gives "MCP error: <message>" with its code and data; a text content is reported exactly when there is no error and the first content is text; no result and no error prints nothing |
| McpClient.TextResultPrints | cmd/tools/client.go:204-221 | a text tool result without an error prints exactly its text |
| NoteCommands.DefaultedKeeps | cmd/tools/create.go:47-92 | a flag the user supplied is never replaced; update never touches the content |
| NoteCommands.DefaultedFills | cmd/tools/create.go:47-92 | each empty flag gets its default from the path; empty tags become the category and the subject as defaulted; content is filled in, from the defaulted title, only for create |
| NoteCommands.ApplyDefaults | cmd/tools/create.go:47-92 | the step-by-step defaulting computes Defaulted |
| NoteCommands.DefaultsIdempotent | cmd/tools/create.go:47-92 | defaulting twice changes nothing |
| NoteCommands.DefaultCategorySpec | cmd/tools/create.go:58-66 | a path without a '/' gives "general"; otherwise the category is the first directory of the path |
| NoteCommands.FileNameSpec | cmd/tools/create.go:47-75 | the file name has no '/', is the whole path when there is no '/' and otherwise its final part; the subject is the file name without ".md" |
| NoteCommands.DefaultTitleShape | cmd/tools/create.go:47-56 | the default title is as long as the subject and has no '_' |
| NoteCommands.TitleKeepsOrCapitalises | cmd/tools/create.go:54 | each character of the title is the same character of the input or its capital |
| NoteCommands.MetadataMap | cmd/tools/create.go:95-102 | the metadata object has exactly the six fields the server reads |
| NoteCommands.NoteArguments | cmd/tools/create.go:104-109 | the tool arguments are exactly the path, the metadata object and the content |
| NoteCommands.ServerReadsMetadata | cmd/tools/create.go:95-109 | the server accepts the metadata sent exactly when the category, confidence and status are listed values, and then reads back the same fields with the category as primary subject |
| NoteCommands.DefaultsAllowed | cmd/tools/create.go:82-88 | when neither is given, the default confidence and status are listed values |
| NoteCommands.CallAndReport | cmd/tools/create.go:111-116 | the request sent is the tools/call for the arguments; a call error becomes "failed to call <tool>: ..."; otherwise the report is PrettyPrint's |
| NoteCommands.RunCreate | cmd/tools/create.go:38-117 | a client error fails with "failed to create client: ..."; otherwise create_note is called with the defaulted arguments, content filled in; a failed call gives "failed to call create_note: ..." with nothing printed, and a response is reported as PrettyPrint reports it |
| NoteCommands.RunUpdate | cmd/tools/update.go:36-119 | a client error fails first; empty content fails with "content is required for update" before any call; otherwise update_note is called with the defaulted arguments; a failed call gives "failed to call update_note: ..." with nothing printed, and a response is reported as PrettyPrint reports it |
| NoteCommands.UpdateMatchesCreate | cmd/tools/update.go:53-94 | with content given, update sends the same arguments as create |
| Drive.CredsPathShape | runtime/storage/drive/utils.go:16-22 | for an absolute working directory the credentials path is absolute, clean and names .credentials.json directly inside it |
| Drive.ConfigDirShape | runtime/storage/drive/utils.go:41-48 | the configuration directory is absolute, clean and directly inside home |
| Drive.InConfigDir | runtime/storage/drive/utils.go:24-39 | a file joined below the configuration directory is that directory, '/' and the file |
| Drive.HomePathsShape | runtime/storage/drive/utils.go:24-39 | the token and the drive configuration are absolute, clean, and directly inside the configuration directory |
| Drive.TokenAndConfigApart | runtime/storage/drive/utils.go:24-39 | the token and configuration paths differ and both lie below the configuration directory |
| Drive.EnsureConfigDir | runtime/storage/drive/utils.go:41-48 | a home-directory failure changes nothing; otherwise EnsureDirExists on the configuration directory with mode 0700 and its four outcomes; success means the directory exists |
| Resources.McpServer.AddResource | runtime/mcp/resources/files/vault.go:94 | the resource is stored under its URI, replacing any earlier one |
| Resources.Entries | runtime/mcp/resources/files/vault.go:79-92 | one entry per file found, in order, each mapping the file to its URI, name, description, MIME type and read handler |
| Resources.AddedSpec | runtime/mcp/resources/files/vault.go:94 | after registering a list, a URI is present exactly when it was before or is in the list, keeps its old entry when not in the list, and otherwise has the last entry with it |
| Resources.RegisterFile | runtime/mcp/resources/files/vault.go:69-94 | adds exactly the entry of one file |
| Resources.ScanEntry | runtime/mcp/resources/files/vault.go:54-100 | the walk loop reports the walk's error and adds exactly the entries of the files the walk finds |
| Resources.ScanRoot | runtime/mcp/resources/files/vault.go:50-100 | a root that cannot be read registers nothing and succeeds; otherwise the entries of the walk are added and its error is wrapped |
| Resources.RegisterVault | runtime/mcp/resources/files/vault.go:18-103 | a path that cannot be resolved fails with nothing registered; otherwise the resources and the verdict are those of the scan of the resolved root |
| Resources.RegisterRules | runtime/mcp/resources/register.go:138-211 | adds the rules resource, as Markdown served from memory, and cannot fail |
| Resources.Register | runtime/mcp/resources/register.go:20-111 | the rules resource is registered first, then the vault scan runs on top of it |
| Resources.EntriesShape | runtime/mcp/resources/files/vault.go:79-92 | every file resource has a "file:///" URI, a name that is not hidden, the MIME type of that name and a handler that reads the file |
| Resources.VisibleRegistered | runtime/mcp/resources/files/vault.go:54-67 | every visible file of the vault is registered under its URI |
| Resources.RegisteredVisible | runtime/mcp/resources/files/vault.go:54-67 | every URI the scan adds belongs to a visible file |
| Resources.RulesSurviveScan | runtime/mcp/resources/register.go:20-32 | the rules resource is still present after the scan, since no file URI starts with "rules://" |
| Resources.ReadResource | runtime/mcp/resources/register.go:195-204 | the rules URI serves the rules text; a file resource succeeds exactly when its file can be read, with its bytes, and otherwise fails with "failed to read resource content for <uri>: ..." |
| Resources.ReadFileResource | runtime/mcp/resources/files/vault.go:79-92 | reading a registered file resource returns the file's bytes under the resource's URI and MIME type |
| Vault.SubDirsAreNames | cmd/setup/main.go:25 | notes, meta and screenshots are distinct single names |
| Paths.CleanIdempotent | runtime/utils/files.go:103 | filepath.Clean is idempotent |
| Paths.AbsClean | runtime/utils/files.go:120-129 | filepath.Abs returns a clean path |
| Paths.JoinSplit | cmd/tools/create.go:58-66 | joining the parts of a split with "/" gives the string back |

## Left out

- `os.Getwd` is a rooted working directory that does not fail. The model never takes the error branches of `filepath.Abs` and `os.Getwd`.
- The CLI's subprocess is a function from the request line to the server's output lines. Failures to start it, to open its pipes or to write to it are not modelled, and neither are `json.Marshal` failures.
- The scanner's line splitting and its token-size limit are not modelled: the server's output arrives as lines.
- PrettyPrint's console formatting becomes a `Report` value: what it prints, not how.
- Logging (zap, the verbose flag) has no effect on results and is left out.
- Cobra's required-flag check and argument parsing are left out: the commands start from parsed flags.
- The YAML and JSON codecs are parameters. The rewrite lemmas assume a codec that reads back what it writes.
- GoStrings.ToLower, GoStrings.Title: case mapping is modelled for ASCII letters only; other characters map to themselves.
- Screenshots.View: `utils.CompressImage` is a parameter; the image decoding, resizing and JPEG encoding are not modelled.
- The Drive REST API and OAuth flow are left out: they need the network.
- loadDriveConfig, LoadToken, SaveToken and LoadCredentials (`runtime/storage/drive/utils.go:51-116`) are left out. They are local file reads and writes, but their results are `oauth2.Token` and `oauth2.Config` values built by the oauth2 and Google libraries' JSON decoding, which are not part of this model.
- Concurrency and file permissions are not modelled. A permission failure is a fixed set of denied entries that does not change.
- `filepath.WalkDir` sorts directory entries; the model takes the entries in the order the tree gives them. Symbolic links are not modelled.
- JSON numbers are integers in the model; no floating point.
- Base64.RoundTrip: the decoder it is proved against is the strict one, which also refuses non-zero trailing bits; the server itself never decodes.
- Files.EnsureDirExists: its "failed to create directory" branch (`runtime/utils/files.go:153-157`) is taken in the model only for the empty path, which stat and mkdir both reject. Permissions are one fixed set of denied entries that blocks stat and mkdir alike, so any other entry that stat reports missing can be created. A directory that can be searched but not written to is not modelled.
- Configuration.UpdateYamlField, Configuration.UpdateClaudeDesktopEnvVar: for the same reason their write-failure branch is never taken once the read succeeded (Configuration.ReadableIsWritable); only the backup write can fail.
- Tools.RequireString: the exact error texts of mcp-go's `RequireString` are not modelled; its code is not part of this model.
- `runtime/mcp/tools/create.go:106,112` call `utils.ValidateNotePath` and `utils.BuildSecureNotePath(vault, path)`, which `runtime/utils/files.go` does not define. The model reads them as ValidatePath and BuildSecurePath with the notes directory.
- Configuration.UpdateYamlField, Setup.UpdateYamlConfigVaultPath: when config.yaml is empty or holds only `null`, Go's `yaml.Unmarshal` leaves the map nil, and the assignment at `cmd/config/config.go:125` (and `cmd/setup/main.go:156`) panics. The model's YAML decoder parameter returns a map, so the model does not panic there and rewrites the file from the decoder's map instead.
- Setup.SetupVault: the loops run over the joined paths; that each joined path resolves below the vault is stated for the default names only.
- `utils.IsDir` is modelled as ValidateDir's Stat-based test.
- Drive.CredsPathShape, Drive.HomePathsShape: they assume an absolute working or home directory; a relative one is resolved only by the functions themselves.
- The rules resource's text is a parameter: it is constant prose from `runtime/mcp/resources/rules`.
- mcp-go's `AddResource` is modelled as a map keyed by URI; the server library is not part of this model.
- `filepath.Rel` is modelled for paths below the walk root only, where it cannot fail.
- register.go's `getMimeType` (`runtime/mcp/resources/register.go:113-135`) has the same text as `utils.GetMimeType` and is modelled by Files.GetMimeType.
- `runtime/mcp/tools/screenshots/list.go` and `download.go`, and the handler registration boilerplate, are outside the modelled core.
