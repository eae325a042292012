/** The MCP resources of the server (runtime/mcp/resources): every visible
    file of the vault becomes a resource "file:///<path below the vault>"
    whose handler reads that file, and Register first adds the spoiler
    protection rules. The server's resource table is a class; the directory
    tree WalkDir finds at a path, mime.TypeByExtension and the rules text
    are parameters. */
module Resources {
  import opened Wrappers
  import opened GoStrings
  import opened Paths
  import opened Fs
  import opened Files

  datatype Resource = Resource(uri: string, name: string, description: string, mimeType: string)

  /** What a resource's handler does when read: read the file at `path`,
      or serve the rules text. */
  datatype Handler = ReadsFile(path: string, mimeType: string) | ServesRules

  datatype Registered = Registered(resource: Resource, handler: Handler)

  /** mcp.TextResourceContents; the text is the file's bytes as read. */
  datatype Contents = TextContents(uri: string, mimeType: string, text: seq<byte>)

  /** The resource table of the MCP server: AddResource keys it by URI, a
      later resource replacing an earlier one with the same URI. */
  class McpServer {
    var resources: map<string, Registered>

    constructor ()
      ensures resources == map[]
    {
      resources := map[];
    }

    method AddResource(r: Resource, h: Handler)
      modifies this
      ensures resources == old(resources)[r.uri := Registered(r, h)]
    {
      resources := resources[r.uri := Registered(r, h)];
    }
  }

  // ---------------------------------------------------------------------
  // One resource per file

  const FileScheme := "file:///"
  const DescriptionPrefix := "Meta File resource: "

  /** What the walk callback registers for the file f found below absRoot:
      its slash-separated path below the root names the URI and the
      description, its entry name names the resource and picks the MIME
      type, and the handler reads the path WalkDir reached it by. */
  function FileEntry(absRoot: string, lookup: string -> string, f: Found): Registered {
    var rel := RelString(f.rel);
    var mimeType := MimeType(lookup, f.name);
    Registered(Resource(FileScheme + rel, f.name, DescriptionPrefix + rel, mimeType),
      ReadsFile(WalkPath(absRoot, f.rel), mimeType))
  }

  function Entries(absRoot: string, lookup: string -> string, found: seq<Found>): (r: seq<Registered>)
    ensures |r| == |found|
    ensures forall i :: 0 <= i < |found| ==> r[i] == FileEntry(absRoot, lookup, found[i])
  {
    if found == [] then [] else [FileEntry(absRoot, lookup, found[0])] + Entries(absRoot, lookup, found[1..])
  }

  /** The table after adding rs in order. */
  function Added(m: map<string, Registered>, rs: seq<Registered>): map<string, Registered>
    decreases |rs|
  {
    if rs == [] then m else Added(m[rs[0].resource.uri := rs[0]], rs[1..])
  }

  lemma {:induction false} EntriesAppend(absRoot: string, lookup: string -> string, a: seq<Found>, b: seq<Found>)
    ensures Entries(absRoot, lookup, a + b) == Entries(absRoot, lookup, a) + Entries(absRoot, lookup, b)
    decreases |a|
  {
    if a == [] {
      assert a + b == b;
    } else {
      assert (a + b)[0] == a[0];
      assert (a + b)[1..] == a[1..] + b;
      EntriesAppend(absRoot, lookup, a[1..], b);
    }
  }

  lemma {:induction false} AddedAppend(m: map<string, Registered>, a: seq<Registered>, b: seq<Registered>)
    ensures Added(m, a + b) == Added(Added(m, a), b)
    decreases |a|
  {
    if a == [] {
      assert a + b == b;
    } else {
      assert (a + b)[0] == a[0];
      assert (a + b)[1..] == a[1..] + b;
      AddedAppend(m[a[0].resource.uri := a[0]], a[1..], b);
    }
  }

  /** Adding resources in order: a URI is in the table exactly when it was
      there before or one of rs has it, and the last of rs with that URI
      is the one kept. */
  lemma {:induction false} AddedSpec(m: map<string, Registered>, rs: seq<Registered>, u: string)
    ensures u in Added(m, rs) <==> (u in m || exists i :: 0 <= i < |rs| && rs[i].resource.uri == u)
    ensures (forall i :: 0 <= i < |rs| ==> rs[i].resource.uri != u) && u in m ==> Added(m, rs)[u] == m[u]
    ensures forall i :: (0 <= i < |rs| && rs[i].resource.uri == u
      && forall j :: i < j < |rs| ==> rs[j].resource.uri != u) ==> u in Added(m, rs) && Added(m, rs)[u] == rs[i]
    decreases |rs|
  {
    if rs != [] {
      var m' := m[rs[0].resource.uri := rs[0]];
      AddedSpec(m', rs[1..], u);
      if exists i :: 0 <= i < |rs| && rs[i].resource.uri == u {
        var i :| 0 <= i < |rs| && rs[i].resource.uri == u;
        if i > 0 {
          assert rs[1..][i - 1] == rs[i];
        }
      }
      forall i | 0 <= i < |rs| && rs[i].resource.uri == u
        && (forall j :: i < j < |rs| ==> rs[j].resource.uri != u)
        ensures u in Added(m, rs) && Added(m, rs)[u] == rs[i]
      {
        if i > 0 {
          assert rs[1..][i - 1] == rs[i];
        } else {
          assert forall j :: 0 <= j < |rs[1..]| ==> rs[1..][j] == rs[j + 1];
        }
      }
    }
  }

  // ---------------------------------------------------------------------
  // The walk

  /** One child of the walk loop: its walk extends the children's walk so
      far, and its entries are added after theirs. */
  lemma ScanStep(m: map<string, Registered>, absRoot: string, lookup: string -> string,
                 kids: seq<Entry>, i: nat, rel: seq<string>)
    requires i < |kids| && WalkKids(kids[..i], rel).error.None?
    ensures var a := Walk(kids[i], rel + [kids[i].name]);
      WalkKids(kids[..i + 1], rel).error == a.error
      && Added(m, Entries(absRoot, lookup, WalkKids(kids[..i + 1], rel).found))
         == Added(Added(m, Entries(absRoot, lookup, WalkKids(kids[..i], rel).found)), Entries(absRoot, lookup, a.found))
  {
    var k := kids[i];
    var before := WalkKids(kids[..i], rel).found;
    var a := Walk(k, rel + [k.name]);
    assert kids[..i + 1] == kids[..i] + [k];
    WalkKidsSnoc(kids[..i], k, rel);
    EntriesAppend(absRoot, lookup, before, a.found);
    AddedAppend(m, Entries(absRoot, lookup, before), Entries(absRoot, lookup, a.found));
  }

  /** The walk callback on a file: GetMimeType on the entry name, then
      AddResource. */
  method RegisterFile(s: McpServer, absRoot: string, lookup: string -> string, f: Found)
    modifies s
    ensures s.resources == old(s.resources)[FileEntry(absRoot, lookup, f).resource.uri := FileEntry(absRoot, lookup, f)]
  {
    var relativePath := RelString(f.rel);
    var resourceURI := FileScheme + relativePath;
    var resourceDescription := DescriptionPrefix + relativePath;
    var mimeType := GetMimeType(lookup, f.name);
    var resource := Resource(resourceURI, f.name, resourceDescription, mimeType);
    s.AddResource(resource, ReadsFile(WalkPath(absRoot, f.rel), mimeType));
  }

  /** filepath.WalkDir with the resource callback, from entry e at rel
      below the root: resources are added as the files are reached, so an
      aborted walk keeps those added before the failing directory. */
  method ScanEntry(s: McpServer, absRoot: string, lookup: string -> string, e: Entry, rel: seq<string>)
    returns (err: Option<string>)
    modifies s
    ensures err == Walk(e, rel).error
    ensures s.resources == Added(old(s.resources), Entries(absRoot, lookup, Walk(e, rel).found))
    decreases e
  {
    if ShouldSkipPath(e.name) {
      return None;
    }
    match e {
      case File(n) =>
        RegisterFile(s, absRoot, lookup, Found(rel, n));
        return None;
      case Unreadable(_, msg) =>
        return Some(msg);
      case Dir(_, kids) =>
        var i := 0;
        while i < |kids|
          invariant 0 <= i <= |kids|
          invariant WalkKids(kids[..i], rel).error.None?
          invariant s.resources == Added(old(s.resources), Entries(absRoot, lookup, WalkKids(kids[..i], rel).found))
        {
          var k := kids[i];
          ScanStep(old(s.resources), absRoot, lookup, kids, i, rel);
          var sub := ScanEntry(s, absRoot, lookup, k, rel + [k.name]);
          if sub.Some? {
            KidsPrefixAbort(kids, i + 1, rel);
            return sub;
          }
          i := i + 1;
        }
        assert kids[..i] == kids;
        return None;
    }
  }

  function WalkError(absRoot: string, e: string): string {
    "error walking directory " + absRoot + " for resources: " + e
  }

  /** filepath.WalkDir on the root: when the root cannot be read the
      callback gets no entry and returns nil, so nothing is added and no
      error comes back. */
  method ScanRoot(s: McpServer, absRoot: string, lookup: string -> string, top: Result<Entry>)
    returns (r: Status)
    modifies s
    ensures top.Err? ==> r == Done && s.resources == old(s.resources)
    ensures top.Ok? ==> s.resources == Added(old(s.resources), Entries(absRoot, lookup, Walk(top.value, []).found))
    ensures top.Ok? ==> r == (if Walk(top.value, []).error.Some?
      then Failed(WalkError(absRoot, Walk(top.value, []).error.value)) else Done)
  {
    if top.Err? {
      return Done;
    }
    var err := ScanEntry(s, absRoot, lookup, top.value, []);
    if err.Some? {
      return Failed(WalkError(absRoot, err.value));
    }
    return Done;
  }

  /** RegisterVault: resolve the root, then scan it. `tree` gives what
      WalkDir finds at a path. */
  method RegisterVault(s: McpServer, cwd: string, rootDir: string, home: Result<string>,
                       tree: string -> Result<Entry>, lookup: string -> string) returns (r: Status)
    requires Rooted(cwd)
    modifies s
    ensures ResolveAndCleanPath(cwd, rootDir, home).Err? ==>
      r == Failed(ResolveAndCleanPath(cwd, rootDir, home).error) && s.resources == old(s.resources)
    ensures ResolveAndCleanPath(cwd, rootDir, home).Ok? ==>
      var absRoot := ResolveAndCleanPath(cwd, rootDir, home).value;
      Scanned(old(s.resources), absRoot, lookup, tree(absRoot)) == (s.resources, r)
  {
    var resolved := ResolveAndCleanPath(cwd, rootDir, home);
    if resolved.Err? {
      return Failed(resolved.error);
    }
    r := ScanRoot(s, resolved.value, lookup, tree(resolved.value));
  }

  /** The table and the result after scanning `top` below absRoot. */
  function Scanned(m: map<string, Registered>, absRoot: string, lookup: string -> string, top: Result<Entry>)
    : (map<string, Registered>, Status)
  {
    if top.Err? then (m, Done)
    else
      var w := Walk(top.value, []);
      (Added(m, Entries(absRoot, lookup, w.found)),
       if w.error.Some? then Failed(WalkError(absRoot, w.error.value)) else Done)
  }

  // ---------------------------------------------------------------------
  // Register and the rules resource

  const RulesURI := "rules://blue-prince/spoiler-protection"
  const RulesName := "Blue Prince Spoiler Protection Rules"
  const RulesDescription := "CRITICAL rules for spoiler-free Blue Prince assistance that the assistant must follow at all times"

  function RulesEntry(): Registered {
    Registered(Resource(RulesURI, RulesName, RulesDescription, Markdown), ServesRules)
  }

  /** registerSpoilerPreventionRules: it adds the rules resource and has
      no way to fail. */
  method RegisterRules(s: McpServer)
    modifies s
    ensures s.resources == old(s.resources)[RulesURI := RulesEntry()]
  {
    var rulesResource := Resource(RulesURI, RulesName, RulesDescription, Markdown);
    s.AddResource(rulesResource, ServesRules);
  }

  /** Register: the rules resource first, then RegisterVault's resolution
      and scan (with register.go's copy of GetMimeType, the same
      function). */
  method Register(s: McpServer, cwd: string, rootDir: string, home: Result<string>,
                  tree: string -> Result<Entry>, lookup: string -> string) returns (r: Status)
    requires Rooted(cwd)
    modifies s
    ensures ResolveAndCleanPath(cwd, rootDir, home).Err? ==>
      r == Failed(ResolveAndCleanPath(cwd, rootDir, home).error)
      && s.resources == old(s.resources)[RulesURI := RulesEntry()]
    ensures ResolveAndCleanPath(cwd, rootDir, home).Ok? ==>
      var absRoot := ResolveAndCleanPath(cwd, rootDir, home).value;
      Scanned(old(s.resources)[RulesURI := RulesEntry()], absRoot, lookup, tree(absRoot)) == (s.resources, r)
  {
    RegisterRules(s);
    r := RegisterVault(s, cwd, rootDir, home, tree, lookup);
  }

  // ---------------------------------------------------------------------
  // What the scan registers

  /** Every file resource has a "file:///" URI, a non-hidden name and the
      MIME type GetMimeType gives that name. */
  lemma {:induction false} EntriesShape(absRoot: string, lookup: string -> string, e: Entry, rel: seq<string>)
    ensures var rs := Entries(absRoot, lookup, Walk(e, rel).found);
      forall i :: 0 <= i < |rs| ==>
        HasPrefix(rs[i].resource.uri, FileScheme)
        && !ShouldSkipPath(rs[i].resource.name)
        && rs[i].resource.mimeType == MimeType(lookup, rs[i].resource.name)
        && rs[i].handler.ReadsFile?
  {
    var found := Walk(e, rel).found;
    var rs := Entries(absRoot, lookup, found);
    WalkSkipsHidden(e, rel);
    forall i | 0 <= i < |rs|
      ensures HasPrefix(rs[i].resource.uri, FileScheme)
    {
      assert rs[i].resource.uri == FileScheme + RelString(found[i].rel);
    }
  }

  /** Every file of `found` has its URI in the table after adding their
      entries. */
  lemma FoundRegistered(m: map<string, Registered>, absRoot: string, lookup: string -> string,
                        found: seq<Found>, f: Found)
    requires f in found
    ensures FileScheme + RelString(f.rel) in Added(m, Entries(absRoot, lookup, found))
  {
    var rs := Entries(absRoot, lookup, found);
    var i :| 0 <= i < |found| && found[i] == f;
    assert rs[i].resource.uri == FileScheme + RelString(f.rel);
    AddedSpec(m, rs, FileScheme + RelString(f.rel));
  }

  /** A URI the entries of `found` added to the table holds the entry of
      one of those files, with that URI. */
  lemma RegisteredFound(m: map<string, Registered>, absRoot: string, lookup: string -> string,
                        found: seq<Found>, u: string)
    requires u in Added(m, Entries(absRoot, lookup, found)) && u !in m
    ensures exists g :: (g in found && u == FileScheme + RelString(g.rel)
      && Added(m, Entries(absRoot, lookup, found))[u] == FileEntry(absRoot, lookup, g))
  {
    var rs := Entries(absRoot, lookup, found);
    AddedSpec(m, rs, u);
    var i := LastWith(rs, u);
    assert found[i] in found;
    assert rs[i] == FileEntry(absRoot, lookup, found[i]);
  }

  /** A scan that does not abort registers every visible file (a regular
      file reached through non-hidden names only) under its URI. */
  lemma VisibleRegistered(m: map<string, Registered>, absRoot: string, lookup: string -> string, top: Entry, f: Found)
    requires Walk(top, []).error.None? && Visible(top, [], f)
    ensures FileScheme + RelString(f.rel) in Scanned(m, absRoot, lookup, Ok(top)).0
  {
    WalkReportsVisible(top, []);
    FoundRegistered(m, absRoot, lookup, Walk(top, []).found, f);
  }

  /** Whatever a scan that does not abort adds to the table came from a
      visible file with that URI. */
  lemma RegisteredVisible(m: map<string, Registered>, absRoot: string, lookup: string -> string, top: Entry, u: string)
    requires Walk(top, []).error.None?
    requires u in Scanned(m, absRoot, lookup, Ok(top)).0 && u !in m
    ensures exists f :: (Visible(top, [], f) && u == FileScheme + RelString(f.rel)
      && Scanned(m, absRoot, lookup, Ok(top)).0[u] == FileEntry(absRoot, lookup, f))
  {
    var found := Walk(top, []).found;
    RegisteredFound(m, absRoot, lookup, found, u);
    var g :| g in found && u == FileScheme + RelString(g.rel)
      && Added(m, Entries(absRoot, lookup, found))[u] == FileEntry(absRoot, lookup, g);
    WalkReportsVisible(top, []);
    assert Visible(top, [], g);
  }

  /** The index of the last of rs with URI u. */
  function LastWith(rs: seq<Registered>, u: string): (i: nat)
    requires exists i :: 0 <= i < |rs| && rs[i].resource.uri == u
    ensures i < |rs| && rs[i].resource.uri == u
    ensures forall j :: i < j < |rs| ==> rs[j].resource.uri != u
    decreases |rs|
  {
    var n := |rs| - 1;
    if rs[n].resource.uri == u then n
    else
      var i :| 0 <= i < |rs| && rs[i].resource.uri == u;
      assert rs[..n][i] == rs[i];
      LastWith(rs[..n], u)
  }

  /** The scan never replaces the rules resource: no file URI is the
      rules URI. */
  lemma RulesSurviveScan(m: map<string, Registered>, absRoot: string, lookup: string -> string, top: Result<Entry>)
    ensures var table := Scanned(m[RulesURI := RulesEntry()], absRoot, lookup, top).0;
      RulesURI in table && table[RulesURI] == RulesEntry()
  {
    if top.Ok? {
      var rs := Entries(absRoot, lookup, Walk(top.value, []).found);
      EntriesShape(absRoot, lookup, top.value, []);
      assert forall i :: 0 <= i < |rs| ==> rs[i].resource.uri != RulesURI by {
        forall i | 0 <= i < |rs|
          ensures rs[i].resource.uri != RulesURI
        {
          assert rs[i].resource.uri[..|FileScheme|] == FileScheme;
          assert RulesURI[0] != FileScheme[0];
        }
      }
      AddedSpec(m[RulesURI := RulesEntry()], rs, RulesURI);
    }
  }

  // ---------------------------------------------------------------------
  // Reading a resource

  /** A handler asked for uri: the file's bytes, or the rules text, as a
      single content item with the handler's MIME type under the
      requested URI; a file that cannot be read gives a wrapped error. */
  function ReadResource(fs: FileSystem, h: Handler, uri: string, rulesText: seq<byte>): (r: Result<seq<Contents>>)
    reads fs
    ensures h.ServesRules? ==> r == Ok([TextContents(uri, Markdown, rulesText)])
    ensures h.ReadsFile? ==> (r.Ok? <==> fs.ReadFile(h.path).Got?)
    ensures h.ReadsFile? && r.Ok? ==> r.value == [TextContents(uri, h.mimeType, fs.ReadFile(h.path).value)]
    ensures h.ReadsFile? && r.Err? ==>
      r.error == "failed to read resource content for " + uri + ": " + fs.ReadFile(h.path).err.Text()
  {
    match h
    case ServesRules => Ok([TextContents(uri, Markdown, rulesText)])
    case ReadsFile(path, mimeType) =>
      match fs.ReadFile(path)
      case IoErr(e) => Err("failed to read resource content for " + uri + ": " + e.Text())
      case Got(data) => Ok([TextContents(uri, mimeType, data)])
  }

  /** Reading the resource registered for a found file reads that file at
      the path the walk reached it by. */
  lemma ReadFileResource(fs: FileSystem, absRoot: string, lookup: string -> string, f: Found,
                         uri: string, rulesText: seq<byte>)
    ensures var r := ReadResource(fs, FileEntry(absRoot, lookup, f).handler, uri, rulesText);
      (r.Ok? <==> fs.ReadFile(WalkPath(absRoot, f.rel)).Got?)
      && (r.Ok? ==> r.value == [TextContents(uri, MimeType(lookup, f.name), fs.ReadFile(WalkPath(absRoot, f.rel)).value)])
  {
  }
}
