/** The path-confinement layer and file helpers of runtime/utils: note path
    validation, confined path building, home-directory expansion, the
    hidden-entry walk, directory creation and MIME detection, plus the
    string-parameter extraction of runtime/utils/mcp.go. */
module Files {
  import opened Wrappers
  import opened GoStrings
  import opened Paths
  import opened Fs
  import opened Values

  // ---------------------------------------------------------------------
  // ValidatePath and BuildSecurePath

  const EmptyPathError := "note path cannot be empty"

  function InvalidPathError(p: string): string {
    "invalid note path: '" + p + "'. Must be a relative path within the vault"
  }

  /** ValidatePath: clean a client path, refusing the empty path, absolute
      paths and any path whose clean form starts with "..". */
  function ValidatePath(p: string): (r: Result<string>)
    ensures p == "" ==> r == Err(EmptyPathError)
    ensures r.Ok? ==> r.value == Clean(p)
    ensures r.Ok? <==> p != "" && !HasPrefix(Clean(p), "..") && !Rooted(Clean(p))
    ensures r.Err? && p != "" ==> r.error == InvalidPathError(p)
  {
    if p == "" then Err(EmptyPathError)
    else
      var c := Clean(p);
      if HasPrefix(c, "..") || Rooted(c) then Err(InvalidPathError(p)) else Ok(c)
  }

  /** What an accepted path is: clean, relative, made of names only. */
  predicate ConfinedName(c: string) {
    Clean(c) == c && !Rooted(c) && AllNormal(Norm(c)) && ".." !in Split(c)
  }

  /** Whatever ValidatePath accepts has no ".." segment and cleans to
      itself. */
  lemma ValidatePathConfined(p: string)
    requires ValidatePath(p).Ok?
    ensures ConfinedName(ValidatePath(p).value)
  {
    var c := Clean(p);
    CleanNoDotDot(p);
    CleanIdempotent(p);
    CleanParse(p);
    SplitRenderNormals(Norm(p));
  }

  /** The clean form of a name like "..notes/x" starts with the two
      characters "..", so ValidatePath refuses it although it stays inside
      the vault. */
  lemma ValidatePathRefusesDotDotNames(name: string)
    requires Normal(name) && HasPrefix(name, "..")
    ensures ValidatePath(name).Err?
    ensures ValidatePath(name).error == InvalidPathError(name)
  {
    SplitNoSlash(name);
    assert name[0] in name;
    assert Fold(false, [], [name]) == Fold(false, [name], []);
    assert Norm(name) == [name];
    assert JoinSep([name]) == name;
  }

  /** ValidatePath is idempotent: what it returns, it accepts unchanged. */
  lemma ValidatePathIdempotent(p: string)
    requires ValidatePath(p).Ok?
    ensures ValidatePath(ValidatePath(p).value) == ValidatePath(p)
  {
    CleanIdempotent(p);
  }

  const AccessDeniedPrefix := "access denied: path '"

  /** BuildSecurePath: join vault, sub-directory and cleaned path, and accept
      the join only if its absolute form has the absolute sub-directory as
      a string prefix. `cwd` is the working directory filepath.Abs uses. */
  function BuildSecurePath(cwd: string, vault: string, sub: string, c: string): (r: Result<string>)
    ensures r.Ok? ==> r.value == Join([vault, sub, c])
    ensures r.Err? ==> r.error == AccessDeniedPrefix + c + "' is outside the notes directory"
  {
    var full := Join([vault, sub, c]);
    var base := Abs(cwd, Join([vault, sub]));
    if HasPrefix(Abs(cwd, full), base) then Ok(full)
    else Err(AccessDeniedPrefix + c + "' is outside the notes directory")
  }

  /** A confined name folds onto any stack as its own segments. */
  lemma FoldConfined(r: bool, st: seq<string>, c: string)
    requires c == "" || ConfinedName(c)
    ensures Fold(r, st, Split(c)) == st + Norm(c)
  {
    if c == "" {
      assert Split(c) == [""];
      assert Fold(r, st, [""]) == Fold(r, st, []);
      assert Fold(false, [], [""]) == Fold(false, [], []);
    } else {
      SplitRenderNormals(Norm(c));
      if Norm(c) == [] {
        assert Fold(r, st, ["."]) == Fold(r, st, []);
      } else {
        FoldNormals(r, st, Norm(c));
      }
    }
  }

  /** The resolved segments of a confined join: the resolved base followed
      by the name's own segments. */
  lemma ConfinedSegments(cwd: string, vault: string, sub: string, c: string)
    requires Normal(sub)
    requires c == "" || ConfinedName(c)
    ensures AbsNorm(cwd, Join([vault, sub, c])) == AbsNorm(cwd, Join([vault, sub])) + Norm(c)
  {
    AbsNormJoin2(cwd, vault, sub);
    AbsNormJoin3(cwd, vault, sub, c);
    FoldConfined(true, AbsNorm(cwd, vault) + [sub], c);
  }

  /** The lexical segments of the text Join([vault, sub, c]) cleans. */
  lemma ConfinedNorm(vault: string, sub: string, c: string)
    requires Normal(sub)
    requires c == "" || ConfinedName(c)
    ensures var q := if vault == "" then sub + "/" + c else vault + "/" + (sub + "/" + c);
      exists st :: Norm(q) == st + [sub] + Norm(c)
  {
    var q := if vault == "" then sub + "/" + c else vault + "/" + (sub + "/" + c);
    var r := Rooted(q);
    SplitNoSlash(sub);
    SplitConcat(sub, c);
    var st: seq<string>;
    if vault == "" {
      st := [];
      FoldAppend(r, [], [sub], Split(c));
    } else {
      SplitConcat(vault, sub + "/" + c);
      FoldAppend(r, [], Split(vault), [sub] + Split(c));
      st := Fold(r, [], Split(vault));
      FoldAppend(r, st, [sub], Split(c));
    }
    assert Fold(r, st, [sub]) == Fold(r, st + [sub], []);
    FoldConfined(r, st + [sub], c);
    assert Norm(q) == st + [sub] + Norm(c);
  }

  lemma EndsInName(st: seq<string>, sub: string, more: seq<string>)
    requires Normal(sub) && AllNormal(more)
    ensures var n := st + [sub] + more; n != [] && Normal(n[|n| - 1])
  {
    var n := st + [sub] + more;
    if more != [] {
      assert n[|n| - 1] == more[|more| - 1];
    }
  }

  /** The directory of a confined join resolves to the parent of the
      join's resolved path. */
  lemma ConfinedDir(cwd: string, vault: string, sub: string, c: string)
    requires Normal(sub)
    requires c == "" || ConfinedName(c)
    ensures var k := AbsNorm(cwd, Join([vault, sub, c]));
      k != [] && AbsNorm(cwd, Paths.Dir(Join([vault, sub, c]))) == k[..|k| - 1]
  {
    var q := if vault == "" then sub + "/" + c else vault + "/" + (sub + "/" + c);
    JoinTriple(vault, sub, c);
    ConfinedNorm(vault, sub, c);
    var st :| Norm(q) == st + [sub] + Norm(c);
    assert AllNormal(Norm(c)) by {
      if c == "" {
        assert Split(c) == [""];
        assert Fold(false, [], [""]) == Fold(false, [], []);
      }
    }
    EndsInName(st, sub, Norm(c));
    AbsNormDir(cwd, q);
  }

  /** When the resolved segments of `full` extend those of a non-empty
      resolved `base`, the absolute path of `full` is that of `base` or
      lies below it at a '/' boundary. */
  lemma ResolvedBelow(cwd: string, full: string, base: string, more: seq<string>)
    requires Rooted(cwd)
    requires AbsNorm(cwd, base) != [] && AbsNorm(cwd, full) == AbsNorm(cwd, base) + more
    ensures Abs(cwd, full) == Abs(cwd, base) || HasPrefix(Abs(cwd, full), Abs(cwd, base) + "/")
  {
    AbsRender(cwd, base);
    AbsRender(cwd, full);
    RenderExtend(AbsNorm(cwd, base), more);
  }

  /** The confinement theorem. For the empty name, or any name ValidatePath
      accepted, BuildSecurePath succeeds, and the resolved path is the
      resolved base followed by the name's own segments: it equals the
      base or lies below `base + "/"`. */
  lemma ConfinedJoin(cwd: string, vault: string, sub: string, c: string)
    requires Rooted(cwd) && Normal(sub)
    requires c == "" || ConfinedName(c)
    ensures BuildSecurePath(cwd, vault, sub, c) == Ok(Join([vault, sub, c]))
    ensures AbsNorm(cwd, Join([vault, sub, c])) == AbsNorm(cwd, Join([vault, sub])) + Norm(c)
    ensures var full, base := Abs(cwd, Join([vault, sub, c])), Abs(cwd, Join([vault, sub]));
      full == base || HasPrefix(full, base + "/")
  {
    ConfinedResolved(cwd, vault, sub, c);
    var full, base := Abs(cwd, Join([vault, sub, c])), Abs(cwd, Join([vault, sub]));
    if full != base {
      PrefixOfPrefix(full, base, "/");
    }
  }

  /** The resolved join is the resolved base followed by the name's own
      segments, so it is the base or lies below `base + "/"`. */
  lemma ConfinedResolved(cwd: string, vault: string, sub: string, c: string)
    requires Rooted(cwd) && Normal(sub)
    requires c == "" || ConfinedName(c)
    ensures AbsNorm(cwd, Join([vault, sub, c])) == AbsNorm(cwd, Join([vault, sub])) + Norm(c)
    ensures var full, base := Abs(cwd, Join([vault, sub, c])), Abs(cwd, Join([vault, sub]));
      full == base || HasPrefix(full, base + "/")
  {
    var fullPath, basePath := Join([vault, sub, c]), Join([vault, sub]);
    ConfinedSegments(cwd, vault, sub, c);
    AbsNormJoin2(cwd, vault, sub);
    ResolvedBelow(cwd, fullPath, basePath, Norm(c));
  }

  /** ValidatePath followed by BuildSecurePath, as every note tool uses
      them, never leaves the base directory. */
  lemma ValidatedPathsStayInside(cwd: string, vault: string, sub: string, p: string)
    requires Rooted(cwd) && Normal(sub)
    requires ValidatePath(p).Ok?
    ensures var c := ValidatePath(p).value;
      BuildSecurePath(cwd, vault, sub, c) == Ok(Join([vault, sub, c]))
      && AbsNorm(cwd, Join([vault, sub, c])) == AbsNorm(cwd, Join([vault, sub])) + Norm(c)
      && ".." !in Split(c)
  {
    ValidatePathConfined(p);
    ConfinedJoin(cwd, vault, sub, ValidatePath(p).value);
  }

  lemma SplitUpName(sibling: string)
    requires Normal(sibling)
    ensures Split("../" + sibling) == ["..", sibling]
  {
    assert "../" + sibling == ".." + "/" + sibling;
    SplitConcat("..", sibling);
    SplitNoSlash("..");
    SplitNoSlash(sibling);
  }

  /** ".." followed by a name replaces the top of a rooted stack. */
  lemma FoldUpName(v: seq<string>, sub: string, sibling: string)
    requires Normal(sub) && Normal(sibling)
    ensures Fold(true, v + [sub], ["..", sibling]) == v + [sibling]
  {
    assert Step(true, v + [sub], "..") == v;
    assert ["..", sibling][1..] == [sibling];
    assert Fold(true, v, [sibling]) == Fold(true, v + [sibling], []);
  }

  /** "../<sibling>" resolves to a sibling of the base directory. */
  lemma SiblingResolves(cwd: string, vault: string, sub: string, sibling: string)
    requires Rooted(cwd) && Normal(sub) && Normal(sibling)
    ensures AbsNorm(cwd, Join([vault, sub, "../" + sibling])) == AbsNorm(cwd, vault) + [sibling]
  {
    SplitUpName(sibling);
    AbsNormJoin3(cwd, vault, sub, "../" + sibling);
    FoldUpName(AbsNorm(cwd, vault), sub, sibling);
  }

  /** A rooted rendering of a stack ending in a name is the rendering of the
      rest, a separator, and the name. */
  lemma RenderLast(v: seq<string>, x: string)
    ensures Render(true, v + [x]) == (if v == [] then "/" else "/" + JoinSep(v) + "/") + x
  {
    assert JoinSep([x]) == x;
    if v == [] {
      assert v + [x] == [x];
    } else {
      JoinSepAppend(v, [x]);
      assert "/" + (JoinSep(v) + "/" + x) == "/" + JoinSep(v) + "/" + x;
    }
  }

  /** Called directly, BuildSecurePath accepts "../<sibling>" when the
      sibling's name starts with the sub-directory's name: the string
      prefix holds although the resolved path is a sibling of the base,
      not below it. ValidatePath refuses such a name. */
  lemma SiblingPassesPrefixCheck(cwd: string, vault: string, sub: string, sibling: string)
    requires Rooted(cwd) && Normal(sub) && Normal(sibling)
    requires sibling != sub && HasPrefix(sibling, sub)
    ensures var c := "../" + sibling;
      && BuildSecurePath(cwd, vault, sub, c).Ok?
      && AbsNorm(cwd, Join([vault, sub, c])) == AbsNorm(cwd, vault) + [sibling]
      && !HasPrefix(Abs(cwd, Join([vault, sub, c])), Abs(cwd, Join([vault, sub])) + "/")
      && ValidatePath(c).Err?
  {
    var c := "../" + sibling;
    var v := AbsNorm(cwd, vault);
    SiblingResolves(cwd, vault, sub, sibling);
    AbsNormJoin2(cwd, vault, sub);
    AbsRender(cwd, Join([vault, sub]));
    AbsRender(cwd, Join([vault, sub, c]));
    var pre := if v == [] then "/" else "/" + JoinSep(v) + "/";
    RenderLast(v, sub);
    RenderLast(v, sibling);
    NameHasPrefix(pre, sub, sibling);
    SiblingRefused(sibling);
  }

  /** A longer name with the same beginning passes a prefix test but not
      a test at the separator. */
  lemma NameHasPrefix(pre: string, sub: string, sibling: string)
    requires '/' !in sibling && sibling != sub && HasPrefix(sibling, sub)
    ensures HasPrefix(pre + sibling, pre + sub)
    ensures !HasPrefix(pre + sibling, pre + sub + "/")
  {
    var full, base := pre + sibling, pre + sub;
    assert full[..|base|] == pre + sibling[..|sub|];
    if HasPrefix(full, base + "/") {
      assert full[|pre| + |sub|] == sibling[|sub|];
      assert sibling[|sub|] in sibling;
    }
  }

  lemma SiblingRefused(sibling: string)
    requires Normal(sibling)
    ensures ValidatePath("../" + sibling).Err?
  {
    var c := "../" + sibling;
    var st := ["..", sibling];
    assert Canonical(false, st);
    assert JoinSep(st) == c;
    RenderParse(false, st);
    assert c[0] == '.';
    assert Clean(c) == c;
    assert c[..2] == "..";
  }

  // ---------------------------------------------------------------------
  // Home directory and configured paths

  /** ExpandTilde: replace the first "~" by the home directory, which
      os.UserHomeDir reports as `home`. */
  function ExpandTilde(path: string, home: Result<string>): (r: Result<string>)
    ensures !HasPrefix(path, "~") ==> r == Ok(path)
    ensures HasPrefix(path, "~") && home.Ok? ==> r == Ok(home.value + path[1..])
    ensures HasPrefix(path, "~") && home.Err? ==>
      r == Err("failed to get user home directory: " + home.error)
  {
    if !HasPrefix(path, "~") then Ok(path)
    else if home.Err? then Err("failed to get user home directory: " + home.error)
    else
      assert path == [path[0]] + path[1..];
      Ok(ReplaceFirst(path, '~', home.value))
  }

  /** ResolveAndCleanPath: expand "~", make absolute against `cwd`, clean. */
  function ResolveAndCleanPath(cwd: string, path: string, home: Result<string>): (r: Result<string>)
    requires Rooted(cwd)
    ensures r.Ok? ==> Rooted(r.value) && Clean(r.value) == r.value
    ensures r.Ok? ==> (ExpandTilde(path, home).Ok?
      && r.value == Render(true, AbsNorm(cwd, ExpandTilde(path, home).value)))
    ensures r.Err? ==> (ExpandTilde(path, home).Err?
      && r.error == "failed to expand path: " + ExpandTilde(path, home).error)
  {
    match ExpandTilde(path, home)
    case Err(e) => Err("failed to expand path: " + e)
    case Ok(expanded) =>
      AbsRender(cwd, expanded);
      AbsClean(cwd, expanded);
      Ok(Clean(Abs(cwd, expanded)))
  }

  // ---------------------------------------------------------------------
  // Walking a directory tree

  /** ShouldSkipPath: an entry whose name starts with "." is hidden. */
  predicate ShouldSkipPath(name: string) {
    HasPrefix(name, ".")
  }

  /** A directory tree as filepath.WalkDir reads it, children in the order
      it visits them. `Unreadable` is a directory whose listing fails. */
  datatype Entry =
    | File(name: string)
    | Dir(name: string, kids: seq<Entry>)
    | Unreadable(name: string, error: string)

  /** A file the walk reports: its segments relative to the root and its
      entry name. */
  datatype Found = Found(rel: seq<string>, name: string)

  /** The files reported before the walk ends, and the error it ended with. */
  datatype Walked = Walked(found: seq<Found>, error: Option<string>)

  /** The callback of ListFiles and of the resource scans under WalkDir:
      hidden entries are skipped (a hidden directory with its whole subtree),
      directories are entered, files reported, and a directory that cannot
      be listed ends the walk. `rel` is the entry's path below the root. */
  function Walk(e: Entry, rel: seq<string>): Walked
    decreases e, 1
  {
    if ShouldSkipPath(e.name) then Walked([], None)
    else match e
      case File(n) => Walked([Found(rel, n)], None)
      case Unreadable(_, msg) => Walked([], Some(msg))
      case Dir(_, kids) => WalkKids(kids, rel)
  }

  function WalkKids(kids: seq<Entry>, rel: seq<string>): Walked
    decreases kids, 0
  {
    if kids == [] then Walked([], None)
    else
      var a := Walk(kids[0], rel + [kids[0].name]);
      if a.error.Some? then a
      else
        var b := WalkKids(kids[1..], rel);
        Walked(a.found + b.found, b.error)
  }

  /** The path WalkDir hands the callback for the entry at `rel` below
      `root`: one filepath.Join per level. */
  function WalkPath(root: string, rel: seq<string>): string
    decreases |rel|
  {
    if rel == [] then root
    else Join([WalkPath(root, rel[..|rel| - 1]), rel[|rel| - 1]])
  }

  /** f is a regular file below e reached only through non-hidden names. */
  ghost predicate Visible(e: Entry, rel: seq<string>, f: Found)
    decreases e
  {
    !ShouldSkipPath(e.name)
    && match e
      case File(n) => f == Found(rel, n)
      case Unreadable(_, _) => false
      case Dir(_, kids) =>
        exists i :: 0 <= i < |kids| && Visible(kids[i], rel + [kids[i].name], f)
  }

  /** A walk that is not aborted reports exactly the visible files. */
  lemma {:induction false} WalkReportsVisible(e: Entry, rel: seq<string>)
    requires Walk(e, rel).error.None?
    ensures forall f :: f in Walk(e, rel).found <==> Visible(e, rel, f)
    decreases e, 1
  {
    if !ShouldSkipPath(e.name) && e.Dir? {
      WalkKidsReportsVisible(e.kids, rel);
    }
  }

  lemma {:induction false} WalkKidsReportsVisible(kids: seq<Entry>, rel: seq<string>)
    requires WalkKids(kids, rel).error.None?
    ensures forall f :: f in WalkKids(kids, rel).found <==>
      exists i :: 0 <= i < |kids| && Visible(kids[i], rel + [kids[i].name], f)
    decreases kids, 0
  {
    if kids != [] {
      var k := kids[0];
      WalkReportsVisible(k, rel + [k.name]);
      WalkKidsReportsVisible(kids[1..], rel);
      forall f
        ensures f in WalkKids(kids, rel).found <==>
          exists i :: 0 <= i < |kids| && Visible(kids[i], rel + [kids[i].name], f)
      {
        if exists i :: 0 <= i < |kids| && Visible(kids[i], rel + [kids[i].name], f) {
          var i :| 0 <= i < |kids| && Visible(kids[i], rel + [kids[i].name], f);
          if i > 0 {
            assert kids[1..][i - 1] == kids[i];
          }
        }
      }
    }
  }

  /** Nothing hidden is ever reported. */
  lemma {:induction false} WalkSkipsHidden(e: Entry, rel: seq<string>)
    ensures forall i :: 0 <= i < |Walk(e, rel).found| ==> !ShouldSkipPath(Walk(e, rel).found[i].name)
    decreases e, 1
  {
    if !ShouldSkipPath(e.name) && e.Dir? {
      WalkKidsSkipsHidden(e.kids, rel);
    }
  }

  lemma {:induction false} WalkKidsSkipsHidden(kids: seq<Entry>, rel: seq<string>)
    ensures forall i :: 0 <= i < |WalkKids(kids, rel).found| ==>
      !ShouldSkipPath(WalkKids(kids, rel).found[i].name)
    decreases kids, 0
  {
    if kids != [] {
      WalkSkipsHidden(kids[0], rel + [kids[0].name]);
      WalkKidsSkipsHidden(kids[1..], rel);
    }
  }

  lemma {:induction false} WalkKidsSnoc(kids: seq<Entry>, k: Entry, rel: seq<string>)
    requires WalkKids(kids, rel).error.None?
    ensures var a := Walk(k, rel + [k.name]);
      WalkKids(kids + [k], rel) == Walked(WalkKids(kids, rel).found + a.found, a.error)
    decreases |kids|
  {
    var a := Walk(k, rel + [k.name]);
    if kids == [] {
      assert kids + [k] == [k];
      assert [k][1..] == [];
      assert a.found + [] == a.found;
    } else {
      var h := kids[0];
      assert (kids + [k])[0] == h;
      assert (kids + [k])[1..] == kids[1..] + [k];
      WalkKidsSnoc(kids[1..], k, rel);
      var ah := Walk(h, rel + [h.name]);
      var rest := WalkKids(kids[1..], rel);
      assert ah.found + (rest.found + a.found) == (ah.found + rest.found) + a.found;
    }
  }

  /** Once a prefix of the children aborts the walk, the whole list does,
      with the same result. */
  lemma {:induction false} KidsPrefixAbort(kids: seq<Entry>, n: nat, rel: seq<string>)
    requires n <= |kids|
    requires WalkKids(kids[..n], rel).error.Some?
    ensures WalkKids(kids, rel) == WalkKids(kids[..n], rel)
    decreases n
  {
    if n > 0 {
      var k := kids[0];
      assert kids[..n][0] == k;
      assert kids[..n][1..] == kids[1..][..n - 1];
      var a := Walk(k, rel + [k.name]);
      if a.error.None? {
        KidsPrefixAbort(kids[1..], n - 1, rel);
      }
    }
  }

  /** filepath.WalkDir driving the skip-and-report callback, from entry `e`
      at `rel` below the root. */
  method WalkDir(e: Entry, rel: seq<string>) returns (w: Walked)
    ensures w == Walk(e, rel)
    decreases e
  {
    if ShouldSkipPath(e.name) {
      return Walked([], None);
    }
    match e {
      case File(n) =>
        w := Walked([Found(rel, n)], None);
      case Unreadable(_, msg) =>
        w := Walked([], Some(msg));
      case Dir(_, kids) =>
        var found: seq<Found> := [];
        var i := 0;
        while i < |kids|
          invariant 0 <= i <= |kids|
          invariant WalkKids(kids[..i], rel) == Walked(found, None)
        {
          var k := kids[i];
          var sub := WalkDir(k, rel + [k.name]);
          assert kids[..i + 1] == kids[..i] + [k];
          WalkKidsSnoc(kids[..i], k, rel);
          if sub.error.Some? {
            KidsPrefixAbort(kids, i + 1, rel);
            return Walked(found + sub.found, sub.error);
          }
          found := found + sub.found;
          i := i + 1;
        }
        assert kids[..i] == kids;
        w := Walked(found, None);
    }
  }

  /** filepath.Rel(root, path) for a path below root: "." for the root. */
  function RelString(rel: seq<string>): string {
    if rel == [] then "." else JoinSep(rel)
  }

  function RelStrings(found: seq<Found>): (r: seq<string>)
    ensures |r| == |found|
    ensures forall i :: 0 <= i < |found| ==> r[i] == RelString(found[i].rel)
  {
    if found == [] then [] else [RelString(found[0].rel)] + RelStrings(found[1..])
  }

  /** What ListFiles returns for the root entry `top`, or the error of
      reading it. */
  function Listing(root: string, top: Result<Entry>): Result<seq<string>> {
    if top.Err? then Err("error walking directory '" + root + "': " + top.error)
    else
      var w := Walk(top.value, []);
      if w.error.Some? then Err("error walking directory '" + root + "': " + w.error.value)
      else Ok(RelStrings(w.found))
  }

  /** ListFiles: the root-relative paths of the visible files, in walk
      order. */
  method ListFiles(root: string, top: Result<Entry>) returns (r: Result<seq<string>>)
    ensures r == Listing(root, top)
  {
    if top.Err? {
      return Err("error walking directory '" + root + "': " + top.error);
    }
    var w := WalkDir(top.value, []);
    if w.error.Some? {
      return Err("error walking directory '" + root + "': " + w.error.value);
    }
    var paths: seq<string> := [];
    var i := 0;
    while i < |w.found|
      invariant 0 <= i <= |w.found|
      invariant paths == RelStrings(w.found[..i])
    {
      assert w.found[..i + 1] == w.found[..i] + [w.found[i]];
      RelStringsAppend(w.found[..i], [w.found[i]]);
      paths := paths + [RelString(w.found[i].rel)];
      i := i + 1;
    }
    assert w.found[..i] == w.found;
    r := Ok(paths);
  }

  lemma {:induction false} RelStringsAppend(a: seq<Found>, b: seq<Found>)
    ensures RelStrings(a + b) == RelStrings(a) + RelStrings(b)
  {
    assert |RelStrings(a + b)| == |RelStrings(a) + RelStrings(b)|;
    forall i | 0 <= i < |a + b|
      ensures RelStrings(a + b)[i] == (RelStrings(a) + RelStrings(b))[i]
    {
    }
  }

  /** ListFiles reports exactly the visible files, each by its path
      relative to the root. */
  lemma ListFilesExact(root: string, top: Entry)
    requires Walk(top, []).error.None?
    ensures var found := Walk(top, []).found;
      Listing(root, Ok(top)) == Ok(RelStrings(found))
      && (forall f :: f in found <==> Visible(top, [], f))
  {
    WalkReportsVisible(top, []);
  }

  // ---------------------------------------------------------------------
  // Directories

  /** EnsureDirExists: create the directory when Stat says it is missing,
      report any other Stat failure, and accept anything that exists, a
      regular file included. Creating fails only for the empty path. */
  method EnsureDirExists(fs: FileSystem, path: string, perm: nat) returns (r: Status)
    requires fs.Valid()
    modifies fs
    ensures fs.Valid() && fs.files == old(fs.files) && old(fs.dirs).Keys <= fs.dirs.Keys
    ensures old(fs.Stat(path)).Got? ==> r == Done && unchanged(fs)
    ensures old(fs.Stat(path)).IoErr? && !old(fs.Stat(path)).err.IsNotExist() ==>
      r == Failed("failed to check directory '" + path + "': " + old(fs.Stat(path)).err.Text())
      && unchanged(fs)
    ensures path == "" ==>
      r == Failed("failed to create directory '': " + PathError("mkdir", "", ENOENT).Text()) && unchanged(fs)
    ensures path != "" && old(fs.Stat(path)).IoErr? && old(fs.Stat(path)).err.IsNotExist() ==>
      r == Done && fs.files == old(fs.files)
      && fs.dirs == old(fs.dirs) + NewDirs(old(fs.dirs), fs.Resolve(path), perm)
    ensures r.Done? ==> fs.Stat(path).Got?
  {
    var st := fs.Stat(path);
    if st.IoErr? && st.err.IsNotExist() {
      // Stat found no denied, file or directory entry on the way, so
      // MkdirAll fails only on the empty path, which Stat reports missing.
      var err := fs.MkdirAll(path, perm);
      if err.Some? {
        return Failed("failed to create directory '" + path + "': " + err.value.Text());
      }
      return Done;
    }
    if st.IoErr? {
      return Failed("failed to check directory '" + path + "': " + st.err.Text());
    }
    return Done;
  }

  /** ValidateDir: the path must be an existing directory. */
  function ValidateDir(fs: FileSystem, path: string): (r: Status)
    reads fs
    ensures r == Done <==> fs.Stat(path) == Got(Directory)
    ensures fs.Stat(path).IoErr? && fs.Stat(path).err.IsNotExist() ==>
      r == Failed("path '" + path + "' does not exist")
  {
    match fs.Stat(path)
    case IoErr(e) =>
      if e.IsNotExist() then Failed("path '" + path + "' does not exist")
      else Failed("failed to stat path '" + path + "': " + e.Text())
    case Got(k) =>
      if k != Directory then Failed("path '" + path + "' is not a directory") else Done
  }

  // ---------------------------------------------------------------------
  // MIME types

  const Octet := "application/octet-stream"
  const Markdown := "text/markdown; charset=utf-8"
  const TextPlain := "text/plain; charset=utf-8"
  const TextExtensions: seq<string> := [".txt", ".log", ".conf", ".cfg", ".ini", ".yaml", ".yml", ".toml"]

  predicate LikelyText(path: string) {
    exists i :: 0 <= i < |TextExtensions| && HasSuffix(ToLower(path), TextExtensions[i])
  }

  /** GetMimeType's answer; `lookup` is mime.TypeByExtension. */
  function MimeType(lookup: string -> string, path: string): string {
    var found := lookup(Ext(path));
    var m := if found == "" then Octet else found;
    if Contains(m, "text") || m == Octet then
      if ToLower(Ext(path)) == ".md" then Markdown
      else if m == Octet && LikelyText(path) then TextPlain
      else m
    else m
  }

  /** A ".md" extension in any case wins when the lookup gave nothing or a
      text type. */
  lemma MimeMarkdown(lookup: string -> string, path: string)
    requires ToLower(Ext(path)) == ".md"
    requires lookup(Ext(path)) == "" || Contains(lookup(Ext(path)), "text")
    ensures MimeType(lookup, path) == Markdown
  {
  }

  /** Unknown extensions fall back to text/plain for the eight listed
      suffixes and to application/octet-stream otherwise; a known
      non-text type is kept. */
  lemma MimeFallback(lookup: string -> string, path: string)
    requires ToLower(Ext(path)) != ".md"
    ensures lookup(Ext(path)) == "" && LikelyText(path) ==> MimeType(lookup, path) == TextPlain
    ensures lookup(Ext(path)) == "" && !LikelyText(path) ==> MimeType(lookup, path) == Octet
    ensures lookup(Ext(path)) != "" && lookup(Ext(path)) != Octet ==>
      MimeType(lookup, path) == lookup(Ext(path))
  {
  }

  /** GetMimeType (and register.go's copy getMimeType), with its loop over
      the likely-text suffixes. */
  method GetMimeType(lookup: string -> string, path: string) returns (mimeType: string)
    ensures mimeType == MimeType(lookup, path)
  {
    var ext := Ext(path);
    mimeType := lookup(ext);
    if mimeType == "" {
      mimeType := Octet;
    }
    if Contains(mimeType, "text") || mimeType == Octet {
      if ToLower(ext) == ".md" {
        mimeType := Markdown;
      } else if mimeType == Octet {
        var lower := ToLower(path);
        var i := 0;
        while i < |TextExtensions|
          invariant 0 <= i <= |TextExtensions|
          invariant forall j :: 0 <= j < i ==> !HasSuffix(lower, TextExtensions[j])
        {
          if HasSuffix(lower, TextExtensions[i]) {
            mimeType := TextPlain;
            break;
          }
          i := i + 1;
        }
      }
    }
  }

  // ---------------------------------------------------------------------
  // Tool parameters

  /** ExtractStringParam over the tool's argument map. */
  function ExtractStringParam(params: Args, name: string): (r: Result<string>)
    ensures params.None? ==> r == Err("missing arguments")
    ensures params.Some? && name !in params.value ==>
      r == Err("missing required parameter: " + name)
    ensures params.Some? && name in params.value && !params.value[name].Str? ==>
      r == Err("parameter '" + name + "' must be a string")
    ensures params.Some? && name in params.value && params.value[name].Str? ==>
      r == Ok(params.value[name].s)
  {
    if params.None? then Err("missing arguments")
    else if name !in params.value then Err("missing required parameter: " + name)
    else match params.value[name]
      case Str(s) => Ok(s)
      case _ => Err("parameter '" + name + "' must be a string")
  }
}
