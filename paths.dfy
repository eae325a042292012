/** Go's lexical path functions from `path/filepath` on a Unix system, as the
    core uses them: Clean, Join, Abs, IsAbs, Dir and Ext.

    A path is read as its `/`-separated segments (strings.Split). Clean then
    folds the segments over a stack: empty and "." segments vanish, ".."
    pops a real name, is dropped at the root of a rooted path, and is kept
    at the front of an unrooted one. Rendering the stack gives the clean
    text ("/" for an empty rooted stack, "." for an empty unrooted one). */
module Paths {
  import opened GoStrings

  // ---------------------------------------------------------------------
  // Segments

  /** strings.Split(s, "/"): never empty, and no part holds a '/'. */
  function Split(s: string): (r: seq<string>)
    ensures |r| >= 1
    ensures forall i :: 0 <= i < |r| ==> '/' !in r[i]
    decreases |s|
  {
    if s == [] then [""]
    else if s[0] == '/' then [""] + Split(s[1..])
    else
      var t := Split(s[1..]);
      [[s[0]] + t[0]] + t[1..]
  }

  /** strings.Join(xs, "/") */
  function JoinSep(xs: seq<string>): string {
    if xs == [] then ""
    else if |xs| == 1 then xs[0]
    else xs[0] + "/" + JoinSep(xs[1..])
  }

  predicate SlashFree(xs: seq<string>) {
    forall i :: 0 <= i < |xs| ==> '/' !in xs[i]
  }

  /** A segment that names an entry: not empty, not "." or "..". */
  predicate Normal(seg: string) {
    seg != "" && seg != "." && seg != ".." && '/' !in seg
  }

  predicate AllNormal(xs: seq<string>) {
    forall i :: 0 <= i < |xs| ==> Normal(xs[i])
  }

  /** filepath.IsAbs on Unix. */
  predicate Rooted(p: string) {
    |p| > 0 && p[0] == '/'
  }

  // ---------------------------------------------------------------------
  // Clean

  /** One segment of filepath.Clean's scan applied to the output stack. */
  function Step(rooted: bool, st: seq<string>, seg: string): seq<string> {
    if seg == "" || seg == "." then st
    else if seg == ".." then
      if |st| > 0 && st[|st| - 1] != ".." then st[..|st| - 1]
      else if rooted then st
      else st + [".."]
    else st + [seg]
  }

  function Fold(rooted: bool, st: seq<string>, segs: seq<string>): seq<string>
    decreases |segs|
  {
    if segs == [] then st else Fold(rooted, Step(rooted, st, segs[0]), segs[1..])
  }

  /** The segments of filepath.Clean(p). */
  function Norm(p: string): seq<string> {
    Fold(Rooted(p), [], Split(p))
  }

  function Render(rooted: bool, st: seq<string>): string {
    if rooted then "/" + JoinSep(st)
    else if st == [] then "."
    else JoinSep(st)
  }

  /** filepath.Clean */
  function Clean(p: string): string {
    Render(Rooted(p), Norm(p))
  }

  /** The shape of every stack Clean produces: names and "..", with all
      ".." in front, and none at all under the root. */
  predicate Canonical(rooted: bool, st: seq<string>) {
    (forall i :: 0 <= i < |st| ==> st[i] == ".." || Normal(st[i]))
    && (forall i, j :: 0 <= i < j < |st| && st[j] == ".." ==> st[i] == "..")
    && (rooted ==> forall i :: 0 <= i < |st| ==> st[i] != "..")
  }

  // ---------------------------------------------------------------------
  // Join, Abs, Dir, Ext

  /** The elements of Join's argument from the first non-empty one on. */
  function FromFirstNonEmpty(xs: seq<string>): (r: seq<string>)
    ensures r == [] || r[0] != ""
    ensures |r| <= |xs| && r == xs[|xs| - |r|..]
  {
    if xs == [] then [] else if xs[0] == "" then FromFirstNonEmpty(xs[1..]) else xs
  }

  /** filepath.Join */
  function Join(xs: seq<string>): string {
    var ys := FromFirstNonEmpty(xs);
    if ys == [] then "" else Clean(JoinSep(ys))
  }

  /** filepath.Abs against the working directory `cwd`. */
  function Abs(cwd: string, p: string): string {
    if Rooted(p) then Clean(p) else Join([cwd, p])
  }

  /** The segments of Abs(cwd, p), computed directly. */
  function AbsNorm(cwd: string, p: string): seq<string> {
    if Rooted(p) then Norm(p) else Fold(true, Norm(cwd), Split(p))
  }

  /** Index of the last '/' in p, or -1. */
  function LastSlash(p: string): (i: int)
    ensures -1 <= i < |p|
    ensures i >= 0 ==> p[i] == '/'
    ensures forall j :: i < j < |p| ==> p[j] != '/'
    decreases |p|
  {
    if p == [] then -1
    else if p[|p| - 1] == '/' then |p| - 1
    else LastSlash(p[..|p| - 1])
  }

  /** filepath.Dir */
  function Dir(p: string): string {
    Clean(p[..LastSlash(p) + 1])
  }

  /** Dir never yields the empty path. */
  lemma DirNotEmpty(p: string)
    ensures Dir(p) != ""
  {
    CleanNotEmpty(p[..LastSlash(p) + 1]);
  }

  /** filepath.Ext: the suffix from the last '.' of the final element. */
  function Ext(p: string): (e: string)
    ensures e == [] || (e[0] == '.' && HasSuffix(p, e) && '/' !in e && '.' !in e[1..])
    decreases |p|
  {
    if p == [] || p[|p| - 1] == '/' then ""
    else if p[|p| - 1] == '.' then "."
    else
      var e := Ext(p[..|p| - 1]);
      if e == "" then "" else e + [p[|p| - 1]]
  }

  // ---------------------------------------------------------------------
  // Split and JoinSep

  lemma {:induction false} SplitNoSlash(a: string)
    requires '/' !in a
    ensures Split(a) == [a]
    decreases |a|
  {
    if a != [] {
      SplitNoSlash(a[1..]);
      assert [a[0]] + a[1..] == a;
    }
  }

  lemma {:induction false} SplitConcat(a: string, b: string)
    ensures Split(a + "/" + b) == Split(a) + Split(b)
    decreases |a|
  {
    if a == [] {
      assert a + "/" + b == "/" + b;
      assert ("/" + b)[1..] == b;
    } else {
      var s := a + "/" + b;
      assert s[0] == a[0];
      assert s[1..] == a[1..] + "/" + b;
      SplitConcat(a[1..], b);
    }
  }

  lemma {:induction false} SplitJoinSep(xs: seq<string>)
    requires xs != [] && SlashFree(xs)
    ensures Split(JoinSep(xs)) == xs
    decreases |xs|
  {
    if |xs| == 1 {
      SplitNoSlash(xs[0]);
    } else {
      SplitConcat(xs[0], JoinSep(xs[1..]));
      SplitNoSlash(xs[0]);
      SplitJoinSep(xs[1..]);
      assert [xs[0]] + xs[1..] == xs;
    }
  }

  lemma {:induction false} JoinSepAppend(xs: seq<string>, ys: seq<string>)
    requires xs != [] && ys != []
    ensures JoinSep(xs + ys) == JoinSep(xs) + "/" + JoinSep(ys)
    decreases |xs|
  {
    if |xs| == 1 {
      assert (xs + ys)[1..] == ys;
    } else {
      assert (xs + ys)[1..] == xs[1..] + ys;
      JoinSepAppend(xs[1..], ys);
    }
  }

  /** A non-empty JoinSep begins with its first element. */
  lemma {:induction false} JoinSepHead(xs: seq<string>)
    requires xs != []
    ensures HasPrefix(JoinSep(xs), xs[0])
  {
    if |xs| > 1 {
      assert JoinSep(xs) == xs[0] + ("/" + JoinSep(xs[1..]));
    }
  }

  // ---------------------------------------------------------------------
  // Fold

  lemma {:induction false} FoldAppend(r: bool, st: seq<string>, a: seq<string>, b: seq<string>)
    ensures Fold(r, st, a + b) == Fold(r, Fold(r, st, a), b)
    decreases |a|
  {
    if a == [] {
      assert a + b == b;
    } else {
      assert (a + b)[0] == a[0];
      assert (a + b)[1..] == a[1..] + b;
      FoldAppend(r, Step(r, st, a[0]), a[1..], b);
    }
  }

  lemma FoldSnoc(r: bool, st: seq<string>, a: seq<string>, x: string)
    ensures Fold(r, st, a + [x]) == Step(r, Fold(r, st, a), x)
  {
    FoldAppend(r, st, a, [x]);
  }

  /** Names are pushed as they are. */
  lemma {:induction false} FoldNormals(r: bool, st: seq<string>, b: seq<string>)
    requires AllNormal(b)
    ensures Fold(r, st, b) == st + b
    decreases |b|
  {
    if b != [] {
      FoldNormals(r, st + [b[0]], b[1..]);
      assert st + [b[0]] + b[1..] == st + b;
    }
  }

  lemma StepCanonical(r: bool, st: seq<string>, seg: string)
    requires Canonical(r, st) && '/' !in seg
    ensures Canonical(r, Step(r, st, seg))
  {
  }

  lemma {:induction false} FoldCanonical(r: bool, st: seq<string>, segs: seq<string>)
    requires Canonical(r, st) && SlashFree(segs)
    ensures Canonical(r, Fold(r, st, segs))
    decreases |segs|
  {
    if segs != [] {
      StepCanonical(r, st, segs[0]);
      FoldCanonical(r, Step(r, st, segs[0]), segs[1..]);
    }
  }

  lemma NormCanonical(p: string)
    ensures Canonical(Rooted(p), Norm(p))
  {
    FoldCanonical(Rooted(p), [], Split(p));
  }

  /** Folding a clean stack from scratch gives it back. */
  lemma {:induction false} FoldCanonicalIdem(r: bool, st: seq<string>)
    requires Canonical(r, st)
    ensures Fold(r, [], st) == st
    decreases |st|
  {
    if st != [] {
      var n := |st| - 1;
      var init := st[..n];
      assert Canonical(r, init);
      FoldCanonicalIdem(r, init);
      assert init + [st[n]] == st;
      FoldSnoc(r, [], init, st[n]);
    }
  }

  /** Going up from a rooted stack extended by a clean relative stack is
      the same as going up within the relative stack first. */
  lemma FoldRootedUp(s: seq<string>, ny: seq<string>)
    requires Canonical(false, ny)
    ensures Step(true, Fold(true, s, ny), "..") == Fold(true, s, Step(false, ny, ".."))
  {
    if |ny| > 0 && ny[|ny| - 1] != ".." {
      var m := |ny| - 1;
      assert ny[..m] + [ny[m]] == ny;
      FoldSnoc(true, s, ny[..m], ny[m]);
    } else {
      FoldSnoc(true, s, ny, "..");
    }
  }

  /** Resolving ".." against a rooted stack gives the same result whether or
      not the relative part was cleaned first, which is why Abs may clean the
      joined path in one pass. */
  lemma {:induction false} FoldRootedNorm(s: seq<string>, x: seq<string>)
    requires SlashFree(x)
    ensures Fold(true, s, x) == Fold(true, s, Fold(false, [], x))
    decreases |x|
  {
    if x != [] {
      var n := |x| - 1;
      var y, seg := x[..n], x[n];
      assert y + [seg] == x;
      FoldRootedNorm(s, y);
      var ny := Fold(false, [], y);
      FoldCanonical(false, [], y);
      FoldSnoc(true, s, y, seg);
      FoldSnoc(false, [], y, seg);
      if seg == "" || seg == "." {
      } else if seg == ".." {
        FoldRootedUp(s, ny);
      } else {
        FoldSnoc(true, s, ny, seg);
      }
    }
  }

  // ---------------------------------------------------------------------
  // Render and Clean

  lemma RenderRooted(r: bool, st: seq<string>)
    requires Canonical(r, st)
    ensures Rooted(Render(r, st)) == r
  {
    if !r && st != [] {
      JoinSepHead(st);
    }
  }

  /** Rendering a clean stack and reading it back is the identity. */
  lemma RenderParse(r: bool, st: seq<string>)
    requires Canonical(r, st)
    ensures Rooted(Render(r, st)) == r
    ensures Norm(Render(r, st)) == st
  {
    RenderRooted(r, st);
    var p := Render(r, st);
    FoldCanonicalIdem(r, st);
    if r {
      if st == [] {
        assert Split(p) == ["", ""];
      } else {
        assert p[1..] == JoinSep(st);
        SplitJoinSep(st);
        assert Split(p) == [""] + st;
        FoldAppend(true, [], [""], st);
      }
    } else if st == [] {
      SplitNoSlash(".");
    } else {
      SplitJoinSep(st);
    }
  }

  lemma CleanParse(p: string)
    ensures Rooted(Clean(p)) == Rooted(p)
    ensures Norm(Clean(p)) == Norm(p)
  {
    NormCanonical(p);
    RenderParse(Rooted(p), Norm(p));
  }

  /** filepath.Clean is idempotent. */
  lemma CleanIdempotent(p: string)
    ensures Clean(Clean(p)) == Clean(p)
  {
    CleanParse(p);
  }

  /** filepath.Clean never returns the empty string. */
  lemma CleanNotEmpty(p: string)
    ensures Clean(p) != ""
  {
    NormCanonical(p);
    if !Rooted(p) && Norm(p) != [] {
      JoinSepHead(Norm(p));
    }
  }

  /** A clean relative path that does not start with ".." has only names. */
  lemma CleanNoDotDot(p: string)
    requires !Rooted(p) && !HasPrefix(Clean(p), "..")
    ensures AllNormal(Norm(p))
  {
    var st := Norm(p);
    NormCanonical(p);
    if st != [] && !AllNormal(st) {
      var k :| 0 <= k < |st| && !Normal(st[k]);
      assert st[0] == "..";
      JoinSepHead(st);
      assert false;
    }
  }

  /** For a clean stack of names, Split of the rendered text is the stack
      (or ["."] for the empty relative path). */
  lemma SplitRenderNormals(st: seq<string>)
    requires AllNormal(st)
    ensures Split(Render(false, st)) == (if st == [] then ["."] else st)
  {
    if st == [] {
      SplitNoSlash(".");
    } else {
      SplitJoinSep(st);
    }
  }

  // ---------------------------------------------------------------------
  // Abs

  lemma RootedJoin2(a: string, b: string)
    requires a != ""
    ensures Rooted(a + "/" + b) == Rooted(a)
  {
    assert (a + "/" + b)[0] == a[0];
  }

  /** Abs renders AbsNorm under the root. */
  lemma AbsRender(cwd: string, p: string)
    requires Rooted(cwd)
    ensures Abs(cwd, p) == Render(true, AbsNorm(cwd, p))
    ensures Rooted(Abs(cwd, p))
  {
    if !Rooted(p) {
      assert FromFirstNonEmpty([cwd, p]) == [cwd, p];
      assert JoinSep([cwd, p]) == cwd + "/" + p;
      RootedJoin2(cwd, p);
      SplitConcat(cwd, p);
      FoldAppend(true, [], Split(cwd), Split(p));
    }
  }

  /** filepath.Abs returns a clean path. */
  lemma AbsClean(cwd: string, p: string)
    requires Rooted(cwd)
    ensures Clean(Abs(cwd, p)) == Abs(cwd, p)
  {
    if Rooted(p) {
      CleanIdempotent(p);
    } else {
      assert FromFirstNonEmpty([cwd, p]) == [cwd, p];
      CleanIdempotent(JoinSep([cwd, p]));
    }
  }

  /** AbsNorm does not see whether its argument was cleaned first. */
  lemma AbsNormClean(cwd: string, q: string)
    ensures AbsNorm(cwd, Clean(q)) == AbsNorm(cwd, q)
  {
    CleanParse(q);
    if !Rooted(q) {
      var st := Norm(q);
      NormCanonical(q);
      FoldRootedNorm(Norm(cwd), Split(q));
      if st == [] {
        SplitNoSlash(".");
      } else {
        SplitJoinSep(st);
      }
    }
  }

  /** Appending "/x" to a non-empty path resolves x against it. */
  lemma AbsNormSlash(cwd: string, a: string, x: string)
    requires a != ""
    ensures AbsNorm(cwd, a + "/" + x) == Fold(true, AbsNorm(cwd, a), Split(x))
  {
    RootedJoin2(a, x);
    SplitConcat(a, x);
    if Rooted(a) {
      FoldAppend(true, [], Split(a), Split(x));
    } else {
      FoldAppend(true, Norm(cwd), Split(a), Split(x));
    }
  }

  /** Join of two elements whose second is not empty. */
  lemma JoinPair(a: string, b: string)
    requires b != ""
    ensures Join([a, b]) == Clean(if a == "" then b else a + "/" + b)
  {
    if a == "" {
      assert FromFirstNonEmpty([a, b]) == FromFirstNonEmpty([b]);
      assert JoinSep([b]) == b;
    } else {
      assert JoinSep([a, b]) == a + "/" + JoinSep([b]);
    }
  }

  /** Join of three elements whose second is not empty. */
  lemma JoinTriple(a: string, b: string, c: string)
    requires b != ""
    ensures Join([a, b, c]) == Clean(if a == "" then b + "/" + c else a + "/" + (b + "/" + c))
  {
    if a == "" {
      assert FromFirstNonEmpty([a, b, c]) == FromFirstNonEmpty([b, c]);
      assert [b, c][1..] == [c];
      assert JoinSep([b, c]) == b + "/" + JoinSep([c]);
    } else {
      assert [a, b, c][1..] == [b, c];
      assert [b, c][1..] == [c];
      assert JoinSep([a, b, c]) == a + "/" + JoinSep([b, c]);
      assert JoinSep([b, c]) == b + "/" + JoinSep([c]);
    }
  }

  /** A name is not rooted, and AbsNorm resolves it against the working
      directory. */
  lemma AbsNormName(cwd: string, b: string)
    requires Normal(b)
    ensures AbsNorm(cwd, b) == Norm(cwd) + [b]
    ensures AbsNorm(cwd, "") == Norm(cwd)
  {
    assert b[0] in b;
    SplitNoSlash(b);
    SplitNoSlash("");
    assert Fold(true, Norm(cwd), [b]) == Fold(true, Norm(cwd) + [b], []);
  }

  /** Resolving "b/c" after a: b is pushed, then c is folded. */
  lemma AbsNormNameThen(cwd: string, a: string, b: string, c: string)
    requires Normal(b)
    ensures AbsNorm(cwd, if a == "" then b + "/" + c else a + "/" + (b + "/" + c))
      == Fold(true, AbsNorm(cwd, a) + [b], Split(c))
  {
    var v := AbsNorm(cwd, a);
    SplitNoSlash(b);
    SplitConcat(b, c);
    if a == "" {
      AbsNormName(cwd, b);
      assert !Rooted(b + "/" + c) by {
        assert (b + "/" + c)[0] == b[0];
        assert b[0] in b;
      }
      FoldAppend(true, Norm(cwd), [b], Split(c));
    } else {
      AbsNormSlash(cwd, a, b + "/" + c);
      FoldAppend(true, v, [b], Split(c));
    }
    assert Fold(true, v, [b]) == Fold(true, v + [b], []);
  }

  /** The segments of Abs(cwd, Join([a, b])) and Abs(cwd, Join([a, b, c]))
      for a name b: b is pushed onto the segments of a, then c is resolved
      against that. */
  lemma AbsNormJoin2(cwd: string, a: string, b: string)
    requires Normal(b)
    ensures AbsNorm(cwd, Join([a, b])) == AbsNorm(cwd, a) + [b]
  {
    var q := if a == "" then b else a + "/" + b;
    JoinPair(a, b);
    AbsNormClean(cwd, q);
    if a == "" {
      AbsNormName(cwd, b);
    } else {
      AbsNormSlash(cwd, a, b);
      SplitNoSlash(b);
      var v := AbsNorm(cwd, a);
      assert Fold(true, v, [b]) == Fold(true, v + [b], []);
    }
  }

  lemma AbsNormJoin3(cwd: string, a: string, b: string, c: string)
    requires Normal(b)
    ensures AbsNorm(cwd, Join([a, b, c])) == Fold(true, AbsNorm(cwd, a) + [b], Split(c))
  {
    var q := if a == "" then b + "/" + c else a + "/" + (b + "/" + c);
    JoinTriple(a, b, c);
    AbsNormClean(cwd, q);
    AbsNormNameThen(cwd, a, b, c);
  }

  /** A rendered rooted stack extended by names extends the text at a
      segment boundary. */
  lemma RenderExtend(base: seq<string>, more: seq<string>)
    requires base != []
    ensures Render(true, base + more) == Render(true, base)
      || (more != [] && Render(true, base + more) == Render(true, base) + "/" + JoinSep(more))
  {
    if more == [] {
      assert base + more == base;
    } else {
      JoinSepAppend(base, more);
    }
  }

  // ---------------------------------------------------------------------
  // Dir

  lemma {:induction false} LastSlashAfter(q: string, x: string)
    requires '/' !in x
    ensures LastSlash(q + "/" + x) == |q|
    decreases |x|
  {
    var p := q + "/" + x;
    if x != [] {
      assert p[|p| - 1] == x[|x| - 1];
      assert p[..|p| - 1] == q + "/" + x[..|x| - 1];
      LastSlashAfter(q, x[..|x| - 1]);
    }
  }

  lemma DirOfSlash(q: string, x: string)
    requires q != "" && '/' !in x
    ensures Dir(q + "/" + x) == Clean(q)
  {
    var p := q + "/" + x;
    LastSlashAfter(q, x);
    assert p[..|q| + 1] == q + "/" + "";
    RootedJoin2(q, "");
    SplitConcat(q, "");
    SplitNoSlash("");
    FoldAppend(Rooted(q), [], Split(q), [""]);
  }

  lemma {:induction false} LastSlashNone(x: string)
    requires '/' !in x
    ensures LastSlash(x) == -1
    decreases |x|
  {
    if x != [] {
      assert x[|x| - 1] in x;
      assert forall c :: c in x[..|x| - 1] ==> c in x;
      LastSlashNone(x[..|x| - 1]);
    }
  }

  lemma DirOfName(x: string)
    requires Normal(x)
    ensures Dir(x) == "."
  {
    LastSlashNone(x);
    assert x[..0] == "";
    SplitNoSlash("");
  }

  lemma DirOfRootedName(x: string)
    requires Normal(x)
    ensures Dir("/" + x) == "/"
  {
    LastSlashAfter("", x);
    assert ("/" + x)[..1] == "/";
    SplitConcat("", "");
    SplitNoSlash("");
    assert Split("/") == ["", ""];
  }

  /** The directory of a clean path whose last segment is a name is the
      clean path of the remaining segments. */
  lemma DirRender(r: bool, st: seq<string>)
    requires Canonical(r, st) && st != [] && Normal(st[|st| - 1])
    ensures Dir(Render(r, st)) == Render(r, st[..|st| - 1])
  {
    var n := |st| - 1;
    var init, x := st[..n], st[n];
    assert init + [x] == st;
    if init == [] {
      if r {
        DirOfRootedName(x);
      } else {
        DirOfName(x);
      }
    } else {
      var q := Render(r, init);
      assert Canonical(r, init);
      JoinSepAppend(init, [x]);
      assert Render(r, st) == q + "/" + x;
      assert q != "" by {
        if !r {
          JoinSepHead(init);
        }
      }
      DirOfSlash(q, x);
      RenderParse(r, init);
    }
  }

  /** AbsNorm of a rendered stack: rooted stacks stand alone, relative ones
      are resolved against the working directory. */
  lemma AbsNormRender(cwd: string, r: bool, st: seq<string>)
    requires Canonical(r, st)
    ensures AbsNorm(cwd, Render(r, st)) == Fold(true, if r then [] else Norm(cwd), st)
  {
    RenderParse(r, st);
    FoldCanonicalIdem(r, st);
    if r {
      FoldCanonicalIdem(true, st);
    } else {
      FoldRootedNorm(Norm(cwd), Split(Render(r, st)));
      FoldCanonicalIdem(false, st);
    }
  }

  /** Resolving the directory of a clean path gives the resolved path
      without its last segment. */
  lemma AbsNormDirRender(cwd: string, r: bool, st: seq<string>)
    requires Canonical(r, st) && st != [] && Normal(st[|st| - 1])
    ensures AbsNorm(cwd, Dir(Render(r, st))) + [st[|st| - 1]] == AbsNorm(cwd, Render(r, st))
  {
    var n := |st| - 1;
    var init, x := st[..n], st[n];
    assert init + [x] == st;
    var b := if r then [] else Norm(cwd);
    FoldSnoc(true, b, init, x);
    assert Step(true, Fold(true, b, init), x) == Fold(true, b, init) + [x];
    assert Canonical(r, init);
    DirRender(r, st);
    AbsNormRender(cwd, r, init);
    AbsNormRender(cwd, r, st);
  }

  lemma AbsNormDir(cwd: string, p: string)
    requires Norm(p) != [] && Normal(Norm(p)[|Norm(p)| - 1])
    ensures AbsNorm(cwd, Dir(Clean(p))) + [Norm(p)[|Norm(p)| - 1]] == AbsNorm(cwd, Clean(p))
  {
    NormCanonical(p);
    AbsNormDirRender(cwd, Rooted(p), Norm(p));
  }
  /** strings.Join(strings.Split(s, "/"), "/") == s */
  lemma {:induction false} JoinSplit(s: string)
    ensures JoinSep(Split(s)) == s
    decreases |s|
  {
    if s != [] {
      var t := Split(s[1..]);
      JoinSplit(s[1..]);
      if s[0] == '/' {
        assert Split(s) == [""] + t;
        assert JoinSep(Split(s)) == "" + "/" + JoinSep(t);
        assert s == "/" + s[1..];
      } else if |t| == 1 {
        assert JoinSep(Split(s)) == [s[0]] + t[0];
        assert s == [s[0]] + s[1..];
      } else {
        assert JoinSep(t) == t[0] + "/" + JoinSep(t[1..]);
        assert Split(s)[1..] == t[1..];
        assert JoinSep(Split(s)) == ([s[0]] + t[0]) + "/" + JoinSep(t[1..]);
        assert s == [s[0]] + s[1..];
      }
    }
  }

  /** A clean rooted path is "/" only for the root itself, and is never ".". */
  lemma RenderRootIff(st: seq<string>, k: nat)
    requires Canonical(true, st) && k <= |st|
    ensures Render(true, st[..k]) == "/" <==> k == 0
    ensures Render(true, st[..k]) != "."
  {
    if k > 0 {
      JoinSepHead(st[..k]);
      assert Normal(st[..k][0]);
    }
  }
}
