/** The part of Go's `os` package the core calls (Stat, ReadFile, WriteFile,
    MkdirAll, Remove), over a file tree held in maps.

    Entries are keyed by their resolved absolute path: the segments below
    "/" of filepath.Abs against the process working directory. Entries
    listed in `denied` fail every access at or below them with "permission
    denied", which stands for every I/O failure other than a missing
    entry. */
module Fs {
  import opened Wrappers
  import opened Paths

  newtype byte = x: int | 0 <= x < 256

  /** A resolved absolute path: the segments below "/". */
  type Path = seq<string>

  function Parent(k: Path): Path
    requires k != []
  {
    k[..|k| - 1]
  }

  /** Every prefix of k, the root [] and k itself included. */
  function Prefixes(k: Path): set<Path> {
    set i | 0 <= i <= |k| :: k[..i]
  }

  /** The directories os.MkdirAll adds for k: every prefix not yet a
      directory, with mode perm. */
  function NewDirs(dirs: map<Path, nat>, k: Path, perm: nat): map<Path, nat> {
    map q | q in Prefixes(k) && q !in dirs :: perm
  }

  datatype Errno = ENOENT | ENOTDIR | EISDIR | ENOTEMPTY | EBUSY | EACCES

  function Reason(e: Errno): string {
    match e
    case ENOENT => "no such file or directory"
    case ENOTDIR => "not a directory"
    case EISDIR => "is a directory"
    case ENOTEMPTY => "directory not empty"
    case EBUSY => "device or resource busy"
    case EACCES => "permission denied"
  }

  /** *fs.PathError: the operation, the path as passed in, and the errno. */
  datatype FsError = PathError(op: string, path: string, errno: Errno) {
    function Text(): string {
      op + " " + path + ": " + Reason(errno)
    }

    /** os.IsNotExist */
    predicate IsNotExist() {
      errno == ENOENT
    }
  }

  datatype IoResult<+T> = Got(value: T) | IoErr(err: FsError)

  datatype Kind = RegularFile | Directory

  /** The bytes of a Go string literal built from text: UTF-8. */
  function EncodeChar(c: char): (r: seq<byte>)
    ensures 1 <= |r| <= 4
    ensures c as int < 0x80 ==> r == [(c as int) as byte]
    ensures c as int >= 0x80 ==> |r| >= 2
  {
    var n := c as int;
    if n < 0x80 then [n as byte]
    else if n < 0x800 then [(0xC0 + n / 64) as byte, (0x80 + n % 64) as byte]
    else if n < 0x10000 then
      [(0xE0 + n / 4096) as byte, (0x80 + (n / 64) % 64) as byte, (0x80 + n % 64) as byte]
    else
      [(0xF0 + n / 262144) as byte, (0x80 + (n / 4096) % 64) as byte,
       (0x80 + (n / 64) % 64) as byte, (0x80 + n % 64) as byte]
  }

  function Utf8(s: string): (r: seq<byte>)
    ensures |r| >= |s|
  {
    if s == [] then [] else EncodeChar(s[0]) + Utf8(s[1..])
  }

  lemma {:induction false} Utf8Append(a: string, b: string)
    ensures Utf8(a + b) == Utf8(a) + Utf8(b)
    decreases |a|
  {
    if a != [] {
      assert (a + b)[0] == a[0];
      assert (a + b)[1..] == a[1..] + b;
      Utf8Append(a[1..], b);
      calc {
        Utf8(a + b);
        EncodeChar(a[0]) + Utf8(a[1..] + b);
        EncodeChar(a[0]) + (Utf8(a[1..]) + Utf8(b));
        (EncodeChar(a[0]) + Utf8(a[1..])) + Utf8(b);
      }
    } else {
      assert a + b == b;
    }
  }

  class FileSystem {
    /** Regular files and their bytes. */
    var files: map<Path, seq<byte>>
    /** Directories and the permission bits they were created with. */
    var dirs: map<Path, nat>
    /** Entries whose access is refused. */
    const denied: set<Path>
    /** os.Getwd() */
    const cwd: string

    ghost predicate Valid()
      reads this
    {
      Rooted(cwd)
      && [] in dirs
      && files.Keys !! dirs.Keys
      && (forall k :: k in files ==> k != [] && Parent(k) in dirs)
      && (forall k :: k in dirs && k != [] ==> Parent(k) in dirs)
    }

    constructor (cwd: string, files: map<Path, seq<byte>>, dirs: map<Path, nat>, denied: set<Path>)
      ensures this.cwd == cwd && this.files == files && this.dirs == dirs && this.denied == denied
    {
      this.cwd := cwd;
      this.files := files;
      this.dirs := dirs;
      this.denied := denied;
    }

    /** The key a path names: filepath.Abs against the working directory.
        The empty path names no entry: every primitive below fails on it
        with ENOENT before looking at the key. */
    function Resolve(path: string): Path {
      AbsNorm(cwd, path)
    }

    predicate Denied(k: Path) {
      exists i :: 0 <= i <= |k| && k[..i] in denied
    }

    /** Some proper prefix of k is a regular file. */
    predicate UnderFile(k: Path)
      reads this
    {
      exists i :: 0 <= i < |k| && k[..i] in files
    }

    predicate HasChildren(k: Path)
      reads this
    {
      (exists q | q in files :: |q| > |k| && q[..|k|] == k)
      || (exists q | q in dirs :: |q| > |k| && q[..|k|] == k)
    }

    /** os.Stat */
    function Stat(path: string): (r: IoResult<Kind>)
      reads this
      ensures r == Got(RegularFile) <==> (path != "" && !Denied(Resolve(path)) && Resolve(path) in files)
      ensures r == Got(Directory) <==>
        (path != "" && !Denied(Resolve(path)) && Resolve(path) !in files && Resolve(path) in dirs)
      ensures r.IoErr? ==> r.err.op == "stat" && r.err.path == path
    {
      var k := Resolve(path);
      if path == "" then IoErr(PathError("stat", path, ENOENT))
      else if Denied(k) then IoErr(PathError("stat", path, EACCES))
      else if k in files then Got(RegularFile)
      else if k in dirs then Got(Directory)
      else if UnderFile(k) then IoErr(PathError("stat", path, ENOTDIR))
      else IoErr(PathError("stat", path, ENOENT))
    }

    /** The system calls behind os.Stat, os.ReadFile, os.WriteFile,
        os.MkdirAll and os.Remove all reject the empty path, whatever the
        working directory holds. */
    lemma EmptyPathFails()
      ensures Stat("") == IoErr(PathError("stat", "", ENOENT))
      ensures ReadFile("") == IoErr(PathError("open", "", ENOENT))
      ensures WriteError("") == Some(PathError("open", "", ENOENT))
      ensures MkdirAllError("") == Some(PathError("mkdir", "", ENOENT))
      ensures RemoveError("") == Some(PathError("remove", "", ENOENT))
    {
    }

    /** os.ReadFile: a directory opens but fails to read. */
    function ReadFile(path: string): (r: IoResult<seq<byte>>)
      reads this
      ensures r.Got? <==> (path != "" && !Denied(Resolve(path)) && Resolve(path) in files)
      ensures r.Got? ==> r.value == files[Resolve(path)]
    {
      var k := Resolve(path);
      if path == "" then IoErr(PathError("open", path, ENOENT))
      else if Denied(k) then IoErr(PathError("open", path, EACCES))
      else if k in files then Got(files[k])
      else if k in dirs then IoErr(PathError("read", path, EISDIR))
      else if UnderFile(k) then IoErr(PathError("open", path, ENOTDIR))
      else IoErr(PathError("open", path, ENOENT))
    }

    /** Why os.WriteFile(path, ...) would fail, if it would. */
    function WriteError(path: string): Option<FsError>
      reads this
    {
      var k := Resolve(path);
      if path == "" then Some(PathError("open", path, ENOENT))
      else if Denied(k) then Some(PathError("open", path, EACCES))
      else if k in dirs then Some(PathError("open", path, EISDIR))
      else if UnderFile(k) then Some(PathError("open", path, ENOTDIR))
      else if k == [] || Parent(k) !in dirs then Some(PathError("open", path, ENOENT))
      else None
    }

    /** os.WriteFile: create or truncate a regular file. */
    method WriteFile(path: string, data: seq<byte>, perm: nat) returns (err: Option<FsError>)
      requires Valid()
      modifies this
      ensures Valid()
      ensures err == old(WriteError(path))
      ensures err.None? ==> files == old(files)[Resolve(path) := data]
      ensures err.Some? ==> unchanged(this)
      ensures err.Some? ==> files == old(files)
      ensures dirs == old(dirs)
      ensures err.None? ==> ReadFile(path) == Got(data)
    {
      err := WriteError(path);
      if err.None? {
        files := files[Resolve(path) := data];
      }
    }

    /** Why os.MkdirAll(path, ...) would fail, if it would. */
    function MkdirAllError(path: string): Option<FsError>
      reads this
    {
      var k := Resolve(path);
      if path == "" then Some(PathError("mkdir", path, ENOENT))
      else if Denied(k) then Some(PathError("mkdir", path, EACCES))
      else if k in dirs then None
      else if k in files || UnderFile(k) then Some(PathError("mkdir", path, ENOTDIR))
      else None
    }

    /** os.MkdirAll: create the directory and every missing parent. */
    method MkdirAll(path: string, perm: nat) returns (err: Option<FsError>)
      requires Valid()
      modifies this
      ensures Valid()
      ensures err == old(MkdirAllError(path))
      ensures err.None? ==> dirs == old(dirs) + NewDirs(old(dirs), Resolve(path), perm)
      ensures err.Some? ==> unchanged(this)
      ensures err.Some? ==> dirs == old(dirs)
      ensures files == old(files)
      ensures err.None? ==> Stat(path) == Got(Directory)
    {
      err := MkdirAllError(path);
      if err.None? {
        var k := Resolve(path);
        var added := NewDirs(dirs, k, perm);
        assert forall q :: q in Prefixes(k) ==> q !in files by {
          forall q | q in Prefixes(k)
            ensures q !in files
          {
            var i :| 0 <= i <= |k| && q == k[..i];
            if i == |k| {
              assert q == k;
            } else if k in dirs {
              NoFileAncestor(files, dirs, k, i);
            }
          }
        }
        assert k[..|k|] == k;
        assert k in Prefixes(k);
        forall q | q in Prefixes(k) && q != []
          ensures Parent(q) in Prefixes(k)
        {
          var i :| 0 <= i <= |k| && q == k[..i];
          assert Parent(q) == k[..i - 1];
        }
        dirs := dirs + added;
      }
    }

    /** Why os.Remove(path) would fail, if it would. */
    function RemoveError(path: string): Option<FsError>
      reads this
    {
      var k := Resolve(path);
      if path == "" then Some(PathError("remove", path, ENOENT))
      else if Denied(k) then Some(PathError("remove", path, EACCES))
      else if k in files then None
      else if k in dirs then
        if k == [] then Some(PathError("remove", path, EBUSY))
        else if HasChildren(k) then Some(PathError("remove", path, ENOTEMPTY))
        else None
      else if UnderFile(k) then Some(PathError("remove", path, ENOTDIR))
      else Some(PathError("remove", path, ENOENT))
    }

    /** os.Remove: unlink a file, or remove an empty directory. */
    method Remove(path: string) returns (err: Option<FsError>)
      requires Valid()
      modifies this
      ensures Valid()
      ensures err == old(RemoveError(path))
      ensures err.None? && Resolve(path) in old(files) ==>
        files == old(files) - {Resolve(path)} && dirs == old(dirs)
      ensures err.None? && Resolve(path) !in old(files) ==>
        dirs == old(dirs) - {Resolve(path)} && files == old(files)
      ensures err.Some? ==> unchanged(this)
      ensures err.Some? ==> files == old(files) && dirs == old(dirs)
      ensures err.None? ==> Resolve(path) in old(files) || Resolve(path) in old(dirs)
      ensures err.None? ==> Stat(path).IoErr? && Stat(path).err.IsNotExist()
    {
      err := RemoveError(path);
      var k := Resolve(path);
      if err.None? {
        if k in files {
          files := files - {k};
        } else {
          dirs := dirs - {k};
        }
        assert k !in files && k !in dirs;
        assert !UnderFile(k) by {
          if UnderFile(k) {
            var i :| 0 <= i < |k| && k[..i] in files;
            assert k[..i] in old(files);
            NoFileAncestor(old(files), old(dirs), k, i);
          }
        }
      }
    }

    /** The parent of an accessible entry is an accessible directory. */
    lemma ParentIsDirectory(path: string, dir: string)
      requires Valid()
      requires Resolve(path) in files || Resolve(path) in dirs
      requires !Denied(Resolve(path))
      requires Resolve(path) != [] && Resolve(dir) == Parent(Resolve(path)) && dir != ""
      ensures Stat(dir) == Got(Directory)
    {
      var k := Resolve(path);
      assert Parent(k) in dirs;
      assert forall i :: 0 <= i <= |Parent(k)| ==> Parent(k)[..i] == k[..i];
    }
  }

  /** In a tree where every entry's parent is a directory, no ancestor of an
      entry is a regular file. */
  lemma {:induction false} NoFileAncestor(files: map<Path, seq<byte>>, dirs: map<Path, nat>, k: Path, i: nat)
    requires forall q :: q in files ==> q != [] && Parent(q) in dirs
    requires forall q :: q in dirs && q != [] ==> Parent(q) in dirs
    requires files.Keys !! dirs.Keys
    requires k in files || k in dirs
    requires i < |k|
    ensures k[..i] !in files
    decreases |k|
  {
    if i < |k| - 1 {
      assert Parent(k)[..i] == k[..i];
      NoFileAncestor(files, dirs, Parent(k), i);
    }
  }

  /** Every ancestor of a directory is a directory. */
  lemma {:induction false} DirAncestors(dirs: map<Path, nat>, k: Path, i: nat)
    requires forall q :: q in dirs && q != [] ==> Parent(q) in dirs
    requires k in dirs && i <= |k|
    ensures k[..i] in dirs
    decreases |k|
  {
    if i < |k| {
      assert Parent(k)[..i] == k[..i];
      DirAncestors(dirs, Parent(k), i);
    } else {
      assert k[..i] == k;
    }
  }
}
