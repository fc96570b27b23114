/**
 An abstract filesystem and the operating-system calls the tools make on it
 (`os.path.exists`, `os.path.isdir`, `os.path.dirname`, `os.path.join`,
 `os.listdir`, `os.makedirs(..., exist_ok=True)`, and `open` for reading and
 for writing), with the errors those calls raise.

 A location is a root (the working directory, or `/` for an absolute path)
 and the sequence of names below it. Directories and files are sets of
 locations; both roots are always directories. Failures the model does not
 analyse are given per location with their message: `readFaults` for opening
 a file for reading or listing a directory (a decoding error, a permission
 error), `writeFaults` for opening a file for writing or making a directory
 (a permission error, a read-only filesystem). A read fault on a file belongs
 to the text stored there, so writing the file clears it.

 Files are opened in text mode: reading translates line endings (universal
 newlines); writing stores the text as it is, the line separator being `\n`.
 */
module Files {
  import opened Wrappers
  import Text

  datatype Loc = Loc(absolute: bool, names: seq<string>)

  datatype FileSystem = FileSystem(
    files: map<Loc, string>,
    dirs: set<Loc>,
    readFaults: map<Loc, string>,
    writeFaults: map<Loc, string>)

  /** The errors the calls raise, as Python's exception classes. */
  datatype OsError =
    | NotFound(path: string)       // FileNotFoundError
    | IsADirectory(path: string)   // IsADirectoryError
    | NotADirectory(path: string)  // NotADirectoryError
    | FileExists(path: string)     // FileExistsError
    | Fault(message: string)       // any other failure, with its message

  /** `str(e)` for the error: an error about a path ends with that path in
      quotes; any other failure is its own message. */
  function Describe(e: OsError): (r: string)
    ensures e.Fault? ==> r == e.message
    ensures !e.Fault? ==> |r| >= 7 + |e.path| + 2 && r[..7] == "[Errno " && r[|r| - |e.path| - 2..] == "'" + e.path + "'"
  {
    match e
    case NotFound(p) => ErrnoText("2", "No such file or directory", p)
    case IsADirectory(p) => ErrnoText("21", "Is a directory", p)
    case NotADirectory(p) => ErrnoText("20", "Not a directory", p)
    case FileExists(p) => ErrnoText("17", "File exists", p)
    case Fault(m) => m
  }

  /** `[Errno <code>] <reason>: '<path>'`, the form of an `OSError` about a path. */
  function ErrnoText(code: string, reason: string, p: string): (r: string)
    ensures |r| >= 7 + |p| + 2 && r[..7] == "[Errno " && r[|r| - |p| - 2..] == "'" + p + "'"
  {
    var r := "[Errno " + code + "] " + reason + ": '" + p + "'";
    assert r == "[Errno " + (code + "] " + reason + ": ") + ("'" + p + "'");
    r
  }

  // ---------------------------------------------------------------------
  // Path strings

  /** `p.split('/')`. */
  function Segments(p: string): (r: seq<string>)
    ensures |r| >= 1
    ensures forall k :: 0 <= k < |r| ==> '/' !in r[k]
    decreases |p|
  {
    if p == [] then [""]
    else
      var rest := Segments(p[1..]);
      if p[0] == '/' then [""] + rest
      else [[p[0]] + rest[0]] + rest[1..]
  }

  /** A name that can stand for one entry of a directory. */
  predicate WellFormedName(n: string) {
    n != "" && n != "." && '/' !in n
  }

  /** The segments that name entries: empty segments and `.` are dropped. */
  function Entries(segments: seq<string>): (r: seq<string>)
    requires forall k :: 0 <= k < |segments| ==> '/' !in segments[k]
    ensures forall k :: 0 <= k < |r| ==> WellFormedName(r[k])
    decreases |segments|
  {
    if segments == [] then []
    else if segments[0] == "" || segments[0] == "." then Entries(segments[1..])
    else [segments[0]] + Entries(segments[1..])
  }

  function Components(p: string): (r: seq<string>)
    ensures forall k :: 0 <= k < |r| ==> WellFormedName(r[k])
  {
    Entries(Segments(p))
  }

  /** The text of a location as a path: its names joined by `/`, after a
      leading `/` for an absolute location. */
  function LocText(l: Loc): string {
    (if l.absolute then "/" else "") + Text.JoinWith(l.names, "/")
  }

  /** The location a path string names; the empty path names nothing. */
  function Resolve(p: string): (r: Option<Loc>)
    ensures r.None? <==> p == ""
    ensures r.Some? ==> (r.value.absolute <==> p[0] == '/')
    ensures r.Some? ==> forall k :: 0 <= k < |r.value.names| ==> WellFormedName(r.value.names[k])
  {
    if p == "" then None else Some(Loc(p[0] == '/', Components(p)))
  }

  /** `os.path.join(a, b)`: an absolute `b` replaces `a`; otherwise the
      result starts with `a` and ends with `b`. */
  function JoinPath(a: string, b: string): (r: string)
    ensures b != "" && b[0] == '/' ==> r == b
    ensures !(b != "" && b[0] == '/') ==> a <= r && |b| <= |r| <= |a| + 1 + |b| && r[|r| - |b|..] == b
  {
    if b != "" && b[0] == '/' then b
    else if a == "" || a[|a| - 1] == '/' then a + b
    else a + "/" + b
  }

  /** The index just after the last `/` of `p`, or 0. */
  function LastSlashEnd(p: string): (i: nat)
    ensures i <= |p|
    ensures i > 0 ==> p[i - 1] == '/'
    ensures '/' !in p[i..]
    decreases |p|
  {
    if p == "" then 0
    else if p[|p| - 1] == '/' then |p|
    else
      var i := LastSlashEnd(p[..|p| - 1]);
      assert p[i..] == p[..|p| - 1][i..] + [p[|p| - 1]];
      i
  }

  function StripTrailingSlashes(h: string): (r: string)
    ensures r <= h
    decreases |h|
  {
    if h != "" && h[|h| - 1] == '/' then StripTrailingSlashes(h[..|h| - 1]) else h
  }

  predicate AllSlashes(h: string) {
    forall k :: 0 <= k < |h| ==> h[k] == '/'
  }

  /** `os.path.dirname(p)`: everything before the last `/`, without trailing
      slashes unless it consists of slashes only; a leading part of `p`, and
      empty when `p` has no `/`. */
  function DirName(p: string): (r: string)
    ensures r <= p
    ensures '/' !in p ==> r == ""
  {
    var head := p[..LastSlashEnd(p)];
    if head != "" && !AllSlashes(head) then StripTrailingSlashes(head) else head
  }

  // ---------------------------------------------------------------------
  // The tree

  function Prefix(l: Loc, k: nat): Loc
    requires k <= |l.names|
  {
    Loc(l.absolute, l.names[..k])
  }

  function Parent(l: Loc): Loc
    requires l.names != []
  {
    Prefix(l, |l.names| - 1)
  }

  predicate IsDir(fs: FileSystem, l: Loc) {
    l.names == [] || l in fs.dirs
  }

  /** Some proper ancestor of `l` is a file. */
  predicate UnderFile(fs: FileSystem, l: Loc) {
    exists k | 0 <= k < |l.names| :: Prefix(l, k) in fs.files
  }

  /** The prefixes of `l` from the `k`-th on. */
  function PrefixesFrom(l: Loc, k: nat): set<Loc> {
    set j | k <= j <= |l.names| :: Prefix(l, j)
  }

  /** `l` and its ancestors below the root. */
  function Ancestry(l: Loc): set<Loc> {
    PrefixesFrom(l, 1)
  }

  predicate IsChild(d: Loc, c: Loc) {
    c.absolute == d.absolute && |c.names| == |d.names| + 1 && c.names[..|d.names|] == d.names
  }

  /** The names of the entries of directory `d`. */
  function ChildNames(fs: FileSystem, d: Loc): set<string> {
    set c | c in fs.files.Keys + fs.dirs && IsChild(d, c) :: c.names[|d.names|]
  }

  /** A well-formed tree: no location is both a file and a directory, a root
      is not a file, every entry sits in a directory, and every name on a
      location names a directory entry. */
  ghost predicate Valid(fs: FileSystem) {
    && fs.files.Keys !! fs.dirs
    && (forall l :: l in fs.files ==> l.names != [])
    && (forall l :: l in fs.files && l.names != [] ==> IsDir(fs, Parent(l)))
    && (forall l :: l in fs.dirs && l.names != [] ==> IsDir(fs, Parent(l)))
    && (forall l, k :: l in fs.files && 0 <= k < |l.names| ==> WellFormedName(l.names[k]))
    && (forall l, k :: l in fs.dirs && 0 <= k < |l.names| ==> WellFormedName(l.names[k]))
  }

  /** In a well-formed tree every ancestor of an entry is a directory. */
  lemma {:induction false} AncestorsAreDirs(fs: FileSystem, l: Loc, k: nat)
    requires Valid(fs) && (l in fs.files || l in fs.dirs) && k < |l.names|
    ensures IsDir(fs, Prefix(l, k))
    decreases |l.names| - k
  {
    var p := Parent(l);
    assert IsDir(fs, p);
    if k < |p.names| {
      AncestorsAreDirs(fs, p, k);
      assert Prefix(p, k) == Prefix(l, k);
    }
  }

  /** An entry of a well-formed tree is never below a file. */
  lemma EntryNotUnderFile(fs: FileSystem, l: Loc)
    requires Valid(fs) && (l in fs.files || l in fs.dirs)
    ensures !UnderFile(fs, l)
  {
    forall k | 0 <= k < |l.names| ensures Prefix(l, k) !in fs.files {
      AncestorsAreDirs(fs, l, k);
    }
  }

  // ---------------------------------------------------------------------
  // The calls

  /** `os.path.exists(path)`; the empty path never exists. */
  predicate Exists(fs: FileSystem, path: string)
    ensures path == "" ==> !Exists(fs, path)
  {
    match Resolve(path)
    case None => false
    case Some(l) => IsDir(fs, l) || l in fs.files
  }

  /** `os.path.isdir(path)`: only a path that exists is a directory. */
  predicate IsDirPath(fs: FileSystem, path: string)
    ensures IsDirPath(fs, path) ==> Exists(fs, path)
  {
    match Resolve(path)
    case None => false
    case Some(l) => IsDir(fs, l)
  }

  /** What reading a stored text in text mode returns: universal newlines
      turn `\r\n` and a lone `\r` into `\n`. The result holds no `\r`, and
      text without one is returned as it is. */
  function Universal(s: string): (r: string)
    ensures '\r' !in r
    ensures '\r' !in s ==> r == s
    decreases |s|
  {
    if s == [] then []
    else if s[0] == '\r' then
      if |s| > 1 && s[1] == '\n' then "\n" + Universal(s[2..]) else "\n" + Universal(s[1..])
    else
      assert s == [s[0]] + s[1..];
      [s[0]] + Universal(s[1..])
  }

  /** The translation is the two replacements `s.replace("\r\n", "\n")`
      then `.replace("\r", "\n")`, in that order. */
  lemma {:induction false} UniversalReplaces(s: string)
    ensures Universal(s) == Text.ReplaceAll(Text.ReplaceAll(s, "\r\n", "\n"), "\r", "\n")
    decreases |s|
  {
    if s == [] {
    } else if s[0] == '\r' && |s| > 1 && s[1] == '\n' {
      UniversalReplaces(s[2..]);
      assert s[0..2] == "\r\n";
      Text.ReplaceMatch(s, "\r\n", "\n");
      var t := Text.ReplaceAll(s[2..], "\r\n", "\n");
      assert ("\n" + t)[1..] == t;
      Text.ReplaceHeadMiss("\n" + t, "\r", "\n");
    } else if s[0] == '\r' {
      UniversalReplaces(s[1..]);
      assert !Text.OccursAt(s, "\r\n", 0) by {
        if |s| >= 2 { assert s[0..2][1] == s[1]; }
      }
      Text.ReplaceHeadMiss(s, "\r\n", "\n");
      var t := Text.ReplaceAll(s[1..], "\r\n", "\n");
      assert ("\r" + t)[0..1] == "\r" && ("\r" + t)[1..] == t;
      Text.ReplaceMatch("\r" + t, "\r", "\n");
    } else {
      UniversalReplaces(s[1..]);
      assert !Text.OccursAt(s, "\r\n", 0) by {
        if |s| >= 2 { assert s[0..2][0] == s[0]; }
      }
      Text.ReplaceHeadMiss(s, "\r\n", "\n");
      var t := Text.ReplaceAll(s[1..], "\r\n", "\n");
      assert ([s[0]] + t)[1..] == t;
      assert !Text.OccursAt([s[0]] + t, "\r", 0) by {
        assert ([s[0]] + t)[0..1][0] == s[0];
      }
      Text.ReplaceHeadMiss([s[0]] + t, "\r", "\n");
    }
  }

  /** `open(path, "r").read()`: succeeds exactly on a readable file, with its
      text after newline translation; it reports a missing file only for a
      path that does not exist. */
  function ReadText(fs: FileSystem, path: string): (r: Result<string, OsError>)
    ensures r.Success? <==>
      Resolve(path).Some? && Resolve(path).value in fs.files && Resolve(path).value !in fs.readFaults
    ensures r.Success? ==> r.value == Universal(fs.files[Resolve(path).value])
    ensures r.Failure? && r.error.NotFound? ==> !Exists(fs, path)
  {
    match Resolve(path)
    case None => Failure(NotFound(path))
    case Some(l) =>
      if l in fs.files then
        if l in fs.readFaults then Failure(Fault(fs.readFaults[l])) else Success(Universal(fs.files[l]))
      else if IsDir(fs, l) then Failure(IsADirectory(path))
      else if UnderFile(fs, l) then Failure(NotADirectory(path))
      else Failure(NotFound(path))
  }

  /** `open(path, "w").write(text)`: creates or truncates a file whose
      directory exists. A successful write stores exactly `text` at the
      path's location, clears the read fault there and touches nothing
      else. */
  function WriteText(fs: FileSystem, path: string, text: string): (r: Result<FileSystem, OsError>)
    ensures r.Success? ==>
      && Resolve(path).Some?
      && Resolve(path).value.names != []
      && IsDir(fs, Parent(Resolve(path).value))
      && r.value == fs.(files := fs.files[Resolve(path).value := text],
                        readFaults := fs.readFaults - {Resolve(path).value})
  {
    match Resolve(path)
    case None => Failure(NotFound(path))
    case Some(l) =>
      if IsDir(fs, l) then Failure(IsADirectory(path))
      else if l in fs.writeFaults then Failure(Fault(fs.writeFaults[l]))
      else if UnderFile(fs, l) then Failure(NotADirectory(path))
      else if !IsDir(fs, Parent(l)) then Failure(NotFound(path))
      else Success(fs.(files := fs.files[l := text], readFaults := fs.readFaults - {l}))
  }

  /** `os.makedirs(path, exist_ok=True)` from the `k`-th prefix of `l` (the
      location `path` names) down to `l`. Prefixes that are directories are
      passed; the first one that is not is made with `os.mkdir`, and so is
      each one below it. `os.mkdir` fails on a file: on `l` itself the file
      exists, above `l` the prefix below the file is not in a directory. It
      also fails on a write fault. On success every prefix from the `k`-th
      on is a directory, and only directories were added. */
  function MakeFrom(fs: FileSystem, path: string, l: Loc, k: nat): (r: Result<FileSystem, OsError>)
    requires k >= 1
    ensures r.Success? ==>
      && r.value.files == fs.files
      && r.value.readFaults == fs.readFaults && r.value.writeFaults == fs.writeFaults
      && fs.dirs <= r.value.dirs
    ensures r.Success? ==> forall j :: k <= j <= |l.names| ==> IsDir(r.value, Prefix(l, j))
    decreases |l.names| + 1 - k
  {
    if k > |l.names| then Success(fs)
    else
      var d := Prefix(l, k);
      if IsDir(fs, d) then MakeFrom(fs, path, l, k + 1)
      else if d in fs.files then
        if k == |l.names| then Failure(FileExists(path))
        else Failure(NotADirectory(LocText(Prefix(l, k + 1))))
      else if d in fs.writeFaults then Failure(Fault(fs.writeFaults[d]))
      else MakeFrom(fs.(dirs := fs.dirs + {d}), path, l, k + 1)
  }

  /** `os.makedirs(path, exist_ok=True)`: afterwards `path` is a directory,
      and only directories were added. */
  function MakeDirs(fs: FileSystem, path: string): (r: Result<FileSystem, OsError>)
    ensures r.Success? ==> IsDirPath(r.value, path)
    ensures r.Success? ==>
      && r.value.files == fs.files
      && r.value.readFaults == fs.readFaults && r.value.writeFaults == fs.writeFaults
      && fs.dirs <= r.value.dirs
  {
    match Resolve(path)
    case None => Failure(NotFound(path))
    case Some(l) =>
      assert l.names != [] ==> Prefix(l, |l.names|) == l;
      MakeFrom(fs, path, l, 1)
  }

  /** `os.listdir(path)`, as the set of names it lists: succeeds exactly on a
      readable directory, with the names of its entries. */
  function ListDir(fs: FileSystem, path: string): (r: Result<set<string>, OsError>)
    ensures r.Success? <==>
      IsDirPath(fs, path) && Resolve(path).value !in fs.files && Resolve(path).value !in fs.readFaults
    ensures r.Success? ==> r.value == ChildNames(fs, Resolve(path).value)
  {
    match Resolve(path)
    case None => Failure(NotFound(path))
    case Some(l) =>
      if l in fs.files then Failure(NotADirectory(path))
      else if !IsDir(fs, l) then
        if UnderFile(fs, l) then Failure(NotADirectory(path)) else Failure(NotFound(path))
      else if l in fs.readFaults then Failure(Fault(fs.readFaults[l]))
      else Success(ChildNames(fs, l))
  }

  // ---------------------------------------------------------------------
  // Properties of the calls

  /** Reading translates `\r\n` and a lone `\r` to `\n`. */
  lemma UniversalExample()
    ensures Universal("a\r\nb\r") == "a\nb\n"
  {
    assert Universal("\r") == "\n" by {
      assert "\r"[1..] == [];
    }
    assert Universal("b\r") == "b\n" by {
      assert "b\r"[1..] == "\r";
    }
    assert Universal("\r\nb\r") == "\nb\n" by {
      assert "\r\nb\r"[2..] == "b\r";
    }
    assert "a\r\nb\r"[1..] == "\r\nb\r";
  }

  /** Writing keeps the tree well-formed. */
  lemma WriteTextValid(fs: FileSystem, path: string, text: string)
    requires Valid(fs) && WriteText(fs, path, text).Success?
    ensures Valid(WriteText(fs, path, text).value)
  {
    var l := Resolve(path).value;
    var fs' := WriteText(fs, path, text).value;
    forall l', k | l' in fs'.files && 0 <= k < |l'.names| ensures WellFormedName(l'.names[k]) {
      if l' == l {
        assert l.names == Components(path);
      }
    }
  }

  /** `os.makedirs` keeps the tree well-formed. */
  lemma MakeDirsValid(fs: FileSystem, path: string)
    requires Valid(fs) && MakeDirs(fs, path).Success?
    ensures Valid(MakeDirs(fs, path).value)
  {
    var l := Resolve(path).value;
    assert Prefix(l, 0).names == [];
    MakeFromValid(fs, path, l, 1);
  }

  lemma {:induction false} MakeFromValid(fs: FileSystem, path: string, l: Loc, k: nat)
    requires Valid(fs) && 1 <= k <= |l.names| + 1 && IsDir(fs, Prefix(l, k - 1))
    requires forall j :: 0 <= j < |l.names| ==> WellFormedName(l.names[j])
    requires MakeFrom(fs, path, l, k).Success?
    ensures Valid(MakeFrom(fs, path, l, k).value)
    decreases |l.names| + 1 - k
  {
    if k <= |l.names| {
      var d := Prefix(l, k);
      if IsDir(fs, d) {
        MakeFromValid(fs, path, l, k + 1);
      } else {
        var fs' := fs.(dirs := fs.dirs + {d});
        assert Parent(d) == Prefix(l, k - 1);
        AddDirValid(fs, d);
        MakeFromValid(fs', path, l, k + 1);
      }
    }
  }

  /** Adding a directory with well-formed names, in a directory and not a
      file, keeps the tree well-formed. */
  lemma AddDirValid(fs: FileSystem, d: Loc)
    requires Valid(fs) && d.names != [] && d !in fs.files && IsDir(fs, Parent(d))
    requires forall j :: 0 <= j < |d.names| ==> WellFormedName(d.names[j])
    ensures Valid(fs.(dirs := fs.dirs + {d}))
  {
  }

  /** Without a file on the way, and with write faults only on directories,
      `os.makedirs` from the `k`-th prefix succeeds and adds exactly the
      missing prefixes. */
  lemma {:induction false} MakeFromAll(fs: FileSystem, path: string, l: Loc, k: nat)
    requires k >= 1
    requires forall j :: k <= j <= |l.names| ==> Prefix(l, j) !in fs.files
    requires forall j :: k <= j <= |l.names| && Prefix(l, j) in fs.writeFaults ==> IsDir(fs, Prefix(l, j))
    ensures MakeFrom(fs, path, l, k) == Success(fs.(dirs := fs.dirs + PrefixesFrom(l, k)))
    decreases |l.names| + 1 - k
  {
    if k > |l.names| {
      assert PrefixesFrom(l, k) == {};
      assert fs.(dirs := fs.dirs + {}) == fs;
    } else {
      var d := Prefix(l, k);
      assert PrefixesFrom(l, k) == {d} + PrefixesFrom(l, k + 1);
      if IsDir(fs, d) {
        MakeFromAll(fs, path, l, k + 1);
        assert fs.dirs + PrefixesFrom(l, k) == fs.dirs + PrefixesFrom(l, k + 1);
      } else {
        var fs' := fs.(dirs := fs.dirs + {d});
        MakeFromAll(fs', path, l, k + 1);
        assert fs'.dirs + PrefixesFrom(l, k + 1) == fs.dirs + PrefixesFrom(l, k);
      }
    }
  }

  /** `os.makedirs` on a path with no file on the way, and write faults only
      on directories, makes exactly the missing directories. */
  lemma MakeDirsAll(fs: FileSystem, path: string, l: Loc)
    requires Resolve(path) == Some(l)
    requires forall j :: 1 <= j <= |l.names| ==> Prefix(l, j) !in fs.files
    requires forall j :: 1 <= j <= |l.names| && Prefix(l, j) in fs.writeFaults ==> IsDir(fs, Prefix(l, j))
    ensures MakeDirs(fs, path) == Success(fs.(dirs := fs.dirs + Ancestry(l)))
  {
    MakeFromAll(fs, path, l, 1);
  }

  /** `os.makedirs` on a path through a file reports the directory it could
      not make, the prefix just below the file (`f/x` for `f/x/y` and a
      file `f`); on the file itself it reports that the file exists. */
  lemma MakeDirsBelowFile(fs: FileSystem, path: string, l: Loc, k: nat)
    requires Valid(fs) && Resolve(path) == Some(l)
    requires 1 <= k <= |l.names| && Prefix(l, k) in fs.files
    ensures k < |l.names| ==> MakeDirs(fs, path) == Failure(NotADirectory(LocText(Prefix(l, k + 1))))
    ensures k == |l.names| ==> MakeDirs(fs, path) == Failure(FileExists(path))
  {
    forall i | 1 <= i < k ensures IsDir(fs, Prefix(l, i)) {
      AncestorsAreDirs(fs, Prefix(l, k), i);
      assert Prefix(Prefix(l, k), i) == Prefix(l, i);
    }
    MakeFromBelowFile(fs, path, l, 1, k);
  }

  lemma {:induction false} MakeFromBelowFile(fs: FileSystem, path: string, l: Loc, j: nat, k: nat)
    requires 1 <= j <= k <= |l.names|
    requires forall i :: j <= i < k ==> IsDir(fs, Prefix(l, i))
    requires Prefix(l, k) in fs.files && Prefix(l, k) !in fs.dirs
    ensures k < |l.names| ==> MakeFrom(fs, path, l, j) == Failure(NotADirectory(LocText(Prefix(l, k + 1))))
    ensures k == |l.names| ==> MakeFrom(fs, path, l, j) == Failure(FileExists(path))
    decreases k - j
  {
    if j < k {
      MakeFromBelowFile(fs, path, l, j + 1, k);
    }
  }

  /** The path text of the location `f/x`. */
  lemma LocTextExample()
    ensures LocText(Loc(false, ["f", "x"])) == "f/x"
  {
    assert ["f", "x"][1..] == ["x"];
  }

  lemma {:induction false} SegmentsAppend(a: string, b: string)
    ensures Segments(a + "/" + b) == Segments(a) + Segments(b)
    decreases |a|
  {
    if a == [] {
      assert a + "/" + b == "/" + b;
      assert ("/" + b)[1..] == b;
    } else {
      assert (a + "/" + b)[1..] == a[1..] + "/" + b;
      SegmentsAppend(a[1..], b);
    }
  }

  lemma {:induction false} EntriesAppend(x: seq<string>, y: seq<string>)
    requires forall k :: 0 <= k < |x| ==> '/' !in x[k]
    requires forall k :: 0 <= k < |y| ==> '/' !in y[k]
    ensures Entries(x + y) == Entries(x) + Entries(y)
    decreases |x|
  {
    if x == [] {
      assert x + y == y;
    } else {
      var xy := x + y;
      assert xy[0] == x[0] && xy[1..] == x[1..] + y;
      EntriesAppend(x[1..], y);
      if x[0] != "" && x[0] != "." {
        assert Entries(xy) == [x[0]] + Entries(xy[1..]);
        assert Entries(x) == [x[0]] + Entries(x[1..]);
      }
    }
  }

  lemma ComponentsAppend(a: string, b: string)
    ensures Components(a + "/" + b) == Components(a) + Components(b)
  {
    SegmentsAppend(a, b);
    EntriesAppend(Segments(a), Segments(b));
  }

  lemma {:induction false} SegmentsOfName(n: string)
    requires '/' !in n
    ensures Segments(n) == [n]
    decreases |n|
  {
    if n != [] {
      SegmentsOfName(n[1..]);
      assert n == [n[0]] + n[1..];
    }
  }

  lemma ComponentsOfName(n: string)
    requires WellFormedName(n)
    ensures Components(n) == [n]
  {
    SegmentsOfName(n);
    var segs := [n];
    assert segs[0] == n && segs[1..] == [];
    assert Entries(segs[1..]) == [];
    assert Entries(segs) == [n] + Entries(segs[1..]);
  }

  lemma {:induction false} StripTrailingSlashesComponents(h: string)
    requires !AllSlashes(h)
    ensures StripTrailingSlashes(h) != "" && StripTrailingSlashes(h)[0] == h[0]
    ensures Components(StripTrailingSlashes(h)) == Components(h)
    decreases |h|
  {
    if h[|h| - 1] == '/' {
      var h' := h[..|h| - 1];
      assert !AllSlashes(h') by {
        var k :| 0 <= k < |h| && h[k] != '/';
        assert h'[k] == h[k];
      }
      StripTrailingSlashesComponents(h');
      ComponentsAppend(h', "");
      assert h' + "/" + "" == h;
      assert Components("") == [];
    }
  }

  lemma {:induction false} AllSlashesComponents(h: string)
    requires AllSlashes(h)
    ensures Components(h) == []
    decreases |h|
  {
    if h != [] {
      AllSlashesComponents(h[1..]);
    }
  }

  /** The last `/`-separated part of `p` names an entry. */
  predicate TailName(p: string) {
    WellFormedName(p[LastSlashEnd(p)..])
  }

  /** For a path whose last part names an entry, `os.path.dirname` names the
      directory that holds that entry; without a `/` the entry sits in the
      working directory. */
  lemma DirNameIsParent(p: string)
    requires TailName(p)
    ensures Resolve(p).Some? && Resolve(p).value.names != []
    ensures LastSlashEnd(p) == 0 <==> DirName(p) == ""
    ensures LastSlashEnd(p) == 0 ==> Resolve(p).value == Loc(false, [p])
    ensures DirName(p) != "" ==> Resolve(DirName(p)) == Some(Parent(Resolve(p).value))
  {
    var i := LastSlashEnd(p);
    ComponentsOfName(p[i..]);
    if i == 0 {
      assert p == p[i..];
    } else {
      ComponentsAtLastSlash(p);
      HeadResolves(p[..i]);
      assert p[..i][0] == p[0];
    }
  }

  /** The components of a path are those of its part up to the last `/`,
      then its last part. */
  lemma ComponentsAtLastSlash(p: string)
    requires TailName(p) && LastSlashEnd(p) > 0
    ensures Components(p) == Components(p[..LastSlashEnd(p)]) + [p[LastSlashEnd(p)..]]
  {
    var i := LastSlashEnd(p);
    var tail := p[i..];
    var a := p[..i - 1];
    ComponentsOfName(tail);
    assert p == a + "/" + tail;
    ComponentsAppend(a, tail);
    assert p[..i] == a + "/" + "";
    ComponentsAppend(a, "");
    assert Components("") == [];
  }

  /** The directory part `os.path.dirname` keeps of a head ending in `/`
      names the same location as the head. */
  lemma HeadResolves(head: string)
    requires head != "" && head[|head| - 1] == '/'
    ensures var d := if !AllSlashes(head) then StripTrailingSlashes(head) else head;
      d != "" && d[0] == head[0] && Components(d) == Components(head)
  {
    if AllSlashes(head) {
      AllSlashesComponents(head);
    } else {
      StripTrailingSlashesComponents(head);
    }
  }
}
