/**
 The tool executor of `AIAgent`: `_read_file`, `_list_files`, `_edit_file`
 and the dispatcher `_execute_tool`, which turns a tool name and an argument
 dictionary into a result text and never lets an error escape.

 Each tool is a function from a filesystem and its arguments to an `Effect`:
 the result text and the filesystem afterwards. The functions are the
 specification; `ListFiles`, `EditFile` and `ExecuteTool` are the step-by-step
 code, each proved to compute its function.
 */
module Tools {
  import opened Wrappers
  import opened Text
  import opened Names
  import opened Files

  /** A tool's result text and the filesystem it leaves. */
  datatype Effect = Effect(output: string, fs: FileSystem)

  // ---------------------------------------------------------------------
  // read_file

  /** `_read_file(path)`: a readable file gives its whole content as a
      text-mode read returns it (line ends translated); a path that does not
      exist is reported as not found, unless it runs through a file (then
      the error is "Not a directory"). */
  function ReadFile(fs: FileSystem, path: string): (r: string)
    ensures Resolve(path).Some? && Resolve(path).value in fs.files && Resolve(path).value !in fs.readFaults ==>
      r == "File contents of " + path + ":\n" + Universal(fs.files[Resolve(path).value])
    ensures !Exists(fs, path) && (Resolve(path).Some? ==> !UnderFile(fs, Resolve(path).value)) ==>
      r == "File not found: " + path
  {
    match ReadText(fs, path)
    case Success(content) => "File contents of " + path + ":\n" + content
    case Failure(NotFound(_)) => "File not found: " + path
    case Failure(e) => "Error reading file: " + Describe(e)
  }

  // ---------------------------------------------------------------------
  // list_files

  /** The line `_list_files` writes for one entry of directory `path`: a
      7-character tag, `[DIR]  ` exactly when the entry is a directory, then
      the entry's name. */
  function Label(fs: FileSystem, path: string, name: string): (r: string)
    ensures |r| >= 7 + |name| && r[7..7 + |name|] == name
    ensures r[..7] == "[DIR]  " <==> IsDirPath(fs, JoinPath(path, name))
  {
    if IsDirPath(fs, JoinPath(path, name)) then "[DIR]  " + name + "/"
    else
      assert ("[FILE] " + name)[1] == 'F';
      "[FILE] " + name
  }

  function Labels(fs: FileSystem, path: string, names: seq<string>): seq<string> {
    seq(|names|, i requires 0 <= i < |names| => Label(fs, path, names[i]))
  }

  /** The text `_list_files` returns for the entries `names`, in that order;
      "Empty directory" exactly when there are none. */
  function Render(fs: FileSystem, path: string, names: seq<string>): (r: string)
    ensures names == [] <==> r == "Empty directory: " + path
  {
    var items := Labels(fs, path, names);
    if items == [] then "Empty directory: " + path
    else
      assert ("Contents of " + path + ":\n" + JoinWith(items, "\n"))[0] == 'C';
      "Contents of " + path + ":\n" + JoinWith(items, "\n")
  }

  /** `_list_files(path)`: the entries sorted by name. Which listing order
      `os.listdir` used does not matter (see `ListingIgnoresOrder`). A path
      that does not exist is reported and nothing is listed. */
  ghost function Listing(fs: FileSystem, path: string): (r: string)
    ensures !Exists(fs, path) ==> r == "Path not found: " + path
  {
    if !Exists(fs, path) then "Path not found: " + path
    else
      match ListDir(fs, path)
      case Failure(e) => "Error listing files: " + Describe(e)
      case Success(names) => Render(fs, path, Sorted(SomeOrder(names)))
  }

  /** Sorting any listing of a directory's entries gives the same text. */
  lemma ListingIgnoresOrder(fs: FileSystem, path: string, listed: seq<string>)
    requires Exists(fs, path) && ListDir(fs, path).Success?
    requires Distinct(listed) && forall x :: x in listed <==> x in ListDir(fs, path).value
    ensures Render(fs, path, Sorted(listed)) == Listing(fs, path)
  {
    var names := ListDir(fs, path).value;
    DistinctMultiset(listed, SomeOrder(names));
    SortedIgnoresOrder(listed, SomeOrder(names));
  }

  /** `_list_files(path)`, step by step: list, sort, label each entry. */
  method ListFiles(fs: FileSystem, path: string) returns (output: string)
    ensures output == Listing(fs, path)
  {
    if !Exists(fs, path) {
      return "Path not found: " + path;
    }
    var listed := ListDir(fs, path);
    if listed.Failure? {
      return "Error listing files: " + Describe(listed.error);
    }
    var entries := ListOrder(listed.value);
    var names := Sorted(entries);
    var items: seq<string> := [];
    for i := 0 to |names|
      invariant |items| == i
      invariant forall k :: 0 <= k < i ==> items[k] == Label(fs, path, names[k])
    {
      var item := names[i];
      var itemPath := JoinPath(path, item);
      if IsDirPath(fs, itemPath) {
        items := items + ["[DIR]  " + item + "/"];
      } else {
        items := items + ["[FILE] " + item];
      }
    }
    RenderSorted(fs, path, entries, items);
    if items == [] {
      return "Empty directory: " + path;
    }
    output := "Contents of " + path + ":\n" + JoinWith(items, "\n");
  }

  /** The labels of a sorted enumeration of a directory's entries render as
      its listing. */
  lemma RenderSorted(fs: FileSystem, path: string, listed: seq<string>, items: seq<string>)
    requires Exists(fs, path) && ListDir(fs, path).Success?
    requires Distinct(listed) && forall x :: x in listed <==> x in ListDir(fs, path).value
    requires |items| == |Sorted(listed)|
    requires forall k :: 0 <= k < |items| ==> items[k] == Label(fs, path, Sorted(listed)[k])
    ensures Listing(fs, path) ==
      if items == [] then "Empty directory: " + path else "Contents of " + path + ":\n" + JoinWith(items, "\n")
  {
    assert items == Labels(fs, path, Sorted(listed));
    ListingIgnoresOrder(fs, path, listed);
  }

  /** `os.path.join` of a directory path and an entry name names that entry. */
  lemma ResolveJoin(path: string, n: string)
    requires path != "" && WellFormedName(n)
    ensures Resolve(JoinPath(path, n)) == Some(Loc(path[0] == '/', Components(path) + [n]))
  {
    ComponentsOfName(n);
    assert n[0] != '/' by { assert n[0] in n; }
    if path[|path| - 1] == '/' {
      var a := path[..|path| - 1];
      assert path == a + "/" + "";
      assert JoinPath(path, n) == a + "/" + n;
      assert (a + "/" + n)[0] == path[0];
      ComponentsAppend(a, n);
      ComponentsAppend(a, "");
      assert Components("") == [] by {
        assert Segments("") == [""];
        assert [""][1..] == [];
      }
      assert Components(path) == Components(a);
    } else {
      assert (path + "/" + n)[0] == path[0];
      ComponentsAppend(path, n);
    }
  }

  /** The entries of directory `d` in the order a listing shows them. */
  ghost function Listed(fs: FileSystem, d: Loc): seq<string> {
    Sorted(SomeOrder(ChildNames(fs, d)))
  }

  /** A listing shows every entry of the directory once, in ascending order. */
  lemma ListedNames(fs: FileSystem, d: Loc)
    ensures Ascending(Listed(fs, d))
    ensures forall n :: n in Listed(fs, d) <==> n in ChildNames(fs, d)
  {
    var entries := SomeOrder(ChildNames(fs, d));
    var names := Sorted(entries);
    forall n | n in names ensures n in ChildNames(fs, d) {
      assert n in multiset(entries);
    }
    forall n | n in ChildNames(fs, d) ensures n in names {
      assert n in multiset(names);
    }
  }

  /** An entry of directory `path` is labelled a directory exactly when the
      entry is one. */
  lemma LabelOfEntry(fs: FileSystem, path: string, d: Loc, n: string)
    requires Valid(fs) && Resolve(path) == Some(d) && n in ChildNames(fs, d)
    ensures Label(fs, path, n) ==
      if Loc(d.absolute, d.names + [n]) in fs.dirs then "[DIR]  " + n + "/" else "[FILE] " + n
  {
    var c :| c in fs.files.Keys + fs.dirs && IsChild(d, c) && c.names[|d.names|] == n;
    assert WellFormedName(c.names[|d.names|]);
    ResolveJoin(path, n);
  }

  /** A readable directory is listed by rendering its sorted entries. */
  lemma ListingRender(fs: FileSystem, path: string, d: Loc)
    requires Valid(fs) && Resolve(path) == Some(d) && IsDir(fs, d) && d !in fs.readFaults
    ensures Listing(fs, path) == Render(fs, path, Listed(fs, d))
  {
    assert d !in fs.files;
    assert ListDir(fs, path) == Success(ChildNames(fs, d));
  }

  /** The listing of a readable directory: its entries, each once, in
      ascending name order, a directory marked `[DIR]  name/` and anything
      else `[FILE] name`; no entries gives "Empty directory". */
  lemma ListingOfDirectory(fs: FileSystem, path: string, d: Loc)
    requires Valid(fs) && Resolve(path) == Some(d) && IsDir(fs, d) && d !in fs.readFaults
    ensures Ascending(Listed(fs, d))
    ensures forall n :: n in Listed(fs, d) <==> n in ChildNames(fs, d)
    ensures forall n :: n in ChildNames(fs, d) ==>
      Label(fs, path, n) ==
        if Loc(d.absolute, d.names + [n]) in fs.dirs then "[DIR]  " + n + "/" else "[FILE] " + n
    ensures Listing(fs, path) ==
      if ChildNames(fs, d) == {} then "Empty directory: " + path
      else "Contents of " + path + ":\n" + JoinWith(Labels(fs, path, Listed(fs, d)), "\n")
  {
    assert d !in fs.files;
    ListedNames(fs, d);
    forall n | n in ChildNames(fs, d)
      ensures Label(fs, path, n) ==
        if Loc(d.absolute, d.names + [n]) in fs.dirs then "[DIR]  " + n + "/" else "[FILE] " + n
    {
      LabelOfEntry(fs, path, d, n);
    }
    ListingRender(fs, path, d);
    var names := Listed(fs, d);
    assert |Labels(fs, path, names)| == |names|;
    if ChildNames(fs, d) != {} {
      var n :| n in ChildNames(fs, d);
      assert n in names;
    }
  }

  /** Three entries `x`, `y`, `z` with `x < y < z` are listed in that order. */
  lemma ThreeEntriesOrder(fs: FileSystem, d: Loc, x: string, y: string, z: string)
    requires ChildNames(fs, d) == {x, y, z} && Below(x, y) && Below(y, z)
    ensures Listed(fs, d) == [x, y, z]
  {
    var listed := Listed(fs, d);
    ListedNames(fs, d);
    forall n ensures n in listed <==> n == x || n == y || n == z {
      assert n in listed <==> n in {x, y, z};
    }
    AscendingThree(listed, x, y, z);
  }

  /** A directory holding files `x` and `y` and a directory `z`, with
      `x < y < z`, is listed in that order with `z` marked, whatever order the
      directory yields its entries in. */
  lemma ListingThree(fs: FileSystem, path: string, d: Loc, x: string, y: string, z: string)
    requires Valid(fs) && Resolve(path) == Some(d) && d in fs.dirs && d !in fs.readFaults
    requires ChildNames(fs, d) == {x, y, z} && Below(x, y) && Below(y, z)
    requires Loc(d.absolute, d.names + [x]) in fs.files && Loc(d.absolute, d.names + [y]) in fs.files
    requires Loc(d.absolute, d.names + [z]) in fs.dirs
    ensures Listing(fs, path) ==
      "Contents of " + path + ":\n" + JoinWith(["[FILE] " + x, "[FILE] " + y, "[DIR]  " + z + "/"], "\n")
  {
    ThreeEntriesOrder(fs, d, x, y, z);
    ListingRender(fs, path, d);
    ThreeLabels(fs, path, d, x, y, z);
  }

  lemma ThreeLabels(fs: FileSystem, path: string, d: Loc, x: string, y: string, z: string)
    requires Valid(fs) && Resolve(path) == Some(d) && ChildNames(fs, d) == {x, y, z}
    requires Loc(d.absolute, d.names + [x]) in fs.files && Loc(d.absolute, d.names + [y]) in fs.files
    requires Loc(d.absolute, d.names + [z]) in fs.dirs
    ensures Labels(fs, path, [x, y, z]) == ["[FILE] " + x, "[FILE] " + y, "[DIR]  " + z + "/"]
  {
    assert Loc(d.absolute, d.names + [x]) !in fs.dirs && Loc(d.absolute, d.names + [y]) !in fs.dirs;
    LabelOfEntry(fs, path, d, x);
    LabelOfEntry(fs, path, d, y);
    LabelOfEntry(fs, path, d, z);
    LabelsThree(fs, path, x, y, z);
  }

  /** Three entries are labelled one by one, in order. */
  lemma LabelsThree(fs: FileSystem, path: string, x: string, y: string, z: string)
    ensures Labels(fs, path, [x, y, z]) == [Label(fs, path, x), Label(fs, path, y), Label(fs, path, z)]
  {
    var labels := Labels(fs, path, [x, y, z]);
    assert labels[0] == Label(fs, path, x) && labels[1] == Label(fs, path, y) && labels[2] == Label(fs, path, z);
  }

  /** Entries `b.txt`, `a.txt` and directory `sub` of `d` are listed as
      `a.txt`, `b.txt`, `sub/`. */
  lemma ListingExample(fs: FileSystem)
    requires Valid(fs) && Loc(false, ["d"]) in fs.dirs && Loc(false, ["d"]) !in fs.readFaults
    requires ChildNames(fs, Loc(false, ["d"])) == {"b.txt", "a.txt", "sub"}
    requires Loc(false, ["d", "b.txt"]) in fs.files && Loc(false, ["d", "a.txt"]) in fs.files
    requires Loc(false, ["d", "sub"]) in fs.dirs
    ensures Listing(fs, "d") == "Contents of d:\n" + JoinWith(["[FILE] a.txt", "[FILE] b.txt", "[DIR]  sub/"], "\n")
  {
    var d := Loc(false, ["d"]);
    ComponentsOfName("d");
    assert Below("a.txt", "b.txt") && Below("b.txt", "sub");
    assert d.names + ["a.txt"] == ["d", "a.txt"] && d.names + ["b.txt"] == ["d", "b.txt"];
    assert d.names + ["sub"] == ["d", "sub"];
    ListingThree(fs, "d", d, "a.txt", "b.txt", "sub");
    ExampleText();
  }

  lemma ExampleText()
    ensures "Contents of " + "d" + ":\n" == "Contents of d:\n"
    ensures ["[FILE] " + "a.txt", "[FILE] " + "b.txt", "[DIR]  " + "sub" + "/"] == ["[FILE] a.txt", "[FILE] b.txt", "[DIR]  sub/"]
  {
    assert "[FILE] " + "a.txt" == "[FILE] a.txt";
    assert "[FILE] " + "b.txt" == "[FILE] b.txt";
    assert "[DIR]  " + "sub" + "/" == "[DIR]  sub/";
  }

  // ---------------------------------------------------------------------
  // edit_file

  function EditError(e: OsError): string {
    "Error editing file: " + Describe(e)
  }

  /** `_edit_file(path, old_text, new_text)`. Replace mode when the path
      exists and `old_text` is not empty, create mode otherwise. Faults stay
      as they are except that a written file can be read, directories are
      only added, and replace mode adds none. */
  function Edit(fs: FileSystem, path: string, oldText: string, newText: string): (r: Effect)
    ensures r.fs.writeFaults == fs.writeFaults
    ensures r.fs.readFaults == fs.readFaults ||
      (Resolve(path).Some? && r.fs.readFaults == fs.readFaults - {Resolve(path).value})
    ensures fs.dirs <= r.fs.dirs
    ensures Exists(fs, path) && oldText != "" ==> r.fs.dirs == fs.dirs
  {
    if Exists(fs, path) && oldText != "" then
      match ReadText(fs, path)
      case Failure(e) => Effect(EditError(e), fs)
      case Success(content) =>
        if !Contains(content, oldText) then Effect("Text not found in file: " + oldText, fs)
        else
          match WriteText(fs, path, ReplaceAll(content, oldText, newText))
          case Failure(e) => Effect(EditError(e), fs)
          case Success(fs') => Effect("Successfully edited " + path, fs')
    else
      var dirName := DirName(path);
      var made := if dirName != "" then MakeDirs(fs, dirName) else Success(fs);
      match made
      case Failure(e) => Effect(EditError(e), fs)
      case Success(fs1) =>
        match WriteText(fs1, path, newText)
        case Failure(e) => Effect(EditError(e), fs1)
        case Success(fs2) => Effect("Successfully created " + path, fs2)
  }

  /** `_edit_file`, step by step: read, check, replace, write back; or make
      the directories and write. */
  method EditFile(fs: FileSystem, path: string, oldText: string, newText: string)
    returns (output: string, fs': FileSystem)
    ensures Effect(output, fs') == Edit(fs, path, oldText, newText)
  {
    fs' := fs;
    if Exists(fs, path) && oldText != "" {
      var read := ReadText(fs, path);
      if read.Failure? {
        return EditError(read.error), fs';
      }
      var content := read.value;
      if !Contains(content, oldText) {
        return "Text not found in file: " + oldText, fs';
      }
      content := ReplaceAll(content, oldText, newText);
      var written := WriteText(fs', path, content);
      if written.Failure? {
        return EditError(written.error), fs';
      }
      fs' := written.value;
      output := "Successfully edited " + path;
    } else {
      var dirName := DirName(path);
      if dirName != "" {
        var made := MakeDirs(fs', dirName);
        if made.Failure? {
          return EditError(made.error), fs';
        }
        fs' := made.value;
      }
      var written := WriteText(fs', path, newText);
      if written.Failure? {
        return EditError(written.error), fs';
      }
      fs' := written.value;
      output := "Successfully created " + path;
    }
  }

  /** Replace mode: every leftmost non-overlapping occurrence of `oldText`
      in the content as read (line ends translated) is replaced by `newText`
      (the content is `newText.join(content.split(oldText))`) and nothing
      else changes. */
  lemma EditReplaceMode(fs: FileSystem, path: string, oldText: string, newText: string)
    requires Valid(fs) && oldText != ""
    requires Resolve(path).Some? && Resolve(path).value in fs.files
    requires Resolve(path).value !in fs.readFaults && Resolve(path).value !in fs.writeFaults
    requires Contains(Universal(fs.files[Resolve(path).value]), oldText)
    ensures var l := Resolve(path).value;
      var content := Universal(fs.files[l]);
      Edit(fs, path, oldText, newText) ==
        Effect("Successfully edited " + path,
               fs.(files := fs.files[l := JoinWith(Split(content, oldText), newText)]))
  {
    var l := Resolve(path).value;
    EntryNotUnderFile(fs, l);
    ReplaceAllSplit(Universal(fs.files[l]), oldText, newText);
  }

  /** Replace mode without a match in the content as read: the result says
      so and the filesystem is unchanged. */
  lemma EditTextNotFound(fs: FileSystem, path: string, oldText: string, newText: string)
    requires oldText != ""
    requires Resolve(path).Some? && Resolve(path).value in fs.files && Resolve(path).value !in fs.readFaults
    requires !Contains(Universal(fs.files[Resolve(path).value]), oldText)
    ensures Edit(fs, path, oldText, newText) == Effect("Text not found in file: " + oldText, fs)
  {
  }

  /** Reading translates line ends, so an `oldText` holding `\r` is never
      found: editing `\r\n` in a file with `\r\n` line ends reports that
      the text was not found. */
  lemma EditCarriageReturn(fs: FileSystem, path: string, oldText: string, newText: string)
    requires '\r' in oldText
    requires Resolve(path).Some? && Resolve(path).value in fs.files && Resolve(path).value !in fs.readFaults
    ensures Edit(fs, path, oldText, newText) == Effect("Text not found in file: " + oldText, fs)
  {
    MissingChar(Universal(fs.files[Resolve(path).value]), oldText, '\r');
  }

  /** Create mode on a path whose last part names an entry that is not a
      directory and not below a file, where writing it and making the
      missing directories on the way do not fail: the directories are made,
      the file holds exactly `newText`, no other file changes, and reading
      the file back gives `newText` with its line ends translated. */
  lemma EditCreateMode(fs: FileSystem, path: string, oldText: string, newText: string)
    requires Valid(fs) && TailName(path)
    requires !Exists(fs, path) || oldText == ""
    requires var l := Resolve(path).value;
      && Resolve(path).Some? && l !in fs.dirs && l !in fs.writeFaults && !UnderFile(fs, l)
      && forall k :: 1 <= k < |l.names| && Prefix(l, k) in fs.writeFaults ==> Prefix(l, k) in fs.dirs
    ensures var l := Resolve(path).value;
      var e := Edit(fs, path, oldText, newText);
      && e.output == "Successfully created " + path
      && e.fs.files == fs.files[l := newText]
      && e.fs.dirs == fs.dirs + Ancestry(Parent(l))
      && (DirName(path) != "" ==> IsDirPath(e.fs, DirName(path)))
      && ReadFile(e.fs, path) == "File contents of " + path + ":\n" + Universal(newText)
  {
    DirNameIsParent(path);
    var l := Resolve(path).value;
    CreateDirs(fs, path, l);
  }

  /** The directories the create mode of `Edit` makes: every ancestor of the
      new file, which leaves its parent a directory and no file above it. */
  lemma CreateDirs(fs: FileSystem, path: string, l: Loc)
    requires Valid(fs) && TailName(path) && Resolve(path) == Some(l) && l.names != []
    requires DirName(path) != "" ==> Resolve(DirName(path)) == Some(Parent(l))
    requires DirName(path) == "" ==> l.names == [path]
    requires l !in fs.dirs && !UnderFile(fs, l)
    requires forall k :: 1 <= k < |l.names| && Prefix(l, k) in fs.writeFaults ==> Prefix(l, k) in fs.dirs
    ensures var fs1 := fs.(dirs := fs.dirs + Ancestry(Parent(l)));
      && (if DirName(path) != "" then MakeDirs(fs, DirName(path)) else Success(fs)) == Success(fs1)
      && IsDir(fs1, Parent(l)) && !IsDir(fs1, l) && !UnderFile(fs1, l)
  {
    var p := Parent(l);
    if DirName(path) != "" {
      forall j | 1 <= j <= |p.names| ensures Prefix(p, j) == Prefix(l, j) && Prefix(l, j) !in fs.files {
        assert j < |l.names|;
      }
      MakeDirsAll(fs, DirName(path), p);
      var fs1 := fs.(dirs := fs.dirs + Ancestry(p));
      assert UnderFile(fs1, l) ==> UnderFile(fs, l);
      assert l !in Ancestry(p);
      assert p.names != [] ==> Prefix(p, |p.names|) == p;
    } else {
      assert p.names == [];
      assert Ancestry(p) == {};
      assert fs.dirs + Ancestry(p) == fs.dirs;
    }
  }

  /** `fs'` differs from `fs` at most in the file at `path` and in added
      directories: every other file keeps its contents and failures stay as
      they are, but for the read fault at `path`, which a write clears. */
  ghost predicate OnlyAt(fs: FileSystem, fs': FileSystem, path: string) {
    && fs'.writeFaults == fs.writeFaults
    && (fs'.readFaults == fs.readFaults ||
        (Resolve(path).Some? && fs'.readFaults == fs.readFaults - {Resolve(path).value}))
    && fs.dirs <= fs'.dirs
    && forall l :: (Resolve(path).None? || l != Resolve(path).value) ==>
         (l in fs'.files <==> l in fs.files) && (l in fs.files ==> fs'.files[l] == fs.files[l])
  }

  lemma OnlyAtWrite(fs: FileSystem, path: string, text: string)
    requires WriteText(fs, path, text).Success?
    ensures OnlyAt(fs, WriteText(fs, path, text).value, path)
  {
  }

  lemma OnlyAtMakeDirs(fs: FileSystem, dir: string, path: string)
    requires MakeDirs(fs, dir).Success?
    ensures OnlyAt(fs, MakeDirs(fs, dir).value, path)
  {
  }

  lemma OnlyAtThen(fs: FileSystem, fs1: FileSystem, fs2: FileSystem, path: string)
    requires OnlyAt(fs, fs1, path) && OnlyAt(fs1, fs2, path)
    ensures OnlyAt(fs, fs2, path)
  {
  }

  /** Every mode changes at most the file at `path`: other files keep their
      contents, failures stay as they are and directories are only added. */
  lemma EditFrame(fs: FileSystem, path: string, oldText: string, newText: string)
    ensures OnlyAt(fs, Edit(fs, path, oldText, newText).fs, path)
  {
    if Exists(fs, path) && oldText != "" {
      match ReadText(fs, path)
      case Failure(_) =>
      case Success(content) =>
        if Contains(content, oldText) && WriteText(fs, path, ReplaceAll(content, oldText, newText)).Success? {
          OnlyAtWrite(fs, path, ReplaceAll(content, oldText, newText));
        }
    } else {
      var dirName := DirName(path);
      var made := if dirName != "" then MakeDirs(fs, dirName) else Success(fs);
      if made.Success? {
        if dirName != "" {
          OnlyAtMakeDirs(fs, dirName, path);
        }
        if WriteText(made.value, path, newText).Success? {
          OnlyAtWrite(made.value, path, newText);
          OnlyAtThen(fs, made.value, WriteText(made.value, path, newText).value, path);
        }
      }
    }
  }

  /** Editing keeps the tree well-formed. */
  lemma EditValid(fs: FileSystem, path: string, oldText: string, newText: string)
    requires Valid(fs)
    ensures Valid(Edit(fs, path, oldText, newText).fs)
  {
    if Exists(fs, path) && oldText != "" {
      match ReadText(fs, path)
      case Failure(_) =>
      case Success(content) =>
        if Contains(content, oldText) {
          var w := WriteText(fs, path, ReplaceAll(content, oldText, newText));
          if w.Success? {
            WriteTextValid(fs, path, ReplaceAll(content, oldText, newText));
          }
        }
    } else {
      var dirName := DirName(path);
      var made := if dirName != "" then MakeDirs(fs, dirName) else Success(fs);
      if dirName != "" && made.Success? {
        MakeDirsValid(fs, dirName);
      }
      if made.Success? && WriteText(made.value, path, newText).Success? {
        WriteTextValid(made.value, path, newText);
      }
    }
  }

  /** Editing `oldText` to `newText` and back leaves the file as a
      text-mode read shows it (line ends translated), and so restores a file
      without `\r` exactly. This needs `newText` free of `\r`, and the edited
      text must split on `newText` where the read text split on `oldText`
      (`ReplaceAllUndoCounterexample` shows a single occurrence does not
      suffice). */
  lemma EditUndo(fs: FileSystem, path: string, oldText: string, newText: string)
    requires Valid(fs) && oldText != "" && newText != "" && '\r' !in newText
    requires Resolve(path).Some? && Resolve(path).value in fs.files
    requires Resolve(path).value !in fs.readFaults && Resolve(path).value !in fs.writeFaults
    requires var content := Universal(fs.files[Resolve(path).value]);
      Contains(content, oldText) &&
      Split(ReplaceAll(content, oldText, newText), newText) == Split(content, oldText)
    ensures var l := Resolve(path).value;
      var once := Edit(fs, path, oldText, newText);
      var twice := Edit(once.fs, path, newText, oldText);
      twice == Effect("Successfully edited " + path, fs.(files := fs.files[l := Universal(fs.files[l])]))
  {
    var l := Resolve(path).value;
    var content := Universal(fs.files[l]);
    var edited := ReplaceAll(content, oldText, newText);
    EditReplaceAll(fs, path, oldText, newText);
    ReplaceAllAvoids(content, oldText, newText, '\r');
    ReplaceAllLeavesRep(content, oldText, newText);
    ReplaceAllUndo(content, oldText, newText);
    EditBack(fs, path, l, edited, content, newText, oldText);
  }

  /** The edit back, on the file as the first edit left it: the edited text
      holds no `\r`, so it is read as stored. */
  lemma EditBack(fs: FileSystem, path: string, l: Loc, edited: string, restored: string,
                 oldText: string, newText: string)
    requires Valid(fs) && oldText != ""
    requires Resolve(path) == Some(l) && l in fs.files && l !in fs.readFaults && l !in fs.writeFaults
    requires '\r' !in edited && Contains(edited, oldText) && ReplaceAll(edited, oldText, newText) == restored
    ensures Edit(fs.(files := fs.files[l := edited]), path, oldText, newText) ==
      Effect("Successfully edited " + path, fs.(files := fs.files[l := restored]))
  {
    var fs1 := fs.(files := fs.files[l := edited]);
    RetextValid(fs, l, edited);
    assert fs1.files[l := restored] == fs.files[l := restored];
    EditPlainText(fs1, path, l, oldText, newText, restored);
  }

  /** Replace mode on a file without `\r`, whose text is read as stored. */
  lemma EditPlainText(fs: FileSystem, path: string, l: Loc, oldText: string, newText: string, result: string)
    requires Valid(fs) && oldText != ""
    requires Resolve(path) == Some(l) && l in fs.files && l !in fs.readFaults && l !in fs.writeFaults
    requires '\r' !in fs.files[l] && Contains(fs.files[l], oldText) && ReplaceAll(fs.files[l], oldText, newText) == result
    ensures Edit(fs, path, oldText, newText) == Effect("Successfully edited " + path, fs.(files := fs.files[l := result]))
  {
    EditReplaceAll(fs, path, oldText, newText);
  }

  /** Changing the text of an existing file keeps the tree well-formed. */
  lemma RetextValid(fs: FileSystem, l: Loc, text: string)
    requires Valid(fs) && l in fs.files
    ensures Valid(fs.(files := fs.files[l := text]))
  {
    assert fs.files[l := text].Keys == fs.files.Keys;
  }

  /** A file without `\r` is restored exactly by editing there and back. */
  lemma EditUndoExact(fs: FileSystem, path: string, oldText: string, newText: string)
    requires Valid(fs) && oldText != "" && newText != "" && '\r' !in newText
    requires Resolve(path).Some? && Resolve(path).value in fs.files && '\r' !in fs.files[Resolve(path).value]
    requires Resolve(path).value !in fs.readFaults && Resolve(path).value !in fs.writeFaults
    requires var content := fs.files[Resolve(path).value];
      Contains(content, oldText) &&
      Split(ReplaceAll(content, oldText, newText), newText) == Split(content, oldText)
    ensures Edit(Edit(fs, path, oldText, newText).fs, path, newText, oldText) == Effect("Successfully edited " + path, fs)
  {
    var l := Resolve(path).value;
    EditUndo(fs, path, oldText, newText);
    assert fs.files[l := fs.files[l]] == fs.files;
  }

  /** Replace mode as `str.replace` on the content as read. */
  lemma EditReplaceAll(fs: FileSystem, path: string, oldText: string, newText: string)
    requires Valid(fs) && oldText != ""
    requires Resolve(path).Some? && Resolve(path).value in fs.files
    requires Resolve(path).value !in fs.readFaults && Resolve(path).value !in fs.writeFaults
    requires Contains(Universal(fs.files[Resolve(path).value]), oldText)
    ensures var l := Resolve(path).value;
      Edit(fs, path, oldText, newText) ==
        Effect("Successfully edited " + path,
               fs.(files := fs.files[l := ReplaceAll(Universal(fs.files[l]), oldText, newText)]))
  {
    EditReplaceMode(fs, path, oldText, newText);
    ReplaceAllSplit(Universal(fs.files[Resolve(path).value]), oldText, newText);
  }

  // ---------------------------------------------------------------------
  // The dispatcher

  /** The names `_execute_tool` dispatches on. */
  const Dispatched: set<string> := {"read_file", "list_files", "edit_file"}

  /** `tool_input.get(key, default)`. */
  function ArgumentOr(args: map<string, string>, key: string, default: string): string {
    if key in args then args[key] else default
  }

  /** `f"{tool_name}"`: a missing name prints as `None`. */
  function NameText(name: Option<string>): string {
    match name
    case None => "None"
    case Some(n) => n
  }

  /** The result when `tool_input[key]` raises `KeyError(key)`. */
  function MissingArgument(tool: string, key: string): string {
    "Error executing " + tool + ": '" + key + "'"
  }

  /** `_execute_tool(tool_name, tool_input)`; only `edit_file` changes the
      filesystem. */
  ghost function Exec(fs: FileSystem, name: Option<string>, args: map<string, string>): (r: Effect)
    ensures name != Some("edit_file") ==> r.fs == fs
  {
    if name == Some("read_file") then
      if "path" !in args then Effect(MissingArgument("read_file", "path"), fs)
      else Effect(ReadFile(fs, args["path"]), fs)
    else if name == Some("list_files") then
      Effect(Listing(fs, ArgumentOr(args, "path", ".")), fs)
    else if name == Some("edit_file") then
      if "path" !in args then Effect(MissingArgument("edit_file", "path"), fs)
      else if "new_text" !in args then Effect(MissingArgument("edit_file", "new_text"), fs)
      else Edit(fs, args["path"], ArgumentOr(args, "old_text", ""), args["new_text"])
    else Effect("Unknown tool: " + NameText(name), fs)
  }

  /** `_execute_tool`, step by step. */
  method ExecuteTool(fs: FileSystem, name: Option<string>, args: map<string, string>)
    returns (output: string, fs': FileSystem)
    ensures Effect(output, fs') == Exec(fs, name, args)
  {
    fs' := fs;
    if name == Some("read_file") {
      if "path" !in args {
        return MissingArgument("read_file", "path"), fs';
      }
      output := ReadFile(fs, args["path"]);
    } else if name == Some("list_files") {
      output := ListFiles(fs, ArgumentOr(args, "path", "."));
    } else if name == Some("edit_file") {
      if "path" !in args {
        return MissingArgument("edit_file", "path"), fs';
      }
      if "new_text" !in args {
        return MissingArgument("edit_file", "new_text"), fs';
      }
      output, fs' := EditFile(fs, args["path"], ArgumentOr(args, "old_text", ""), args["new_text"]);
    } else {
      output := "Unknown tool: " + NameText(name);
    }
  }

  /** A name outside the table is answered, not raised, and changes nothing. */
  lemma ExecUnknown(fs: FileSystem, name: Option<string>, args: map<string, string>)
    requires name.None? || name.value !in Dispatched
    ensures Exec(fs, name, args) == Effect("Unknown tool: " + NameText(name), fs)
  {
  }

  /** Listing without a `path` lists the working directory `.`. */
  lemma ExecListDefault(fs: FileSystem, args: map<string, string>)
    requires "path" !in args
    ensures Exec(fs, Some("list_files"), args) == Exec(fs, Some("list_files"), args["path" := "."])
  {
  }

  /** Editing without an `old_text` is editing with `old_text` empty. */
  lemma ExecEditDefault(fs: FileSystem, args: map<string, string>)
    requires "old_text" !in args
    ensures Exec(fs, Some("edit_file"), args) == Exec(fs, Some("edit_file"), args["old_text" := ""])
  {
  }

  /** `edit_file` keeps the tree well-formed, so every tool does. */
  lemma ExecValid(fs: FileSystem, name: Option<string>, args: map<string, string>)
    requires Valid(fs)
    ensures Valid(Exec(fs, name, args).fs)
  {
    if name == Some("edit_file") && "path" in args && "new_text" in args {
      EditValid(fs, args["path"], ArgumentOr(args, "old_text", ""), args["new_text"]);
    }
  }
}
