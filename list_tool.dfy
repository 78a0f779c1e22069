/**
  `get_files_info` (python/ai-agent/functions/get_files_info.py): one record per
  directory entry, in the order the directory lists them, each rendered as a line.
*/
module ListTool {
  import opened Wrappers
  import opened Text
  import opened Paths
  import opened FileSystems

  /** The `FileInfo` record. */
  datatype FileInfo = FileInfo(name: string, size: nat, isDir: bool)

  /** Every listed child of every directory is present in the map. */
  ghost predicate WellFormed(e: Entries) {
    forall d, i :: IsDir(e, d) && 0 <= i < |e[d].children| ==> JoinPath(d, e[d].children[i]) in e
  }

  /** The record for the entry `name` of `dir`, which exists. */
  function InfoOf(e: Entries, dir: string, name: string): FileInfo
    requires JoinPath(dir, name) in e
  {
    FileInfo(name, Size(e[JoinPath(dir, name)]), IsDir(e, JoinPath(dir, name)))
  }

  /** The list comprehension of `get_path_contents_info` over the names `names` of
      `dir`: `getsize` raises for the first name whose entry is missing. */
  function Infos(e: Entries, dir: string, names: seq<string>): (r: Outcome<seq<FileInfo>>)
    ensures r.Returned? ==> |r.value| == |names|
    decreases |names|
  {
    if names == [] then Returned([])
    else
      var n := |names|;
      var prev := Infos(e, dir, names[..n - 1]);
      if prev.Raised? then prev
      else
        var child := JoinPath(dir, names[n - 1]);
        if child !in e then Raised(Describe(NoSuchFile(child)))
        else Returned(prev.value + [InfoOf(e, dir, names[n - 1])])
  }

  predicate AllPresent(e: Entries, dir: string, names: seq<string>) {
    forall i :: 0 <= i < |names| ==> JoinPath(dir, names[i]) in e
  }

  /** The entries of `names` are all present: one record per name, in order. */
  lemma {:induction false} InfosReturned(e: Entries, dir: string, names: seq<string>)
    requires AllPresent(e, dir, names)
    ensures Infos(e, dir, names).Returned?
    ensures forall i :: 0 <= i < |names| ==> Infos(e, dir, names).value[i] == InfoOf(e, dir, names[i])
    decreases |names|
  {
    if names != [] {
      var n := |names|;
      var front := names[..n - 1];
      assert AllPresent(e, dir, front) by {
        forall i | 0 <= i < |front| ensures JoinPath(dir, front[i]) in e {
          assert front[i] == names[i];
        }
      }
      InfosReturned(e, dir, names[..n - 1]);
      assert JoinPath(dir, names[n - 1]) in e;
      var prev := Infos(e, dir, names[..n - 1]).value;
      forall i | 0 <= i < n ensures Infos(e, dir, names).value[i] == InfoOf(e, dir, names[i]) {
        if i < n - 1 {
          assert names[..n - 1][i] == names[i];
        }
      }
    }
  }

  /** A raise before the last name is the comprehension's raise. */
  lemma InfosKeepsRaise(e: Entries, dir: string, names: seq<string>)
    requires |names| > 0 && Infos(e, dir, names[..|names| - 1]).Raised?
    ensures Infos(e, dir, names) == Infos(e, dir, names[..|names| - 1])
  {
  }

  /** After the other names return, a missing last name raises for that name. */
  lemma InfosLastMissing(e: Entries, dir: string, names: seq<string>)
    requires |names| > 0 && Infos(e, dir, names[..|names| - 1]).Returned?
    requires JoinPath(dir, names[|names| - 1]) !in e
    ensures Infos(e, dir, names) == Raised(Describe(NoSuchFile(JoinPath(dir, names[|names| - 1]))))
  {
  }

  /** A name whose entry is missing makes the comprehension raise, for the first
      such name. */
  lemma {:induction false} InfosRaised(e: Entries, dir: string, names: seq<string>, k: nat)
    requires k < |names| && JoinPath(dir, names[k]) !in e
    requires AllPresent(e, dir, names[..k])
    ensures Infos(e, dir, names) == Raised(Describe(NoSuchFile(JoinPath(dir, names[k]))))
    decreases |names|
  {
    var n := |names|;
    var front := names[..n - 1];
    if k < n - 1 {
      assert front[k] == names[k];
      assert front[..k] == names[..k];
      InfosRaised(e, dir, front, k);
      InfosKeepsRaise(e, dir, names);
    } else {
      assert front == names[..k];
      InfosFirstMissing(e, dir, names);
    }
  }

  /** The other names present and the last one missing: the comprehension raises for
      the last. */
  lemma InfosFirstMissing(e: Entries, dir: string, names: seq<string>)
    requires |names| > 0 && AllPresent(e, dir, names[..|names| - 1])
    requires JoinPath(dir, names[|names| - 1]) !in e
    ensures Infos(e, dir, names) == Raised(Describe(NoSuchFile(JoinPath(dir, names[|names| - 1]))))
  {
    InfosReturned(e, dir, names[..|names| - 1]);
    InfosLastMissing(e, dir, names);
  }

  /** `get_path_contents_info(full_path_abs)`: `listdir` raises for a missing path or a
      file, then one record per entry. */
  function PathContentsInfo(e: Entries, fullPath: string): (r: Outcome<seq<FileInfo>>)
    ensures fullPath !in e ==> r == Raised(Describe(NoSuchFile(fullPath)))
    ensures IsFile(e, fullPath) ==> r == Raised(Describe(NotADirectory(fullPath)))
    ensures IsDir(e, fullPath) ==> r == Infos(e, fullPath, e[fullPath].children)
  {
    if fullPath !in e then Raised(Describe(NoSuchFile(fullPath)))
    else if e[fullPath].File? then Raised(Describe(NotADirectory(fullPath)))
    else Infos(e, fullPath, e[fullPath].children)
  }

  /** One line of the listing. */
  function FormatLine(info: FileInfo): string {
    "- " + info.name + ": file_size=" + NatToString(info.size) + " bytes, is_dir=" + BoolText(info.isDir)
  }

  function Lines(infos: seq<FileInfo>): (r: seq<string>)
    ensures |r| == |infos|
    ensures forall i :: 0 <= i < |infos| ==> r[i] == FormatLine(infos[i])
  {
    seq(|infos|, i requires 0 <= i < |infos| => FormatLine(infos[i]))
  }

  /** `format_contents_info(contents_info)`. */
  function FormatContentsInfo(infos: seq<FileInfo>): (r: string)
    ensures infos == [] ==> r == ""
  {
    Join("\n", Lines(infos))
  }

  function NotADirectoryError(directory: string): string {
    ErrorText("\"" + directory + "\" is not a directory")
  }

  /** `get_files_info(working_directory, directory)`. */
  function GetFilesInfo(cwd: string, e: Entries, workingDirectory: string, directory: string := "."): (r: string)
    ensures Resolve(cwd, workingDirectory, directory).error.Some? ==> r == OutsideError(directory)
    ensures Resolve(cwd, workingDirectory, directory).path.Some? ==>
              var path := Resolve(cwd, workingDirectory, directory).path.value;
              && (!IsDir(e, path) ==> r == NotADirectoryError(directory))
              && (IsDir(e, path) && Infos(e, path, e[path].children).Returned? ==>
                    r == FormatContentsInfo(Infos(e, path, e[path].children).value))
              && (IsDir(e, path) && Infos(e, path, e[path].children).Raised? ==>
                    r == ErrorText(Infos(e, path, e[path].children).error))
  {
    var resolution := Resolve(cwd, workingDirectory, directory);
    if resolution.error.Some? then resolution.error.value
    else
      var path := resolution.path.value;
      if !IsDir(e, path) then NotADirectoryError(directory)
      else
        match PathContentsInfo(e, path)
        case Raised(message) => ErrorText(message)
        case Returned(infos) => FormatContentsInfo(infos)
  }

  // ---------------------------------------------------------------------------
  // Properties

  lemma LineHasNoNewline(info: FileInfo)
    requires '\n' !in info.name
    ensures '\n' !in FormatLine(info)
  {
    var digits := NatToString(info.size);
    assert '\n' !in digits by {
      forall i | 0 <= i < |digits| ensures digits[i] != '\n' {
      }
    }
    assert '\n' !in BoolText(info.isDir);
    var parts := ["- ", info.name, ": file_size=", digits, " bytes, is_dir=", BoolText(info.isDir)];
    var line := FormatLine(info);
    forall i | 0 <= i < |line| ensures line[i] != '\n' {
      NoCharInConcat6(parts[0], parts[1], parts[2], parts[3], parts[4], parts[5], '\n', i);
    }
  }

  lemma NoCharInConcat6(a: string, b: string, c: string, d: string, f: string, g: string, x: char, i: int)
    requires x !in a && x !in b && x !in c && x !in d && x !in f && x !in g
    requires 0 <= i < |a + b + c + d + f + g|
    ensures (a + b + c + d + f + g)[i] != x
  {
    var s := a + b + c + d + f + g;
    if i < |a + b + c + d + f| {
      NoCharInConcat5(a, b, c, d, f, x, i);
      assert s[i] == (a + b + c + d + f)[i];
    } else {
      assert s[i] == g[i - |a + b + c + d + f|];
    }
  }

  lemma NoCharInConcat5(a: string, b: string, c: string, d: string, f: string, x: char, i: int)
    requires x !in a && x !in b && x !in c && x !in d && x !in f
    requires 0 <= i < |a + b + c + d + f|
    ensures (a + b + c + d + f)[i] != x
  {
    var s := a + b + c + d + f;
    if i < |a + b + c + d| {
      assert s[i] == (a + b + c + d)[i];
      if i < |a + b| {
        assert s[i] == (a + b)[i];
      } else if i < |a + b + c| {
        assert s[i] == c[i - |a + b|];
      } else {
        assert s[i] == d[i - |a + b + c|];
      }
    } else {
      assert s[i] == f[i - |a + b + c + d|];
    }
  }

  /** The listing has exactly one line per record, in the records' order: splitting
      it at newlines gives back each record's line (names without newlines). */
  lemma ListingLines(infos: seq<FileInfo>)
    requires infos != []
    requires forall i :: 0 <= i < |infos| ==> '\n' !in infos[i].name
    ensures Split(FormatContentsInfo(infos), '\n') == Lines(infos)
  {
    var lines := Lines(infos);
    forall i | 0 <= i < |lines| ensures '\n' !in lines[i] {
      LineHasNoNewline(infos[i]);
    }
    assert "\n" == ['\n'];
    JoinSplit(lines, '\n');
  }

  /** Reading a size back: the number in a line is the record's size. */
  lemma SizeReadBack(info: FileInfo)
    ensures var line := FormatLine(info);
            var start := |"- " + info.name + ": file_size="|;
            var digits := NatToString(info.size);
            line[start..start + |digits|] == digits && DigitsValue(digits) == info.size
  {
    NatToStringRoundTrip(info.size);
    var line := FormatLine(info);
    var start := |"- " + info.name + ": file_size="|;
    var digits := NatToString(info.size);
    assert line == ("- " + info.name + ": file_size=") + digits + (" bytes, is_dir=" + BoolText(info.isDir));
  }

  /** In a well-formed tree a directory's listing never raises: it has one record
      per child, in the directory's order, with that child's size and kind. */
  lemma ListingOfWellFormed(e: Entries, dir: string)
    requires WellFormed(e) && IsDir(e, dir)
    ensures PathContentsInfo(e, dir).Returned?
    ensures |PathContentsInfo(e, dir).value| == |e[dir].children|
    ensures forall i :: 0 <= i < |e[dir].children| ==>
              PathContentsInfo(e, dir).value[i] == InfoOf(e, dir, e[dir].children[i])
  {
    InfosReturned(e, dir, e[dir].children);
  }

  /** The outside-root error takes precedence: it is given whatever the files are. */
  lemma RejectionListsNothing(cwd: string, e1: Entries, e2: Entries, wd: string, directory: string)
    requires Resolve(cwd, wd, directory).error.Some?
    ensures GetFilesInfo(cwd, e1, wd, directory) == GetFilesInfo(cwd, e2, wd, directory) == OutsideError(directory)
  {
  }

  /** The default directory lists the working directory itself. */
  lemma DefaultListsRoot(cwd: string, e: Entries, wd: string)
    requires IsAbs(cwd)
    requires IsDir(e, AbsPath(cwd, wd))
    ensures GetFilesInfo(cwd, e, wd) == GetFilesInfo(cwd, e, wd, ".")
    ensures var root := AbsPath(cwd, wd);
            Infos(e, root, e[root].children).Returned? ==>
              GetFilesInfo(cwd, e, wd) == FormatContentsInfo(Infos(e, root, e[root].children).value)
  {
    DotResolvesToRoot(cwd, wd);
  }
}
