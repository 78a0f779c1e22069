/**
  The filesystem the tools act on: a map from path to entry, where a directory lists
  its children's names in the order `os.listdir` enumerates them. The library calls
  the tools make (`os.mkdir`, `os.makedirs(..., exist_ok=True)`, `open(path, "w")`,
  `write`) are given twice: as functions from one map to the next (their meaning) and
  as methods of `FileSystem`, which updates its map in place.
*/
module FileSystems {
  import opened Wrappers
  import opened Text
  import Paths

  datatype Entry = File(content: string) | Dir(children: seq<string>)

  type Entries = map<string, Entry>

  /** The `OSError` subclasses these calls raise, with the path each names. */
  datatype OsError =
    | FileExists(path: string)
    | NoSuchFile(path: string)
    | NotADirectory(path: string)
    | IsADirectory(path: string)

  /** `str(ex)` for those errors: the errno, its message and `repr` of the path. */
  function Describe(e: OsError): string {
    match e
    case FileExists(p) => "[Errno 17] File exists: " + PyRepr(p)
    case NoSuchFile(p) => "[Errno 2] No such file or directory: " + PyRepr(p)
    case NotADirectory(p) => "[Errno 20] Not a directory: " + PyRepr(p)
    case IsADirectory(p) => "[Errno 21] Is a directory: " + PyRepr(p)
  }

  /** `os.path.getsize` of a directory: one block on the usual Linux filesystems. */
  const DirectorySize: nat := 4096

  /** `os.path.getsize`: a file's size is its length. */
  function Size(e: Entry): nat {
    match e
    case File(c) => |c|
    case Dir(_) => DirectorySize
  }

  predicate IsDir(e: Entries, p: string) {
    p in e && e[p].Dir?
  }

  predicate IsFile(e: Entries, p: string) {
    p in e && e[p].File?
  }

  // ---------------------------------------------------------------------------
  // os.path.split

  /** The index of the last `/` in `p`, or -1. */
  function LastSlash(p: string): (r: int)
    ensures -1 <= r < |p|
    ensures r >= 0 ==> p[r] == '/'
    ensures forall j :: r < j < |p| ==> p[j] != '/'
  {
    if p == [] then -1
    else if p[|p| - 1] == '/' then |p| - 1
    else LastSlash(p[..|p| - 1])
  }

  predicate AllSlashes(s: string) {
    forall i :: 0 <= i < |s| ==> s[i] == '/'
  }

  /** `a` is `p`, or a directory above `p`: a proper prefix of `p` that ends at a
      separator. */
  predicate AncestorOrSelf(a: string, p: string) {
    a == p || (0 < |a| < |p| && p[..|a|] == a && (a[|a| - 1] == '/' || p[|a|] == '/'))
  }

  /** `os.path.split(p)`: everything up to the last slash (trailing slashes removed
      unless that is all there is) and everything after it. */
  function SplitPath(p: string): (r: (string, string))
    ensures r.1 == p[LastSlash(p) + 1..]
    ensures |r.0| + |r.1| <= |p|
    ensures r.0 != "" ==> AncestorOrSelf(r.0, p)
  {
    var i := LastSlash(p) + 1;
    var head := p[..i];
    var tail := p[i..];
    if head != "" && !AllSlashes(head) then
      var stripped := RStrip(head, '/');
      assert p[|stripped|] == '/';
      (stripped, tail)
    else
      (head, tail)
  }

  /** `os.path.dirname(p)`. */
  function DirName(p: string): string {
    SplitPath(p).0
  }

  /** `os.path.basename(p)`. */
  function BaseName(p: string): string {
    SplitPath(p).1
  }

  lemma AncestorTransitive(a: string, b: string, c: string)
    requires AncestorOrSelf(a, b) && AncestorOrSelf(b, c)
    ensures AncestorOrSelf(a, c)
  {
    if a != b && b != c {
      assert c[..|a|] == c[..|b|][..|a|];
      assert a[|a| - 1] == '/' || c[|a|] == b[|a|];
    }
  }

  // ---------------------------------------------------------------------------
  // The library calls as functions

  /** The map after a call, and the error it raised, if any. */
  datatype FsStep = FsStep(entries: Entries, error: Option<OsError>)

  /** `os.mkdir(name)`. */
  function MkdirStep(e: Entries, name: string): FsStep {
    if name in e then FsStep(e, Some(FileExists(name)))
    else
      var parent := DirName(name);
      if parent !in e then FsStep(e, Some(NoSuchFile(name)))
      else if e[parent].File? then FsStep(e, Some(NotADirectory(name)))
      else FsStep(e[name := Dir([])][parent := Dir(e[parent].children + [BaseName(name)])], None)
  }

  /** The `try: mkdir(name) except OSError: if not isdir(name): raise` at the end of
      `makedirs` with `exist_ok=True`. */
  function MkdirExistOkStep(e: Entries, name: string): FsStep {
    var r := MkdirStep(e, name);
    if r.error.Some? && IsDir(e, name) then FsStep(e, None) else r
  }

  /** The `(head, tail)` that `makedirs` works with: `split(name)`, or `split(head)`
      when the tail is empty. */
  function MakeDirsSplit(name: string): (r: (string, string))
    ensures r.1 != "" ==> |r.0| < |name|
    ensures r.0 != "" ==> AncestorOrSelf(r.0, name)
  {
    var (head, tail) := SplitPath(name);
    if tail == "" then
      SplitTwice(name);
      SplitPath(head)
    else (head, tail)
  }

  lemma SplitTwice(name: string)
    ensures var head := SplitPath(name).0;
            SplitPath(head).0 != "" ==> AncestorOrSelf(SplitPath(head).0, name)
  {
    var head := SplitPath(name).0;
    if SplitPath(head).0 != "" {
      AncestorTransitive(SplitPath(head).0, head, name);
    }
  }

  /** `os.makedirs(name, exist_ok=True)`: create the missing ancestors first, then
      `name` itself; an ancestor that appeared meanwhile (`FileExistsError`) is ignored. */
  function MakeDirsStep(e: Entries, name: string): FsStep
    decreases |name|
  {
    var (head, tail) := MakeDirsSplit(name);
    if head != "" && tail != "" && head !in e then
      var r := MakeDirsStep(e, head);
      if r.error.Some? && !r.error.value.FileExists? then r
      else if tail == "." then FsStep(r.entries, None)
      else MkdirExistOkStep(r.entries, name)
    else MkdirExistOkStep(e, name)
  }

  /** `open(path, "w")`: truncate an existing file, or create an empty one in an
      existing directory. */
  function OpenStep(e: Entries, path: string): FsStep {
    if IsDir(e, path) then FsStep(e, Some(IsADirectory(path)))
    else if path in e then FsStep(e[path := File("")], None)
    else
      var parent := DirName(path);
      if parent !in e then FsStep(e, Some(NoSuchFile(path)))
      else if e[parent].File? then FsStep(e, Some(NotADirectory(path)))
      else FsStep(e[path := File("")][parent := Dir(e[parent].children + [BaseName(path)])], None)
  }

  // ---------------------------------------------------------------------------
  // What these calls may change

  /** From `before` to `after` entries are only added, each a directory at or above
      `target`; files keep their content; directories stay directories and only gain
      children at the end of their listing. */
  ghost predicate GrowsToward(before: Entries, after: Entries, target: string) {
    && (forall p :: p in before ==> p in after)
    && (forall p :: p in before && before[p].File? ==> after[p] == before[p])
    && (forall p :: p in before && before[p].Dir? ==>
          after[p].Dir? && before[p].children <= after[p].children)
    && (forall p :: p in after && p !in before ==> after[p].Dir? && AncestorOrSelf(p, target))
  }

  lemma GrowsTowardTransitive(e0: Entries, e1: Entries, e2: Entries, t: string)
    requires GrowsToward(e0, e1, t) && GrowsToward(e1, e2, t)
    ensures GrowsToward(e0, e2, t)
  {
  }

  lemma GrowsTowardAncestor(e0: Entries, e1: Entries, a: string, t: string)
    requires GrowsToward(e0, e1, a) && AncestorOrSelf(a, t)
    ensures GrowsToward(e0, e1, t)
  {
    forall p | p in e1 && p !in e0 ensures AncestorOrSelf(p, t) {
      AncestorTransitive(p, a, t);
    }
  }

  lemma MkdirGrows(e: Entries, name: string)
    ensures GrowsToward(e, MkdirStep(e, name).entries, name)
    ensures MkdirStep(e, name).error.None? ==> IsDir(MkdirStep(e, name).entries, name)
  {
    var parent := DirName(name);
    if name !in e && parent in e && e[parent].Dir? {
      var e' := MkdirStep(e, name).entries;
      assert e' == e[name := Dir([])][parent := Dir(e[parent].children + [BaseName(name)])];
      assert e'.Keys == e.Keys + {name};
      forall p | p in e && e[p].Dir? ensures e'[p].Dir? && e[p].children <= e'[p].children {
        if p == parent {
          assert e[p].children <= e[p].children + [BaseName(name)];
        }
      }
    }
  }

  lemma MkdirExistOkGrows(e: Entries, name: string)
    ensures GrowsToward(e, MkdirExistOkStep(e, name).entries, name)
    ensures MkdirExistOkStep(e, name).error.None? ==> IsDir(MkdirExistOkStep(e, name).entries, name)
  {
    MkdirGrows(e, name);
  }

  /** `makedirs` only adds directories at or above `name`, and on success `name` is a
      directory. */
  lemma {:induction false} MakeDirsGrows(e: Entries, name: string)
    ensures GrowsToward(e, MakeDirsStep(e, name).entries, name)
    ensures MakeDirsStep(e, name).error.None? && MakeDirsSplit(name).1 != "." ==>
              IsDir(MakeDirsStep(e, name).entries, name)
    decreases |name|
  {
    var (head, tail) := MakeDirsSplit(name);
    if head != "" && tail != "" && head !in e {
      var r := MakeDirsStep(e, head);
      MakeDirsGrows(e, head);
      GrowsTowardAncestor(e, r.entries, head, name);
      if r.error.Some? && !r.error.value.FileExists? {
        assert MakeDirsStep(e, name) == r;
      } else if tail == "." {
        assert MakeDirsStep(e, name) == FsStep(r.entries, None);
      } else {
        var s := MkdirExistOkStep(r.entries, name);
        assert MakeDirsStep(e, name) == s;
        MkdirExistOkGrows(r.entries, name);
        GrowsTowardTransitive(e, r.entries, s.entries, name);
      }
    } else {
      assert MakeDirsStep(e, name) == MkdirExistOkStep(e, name);
      MkdirExistOkGrows(e, name);
    }
  }

  /** `open(path, "w")` only adds `path` itself, as an empty file; an existing file at
      `path` is emptied; nothing else but the parent's listing changes. */
  lemma OpenChanges(e: Entries, path: string)
    ensures OpenStep(e, path).error.None? <==>
              (!IsDir(e, path) && (path in e || IsDir(e, DirName(path))))
    ensures OpenStep(e, path).error.None? ==> OpenStep(e, path).entries[path] == File("")
    ensures OpenStep(e, path).error.Some? ==> OpenStep(e, path).entries == e
    ensures forall p :: p in e && p != path && e[p].File? ==> OpenStep(e, path).entries[p] == e[p]
    ensures forall p :: p in e ==> p in OpenStep(e, path).entries
    ensures forall p :: p in e && e[p].Dir? ==> OpenStep(e, path).entries[p].Dir?
    ensures forall p :: p in OpenStep(e, path).entries && p !in e ==> p == path
  {
  }

  /** The directory holding `p` is present and is a directory (or `p` has none). */
  predicate HasParent(e: Entries, p: string) {
    DirName(p) == "" || IsDir(e, DirName(p))
  }

  /** Every entry's directory is present and is a directory, as on a real disk. */
  ghost predicate Rooted(e: Entries) {
    forall p {:trigger HasParent(e, p)} :: p in e ==> HasParent(e, p)
  }

  lemma MkdirKeepsRooted(e: Entries, name: string)
    requires Rooted(e)
    ensures Rooted(MkdirStep(e, name).entries)
  {
    var e' := MkdirStep(e, name).entries;
    MkdirGrows(e, name);
    if MkdirStep(e, name).error.None? {
      assert IsDir(e', DirName(name));
      assert HasParent(e', name);
      forall p | p in e' ensures HasParent(e', p) {
        if p != name {
          assert HasParent(e, p);
          assert DirName(p) == "" || IsDir(e', DirName(p));
        }
      }
    } else {
      assert e' == e;
    }
  }

  lemma MkdirExistOkKeepsRooted(e: Entries, name: string)
    requires Rooted(e)
    ensures Rooted(MkdirExistOkStep(e, name).entries)
  {
    MkdirKeepsRooted(e, name);
  }

  lemma {:induction false} MakeDirsKeepsRooted(e: Entries, name: string)
    requires Rooted(e)
    ensures Rooted(MakeDirsStep(e, name).entries)
    decreases |name|
  {
    var (head, tail) := MakeDirsSplit(name);
    var out := MakeDirsStep(e, name);
    if head != "" && tail != "" && head !in e {
      var r := MakeDirsStep(e, head);
      MakeDirsKeepsRooted(e, head);
      if r.error.Some? && !r.error.value.FileExists? {
        assert out.entries == r.entries;
      } else if tail == "." {
        assert out.entries == r.entries;
      } else {
        assert out == MkdirExistOkStep(r.entries, name);
        MkdirExistOkKeepsRooted(r.entries, name);
      }
    } else {
      assert out == MkdirExistOkStep(e, name);
      MkdirExistOkKeepsRooted(e, name);
    }
  }

  lemma OpenKeepsRooted(e: Entries, path: string)
    requires Rooted(e)
    ensures Rooted(OpenStep(e, path).entries)
  {
    var e' := OpenStep(e, path).entries;
    OpenChanges(e, path);
    forall p | p in e' ensures HasParent(e', p) {
      if p in e {
        assert HasParent(e, p);
      }
    }
  }

  /** On a rooted map, the first ancestor `makedirs` looks at for an existing entry
      exists too. */
  lemma RootedHead(e: Entries, name: string)
    requires Rooted(e) && name in e
    ensures MakeDirsSplit(name).0 == "" || MakeDirsSplit(name).0 in e
  {
    var head := DirName(name);
    assert HasParent(e, name);
    if head != "" {
      assert HasParent(e, head);
    }
  }

  /** `makedirs` of an existing directory of a rooted map changes nothing. */
  lemma MakeDirsOfDirectory(e: Entries, name: string)
    requires Rooted(e) && IsDir(e, name)
    ensures MakeDirsStep(e, name) == FsStep(e, None)
  {
    RootedHead(e, name);
  }

  // ---------------------------------------------------------------------------
  // makedirs of a normal absolute path

  /** The last slash of `a + s`, where `a` ends with one and `s` has none. */
  lemma LastSlashBefore(a: string, s: string)
    requires a != "" && a[|a| - 1] == '/' && '/' !in s
    ensures LastSlash(a + s) == |a| - 1
  {
    var p := a + s;
    var r := LastSlash(p);
    assert p[|a| - 1] == '/';
    assert forall j :: |a| <= j < |p| ==> p[j] == s[j - |a|];
  }

  /** `split` of a path made only of one or two slashes. */
  lemma SplitSlashesOnly(lead: nat)
    requires lead == 1 || lead == 2
    ensures MakeDirsSplit(Paths.Slashes(lead)) == (Paths.Slashes(lead), "")
  {
    var s := Paths.Slashes(lead);
    assert Paths.Slashes(1) == "/" && Paths.Slashes(2) == "//";
    LastSlashBefore(s, "");
    assert s + "" == s;
    assert AllSlashes(s);
    assert SplitPath(s) == (s, "");
  }

  /** `split` of a normal absolute path below its leading slashes: a name that is
      directly under the leading slashes. */
  lemma SplitTopName(lead: nat, name: string)
    requires lead == 1 || lead == 2
    requires Paths.ProperName(name)
    ensures SplitPath(Paths.Slashes(lead) + name) == (Paths.Slashes(lead), name)
  {
    var s := Paths.Slashes(lead);
    assert Paths.Slashes(1) == "/" && Paths.Slashes(2) == "//";
    LastSlashBefore(s, name);
    assert (s + name)[..lead] == s;
    assert (s + name)[lead..] == name;
    assert AllSlashes(s);
  }

  /** `split` of a normal absolute path with at least two components. */
  lemma SplitLowerName(front: string, name: string)
    requires front != "" && front[|front| - 1] != '/'
    requires Paths.ProperName(name)
    ensures SplitPath(front + "/" + name) == (front, name)
  {
    var p := front + "/" + name;
    LastSlashBefore(front + "/", name);
    assert p[..|front| + 1] == front + "/";
    assert p[|front| + 1..] == name;
    assert !AllSlashes(front + "/") by {
      assert (front + "/")[|front| - 1] != '/';
    }
    var r := RStrip(front + "/", '/');
    assert (front + "/")[|front| - 1] != '/';
    assert r == front;
  }

  /** `split` of leading slashes followed by proper components: the path of all but
      the last component, rendered the same way, and the last component. */
  lemma {:induction false} SplitOfRendered(lead: nat, comps: seq<string>)
    requires lead == 1 || lead == 2
    requires |comps| >= 1
    requires forall i :: 0 <= i < |comps| ==> Paths.ProperName(comps[i])
    ensures SplitPath(Paths.Slashes(lead) + Join("/", comps))
              == (Paths.Slashes(lead) + Join("/", comps[..|comps| - 1]), comps[|comps| - 1])
  {
    var n := |comps|;
    var last := comps[n - 1];
    var front := comps[..n - 1];
    if n == 1 {
      assert Join("/", comps) == last;
      assert Paths.Slashes(lead) + Join("/", front) == Paths.Slashes(lead);
      SplitTopName(lead, last);
    } else {
      Paths.JoinLastChar(front);
      var a := Paths.Slashes(lead) + Join("/", front);
      assert Paths.Slashes(lead) + Join("/", comps) == a + "/" + last;
      assert a[|a| - 1] == Join("/", front)[|Join("/", front)| - 1];
      SplitLowerName(a, last);
    }
  }

  /** `makedirs` splits a normal absolute path other than its leading slashes into
      its directory, itself normal with the same leading slashes, and a proper last
      name. */
  lemma NormalSplit(name: string)
    requires Paths.NormalAbsolute(name) && name != Paths.Slashes(Paths.LeadSlashes(name))
    ensures MakeDirsSplit(name) == (DirName(name), BaseName(name))
    ensures Paths.ProperName(BaseName(name))
    ensures Paths.NormalAbsolute(DirName(name))
    ensures Paths.LeadSlashes(DirName(name)) == Paths.LeadSlashes(name)
    ensures AncestorOrSelf(DirName(name), name) && |DirName(name)| < |name|
  {
    var lead := Paths.LeadSlashes(name);
    var q := Paths.NormalTail(name);
    var comps := Split(q, '/');
    Paths.SplitJoinSlash(q);
    var front := comps[..|comps| - 1];
    SplitOfRendered(lead, comps);
    Paths.RenderNormal(lead, front);
  }

  /** On a normal absolute path whose leading slashes name a directory and with no
      file at the path or above it, `makedirs` succeeds and leaves a directory there:
      every missing directory on the way is created. */
  lemma {:induction false} MakeDirsCreates(e: Entries, name: string)
    requires Paths.NormalAbsolute(name)
    requires IsDir(e, Paths.Slashes(Paths.LeadSlashes(name)))
    requires forall a :: AncestorOrSelf(a, name) && a in e ==> e[a].Dir?
    ensures MakeDirsStep(e, name).error.None?
    ensures IsDir(MakeDirsStep(e, name).entries, name)
    decreases |name|
  {
    var lead := Paths.LeadSlashes(name);
    if name == Paths.Slashes(lead) {
      SplitSlashesOnly(lead);
      assert MakeDirsStep(e, name) == MkdirExistOkStep(e, name);
    } else {
      NormalSplit(name);
      var head := DirName(name);
      assert AncestorOrSelf(name, name);
      if head in e {
        assert e[head].Dir?;
        assert MakeDirsStep(e, name) == MkdirExistOkStep(e, name);
        MkdirExistOkGrows(e, name);
      } else {
        forall a | AncestorOrSelf(a, head) && a in e ensures e[a].Dir? {
          AncestorTransitive(a, head, name);
        }
        MakeDirsCreates(e, head);
        var r := MakeDirsStep(e, head);
        MakeDirsGrows(e, head);
        assert MakeDirsStep(e, name) == MkdirExistOkStep(r.entries, name);
        assert name in r.entries ==> r.entries[name].Dir?;
        MkdirExistOkGrows(r.entries, name);
      }
    }
  }

  // ---------------------------------------------------------------------------
  // The filesystem as a mutable object

  class FileSystem {
    var entries: Entries

    constructor (initial: Entries)
      ensures entries == initial
    {
      entries := initial;
    }

    /** `os.mkdir(name)`. */
    method Mkdir(name: string) returns (error: Option<OsError>)
      modifies this
      ensures FsStep(entries, error) == MkdirStep(old(entries), name)
    {
      if name in entries {
        return Some(FileExists(name));
      }
      var parent := DirName(name);
      if parent !in entries {
        return Some(NoSuchFile(name));
      }
      if entries[parent].File? {
        return Some(NotADirectory(name));
      }
      var siblings := entries[parent].children;
      entries := entries[name := Dir([])];
      entries := entries[parent := Dir(siblings + [BaseName(name)])];
      error := None;
    }

    /** `os.makedirs(name, exist_ok=True)`. */
    method MakeDirs(name: string) returns (error: Option<OsError>)
      modifies this
      ensures FsStep(entries, error) == MakeDirsStep(old(entries), name)
      decreases |name|
    {
      var (head, tail) := MakeDirsSplit(name);
      if head != "" && tail != "" && head !in entries {
        var inner := MakeDirs(head);
        if inner.Some? && !inner.value.FileExists? {
          return inner;
        }
        if tail == "." {
          return None;
        }
      }
      var wasDir := IsDir(entries, name);
      error := Mkdir(name);
      if error.Some? && wasDir {
        error := None;
      }
    }

    /** `open(path, "w")`: the file is created or truncated. */
    method Open(path: string) returns (error: Option<OsError>)
      modifies this
      ensures FsStep(entries, error) == OpenStep(old(entries), path)
    {
      if IsDir(entries, path) {
        return Some(IsADirectory(path));
      }
      if path in entries {
        entries := entries[path := File("")];
        return None;
      }
      var parent := DirName(path);
      if parent !in entries {
        return Some(NoSuchFile(path));
      }
      if entries[parent].File? {
        return Some(NotADirectory(path));
      }
      var siblings := entries[parent].children;
      entries := entries[path := File("")];
      entries := entries[parent := Dir(siblings + [BaseName(path)])];
      error := None;
    }

    /** `f.write(text)` on a file opened for writing: the text is appended. */
    method Write(path: string, text: string)
      requires IsFile(entries, path)
      modifies this
      ensures entries == old(entries)[path := File(old(entries)[path].content + text)]
    {
      entries := entries[path := File(entries[path].content + text)];
    }
  }
}
