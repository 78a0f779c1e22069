/**
  The path sandbox resolver of python/ai-agent/utils.py, together with the three
  `posixpath` functions it is built from: `join`, `normpath` and `abspath`. The
  process's current directory, which `abspath` reads, is the parameter `cwd`.
  Symbolic links are not involved: `abspath` is purely lexical.
*/
module Paths {
  import opened Wrappers
  import opened Text

  /** `os.path.isabs(p)`. */
  predicate IsAbs(p: string) {
    |p| > 0 && p[0] == '/'
  }

  /** `os.path.join(a, b)`: an absolute `b` replaces `a`; otherwise one separator is
      inserted unless `a` is empty or already ends with one. */
  function JoinPath(a: string, b: string): string {
    if IsAbs(b) then b
    else if a == "" || a[|a| - 1] == '/' then a + b
    else a + "/" + b
  }

  /** The number of leading slashes `normpath` keeps: POSIX gives two leading slashes
      (but not three or more) an implementation-defined meaning, so they are kept. */
  function LeadSlashes(p: string): nat {
    if |p| >= 2 && p[0] == '/' && p[1] == '/' && !(|p| >= 3 && p[2] == '/') then 2
    else if |p| >= 1 && p[0] == '/' then 1
    else 0
  }

  function Slashes(n: nat): string {
    if n == 0 then "" else "/" + Slashes(n - 1)
  }

  /** A path component that `normpath` keeps as it is. */
  predicate ProperName(c: string) {
    c != "" && c != "." && c != ".." && '/' !in c
  }

  /** One iteration of `normpath`'s loop over the components: skip empty and `.`
      components, let `..` remove the previous component, keep everything else. A
      leading `..` is kept in a relative path and dropped in an absolute one. */
  function Step(absolute: bool, acc: seq<string>, comp: string): seq<string> {
    if comp == "" || comp == "." then acc
    else if comp != ".." || (!absolute && acc == []) || (acc != [] && acc[|acc| - 1] == "..") then acc + [comp]
    else if acc != [] then acc[..|acc| - 1]
    else acc
  }

  /** `normpath`'s loop run over `segs`, starting from the components `acc`. */
  function Fold(absolute: bool, acc: seq<string>, segs: seq<string>): seq<string>
    decreases |segs|
  {
    if segs == [] then acc
    else Step(absolute, Fold(absolute, acc, segs[..|segs| - 1]), segs[|segs| - 1])
  }

  /** `os.path.normpath(p)`. */
  function NormPath(p: string): string {
    if p == "" then "."
    else
      var lead := LeadSlashes(p);
      var r := Slashes(lead) + Join("/", Fold(lead > 0, [], Split(p, '/')));
      if r == "" then "." else r
  }

  /** `os.path.abspath(p)` in a process whose current directory is `cwd`. */
  function AbsPath(cwd: string, p: string): string {
    NormPath(if IsAbs(p) then p else JoinPath(cwd, p))
  }

  /** The pair `(path, error)` that `resolve_and_validate_path` returns. */
  datatype Resolution = Resolution(path: Option<string>, error: Option<string>)

  function OutsideError(directory: string): string {
    ErrorText("Cannot list \"" + directory + "\" as it is outside the permitted working directory")
  }

  /** `resolve_and_validate_path(working_directory, directory)`: accepts when the
      absolute target starts with the absolute working directory, as a string. */
  function Resolve(cwd: string, workingDirectory: string, directory: string := "."): (r: Resolution)
    ensures r.path.Some? != r.error.Some?
    ensures r.error.Some? ==> r.error.value == OutsideError(directory)
    ensures r.path.Some? <==>
              StartsWith(AbsPath(cwd, JoinPath(workingDirectory, directory)), AbsPath(cwd, workingDirectory))
    ensures r.path.Some? ==> StartsWith(r.path.value, AbsPath(cwd, workingDirectory))
    ensures r.path.Some? ==> r.path.value == AbsPath(cwd, JoinPath(workingDirectory, directory))
  {
    var relativeTargetPath := JoinPath(workingDirectory, directory);
    var absoluteWorkingDirPath := AbsPath(cwd, workingDirectory);
    var absoluteTargetPath := AbsPath(cwd, relativeTargetPath);
    var isWithinWorkingDir := StartsWith(absoluteTargetPath, absoluteWorkingDirPath);
    if !isWithinWorkingDir then Resolution(None, Some(OutsideError(directory)))
    else Resolution(Some(absoluteTargetPath), None)
  }

  /** Containment with a separator boundary: `p` is `root` or lies below it. This is
      what the resolver's prefix test approximates. */
  predicate Within(p: string, root: string) {
    p == root || StartsWith(p, if EndsWith(root, "/") then root else root + "/")
  }

  /** A path as `normpath` leaves an absolute path: one or two leading slashes and then
      proper components only. */
  predicate NormalAbsolute(p: string) {
    var lead := LeadSlashes(p);
    lead > 0
    && (p == Slashes(lead)
        || forall i :: lead <= i < |Split(p, '/')| ==> ProperName(Split(p, '/')[i]))
  }

  // ---------------------------------------------------------------------------
  // Splitting and joining

  lemma SplitSlashLead(q: string)
    ensures Split("/" + q, '/') == [""] + Split(q, '/')
  {
    assert ("/" + q)[1..] == q;
  }

  // ---------------------------------------------------------------------------
  // normpath

  lemma {:induction false} FoldAppend(absolute: bool, acc: seq<string>, s1: seq<string>, s2: seq<string>)
    ensures Fold(absolute, acc, s1 + s2) == Fold(absolute, Fold(absolute, acc, s1), s2)
    decreases |s2|
  {
    if s2 == [] {
      assert s1 + s2 == s1;
    } else {
      var n := |s2|;
      assert (s1 + s2)[..|s1 + s2| - 1] == s1 + s2[..n - 1];
      FoldAppend(absolute, acc, s1, s2[..n - 1]);
    }
  }

  /** In an absolute path every component `normpath` keeps is proper. */
  lemma {:induction false} FoldProper(acc: seq<string>, segs: seq<string>)
    requires forall i :: 0 <= i < |acc| ==> ProperName(acc[i])
    requires forall i :: 0 <= i < |segs| ==> '/' !in segs[i]
    ensures forall i :: 0 <= i < |Fold(true, acc, segs)| ==> ProperName(Fold(true, acc, segs)[i])
    decreases |segs|
  {
    if segs != [] {
      FoldProper(acc, segs[..|segs| - 1]);
    }
  }

  /** Proper components pass through `normpath`'s loop unchanged. */
  lemma {:induction false} FoldProperIdentity(acc: seq<string>, segs: seq<string>)
    requires forall i :: 0 <= i < |segs| ==> ProperName(segs[i])
    ensures Fold(true, acc, segs) == acc + segs
    decreases |segs|
  {
    if segs != [] {
      var n := |segs|;
      FoldProperIdentity(acc, segs[..n - 1]);
      assert acc + segs == acc + segs[..n - 1] + [segs[n - 1]];
    }
  }

  lemma {:induction false} FoldEmpties(acc: seq<string>, n: nat)
    ensures Fold(true, acc, seq(n, _ => "")) == acc
    decreases n
  {
    if n > 0 {
      assert seq(n, _ => "")[..n - 1] == seq(n - 1, _ => "");
      FoldEmpties(acc, n - 1);
    }
  }

  /** `normpath` of an absolute path: its leading slashes, then the folded components. */
  lemma NormPathForm(p: string)
    requires IsAbs(p)
    ensures LeadSlashes(p) == 1 || LeadSlashes(p) == 2
    ensures NormPath(p) == Slashes(LeadSlashes(p)) + Join("/", Fold(true, [], Split(p, '/')))
  {
  }

  lemma NormPathAbsolute(p: string)
    requires IsAbs(p)
    ensures LeadSlashes(p) == 1 || LeadSlashes(p) == 2
    ensures NormPath(p) == Slashes(LeadSlashes(p)) + Join("/", Fold(true, [], Split(p, '/')))
    ensures forall i :: 0 <= i < |Fold(true, [], Split(p, '/'))| ==> ProperName(Fold(true, [], Split(p, '/'))[i])
  {
    NormPathForm(p);
    FoldProper([], Split(p, '/'));
  }

  lemma {:induction false} JoinLengthPositive(sep: string, comps: seq<string>)
    requires |comps| >= 1 && comps[0] != ""
    ensures |Join(sep, comps)| > 0
  {
    JoinStartsWith(sep, comps);
  }

  /** A join of proper components does not start with a slash. */
  lemma JoinProperFirst(comps: seq<string>)
    requires comps != []
    requires forall i :: 0 <= i < |comps| ==> ProperName(comps[i])
    ensures Join("/", comps) != "" && Join("/", comps)[0] != '/'
  {
    JoinStartsWith("/", comps);
    assert comps[0][0] in comps[0];
  }

  lemma SplitRendered(lead: nat, comps: seq<string>)
    requires lead == 1 || lead == 2
    requires comps != []
    requires forall i :: 0 <= i < |comps| ==> '/' !in comps[i]
    ensures Split(Slashes(lead) + Join("/", comps), '/') == seq(lead, _ => "") + comps
  {
    assert "/" == ['/'];
    JoinSplit(comps, '/');
    SplitSlashSlashes(lead, Join("/", comps));
  }

  lemma LeadSlashesRendered(lead: nat, j: string)
    requires lead == 1 || lead == 2
    requires j == "" || j[0] != '/'
    ensures LeadSlashes(Slashes(lead) + j) == lead
  {
    assert Slashes(1) == "/";
    assert Slashes(2) == "//";
  }

  lemma NormalFromSplit(p: string, comps: seq<string>)
    requires LeadSlashes(p) > 0
    requires Split(p, '/') == seq(LeadSlashes(p), _ => "") + comps
    requires forall i :: 0 <= i < |comps| ==> ProperName(comps[i])
    ensures NormalAbsolute(p)
  {
    var lead := LeadSlashes(p);
    var parts := Split(p, '/');
    forall i | lead <= i < |parts| ensures ProperName(parts[i]) {
      assert parts[i] == comps[i - lead];
    }
  }

  /** One or two slashes followed by proper components is a normal absolute path. */
  lemma RenderNormal(lead: nat, comps: seq<string>)
    requires lead == 1 || lead == 2
    requires forall i :: 0 <= i < |comps| ==> ProperName(comps[i])
    ensures LeadSlashes(Slashes(lead) + Join("/", comps)) == lead
    ensures NormalAbsolute(Slashes(lead) + Join("/", comps))
  {
    var p := Slashes(lead) + Join("/", comps);
    if comps == [] {
      LeadSlashesRendered(lead, "");
      assert p == Slashes(lead) + "";
    } else {
      JoinProperFirst(comps);
      LeadSlashesRendered(lead, Join("/", comps));
      SplitRendered(lead, comps);
      NormalFromSplit(p, comps);
    }
  }

  /** `normpath` of an absolute path is normal. */
  lemma NormPathNormal(p: string)
    requires IsAbs(p)
    ensures NormalAbsolute(NormPath(p))
  {
    NormPathAbsolute(p);
    RenderNormal(LeadSlashes(p), Fold(true, [], Split(p, '/')));
  }

  lemma SplitSlashSlashes(lead: nat, q: string)
    requires lead == 1 || lead == 2
    ensures Split(Slashes(lead) + q, '/') == seq(lead, _ => "") + Split(q, '/')
  {
    if lead == 1 {
      assert Slashes(lead) + q == "/" + q;
      SplitSlashLead(q);
    } else {
      assert Slashes(lead) + q == "/" + ("/" + q);
      SplitSlashLead("/" + q);
      SplitSlashLead(q);
    }
  }

  lemma NormalTail(p: string) returns (q: string)
    requires NormalAbsolute(p)
    ensures p == Slashes(LeadSlashes(p)) + q
    ensures Split(p, '/') == seq(LeadSlashes(p), _ => "") + Split(q, '/')
    ensures p != Slashes(LeadSlashes(p)) ==> forall i :: 0 <= i < |Split(q, '/')| ==> ProperName(Split(q, '/')[i])
  {
    var lead := LeadSlashes(p);
    q := p[lead..];
    assert p == Slashes(lead) + q;
    SplitSlashSlashes(lead, q);
    if p != Slashes(lead) {
      forall i | 0 <= i < |Split(q, '/')| ensures ProperName(Split(q, '/')[i]) {
        assert Split(q, '/')[i] == Split(p, '/')[lead + i];
      }
    }
  }

  /** `normpath` leaves a normal absolute path unchanged. */
  lemma NormPathIdempotent(p: string)
    requires NormalAbsolute(p)
    ensures NormPath(p) == p
  {
    var lead := LeadSlashes(p);
    var q := NormalTail(p);
    FoldAppend(true, [], seq(lead, _ => ""), Split(q, '/'));
    FoldEmpties([], lead);
    assert Fold(true, [], Split(p, '/')) == Fold(true, [], Split(q, '/'));
    if p == Slashes(lead) {
      assert q == "";
      assert Fold(true, [], Split(q, '/')) == [];
    } else {
      FoldProperIdentity([], Split(q, '/'));
      assert [] + Split(q, '/') == Split(q, '/');
      SplitJoin(q, '/');
      assert NormPath(p) == Slashes(lead) + Join("/", Fold(true, [], Split(p, '/')));
    }
  }

  // ---------------------------------------------------------------------------
  // abspath of joined paths

  /** The path `abspath` normalises for `wd` when the current directory is `cwd`. */
  function Base(cwd: string, wd: string): string {
    if IsAbs(wd) then wd else JoinPath(cwd, wd)
  }

  lemma BaseAbsolute(cwd: string, wd: string)
    requires IsAbs(cwd)
    ensures IsAbs(Base(cwd, wd))
    ensures AbsPath(cwd, wd) == NormPath(Base(cwd, wd))
  {
  }

  /** Joining onto a relative `b` and then appending is joining onto `b + s`. */
  lemma JoinPathAppend(a: string, b: string, s: string)
    requires b != "" && !IsAbs(b)
    ensures JoinPath(a, b + s) == JoinPath(a, b) + s
  {
    assert (b + s)[0] == b[0];
  }

  /** The separator `join` puts after `a`. */
  function SepAfter(a: string): string {
    if a == "" || a[|a| - 1] == '/' then "" else "/"
  }

  lemma JoinPathSep(a: string, t: string)
    requires !IsAbs(t)
    ensures JoinPath(a, t) == a + (SepAfter(a) + t)
  {
    assert a + SepAfter(a) + t == a + (SepAfter(a) + t);
  }

  lemma SepAfterJoin(cwd: string, wd: string)
    requires wd != "" && !IsAbs(wd)
    ensures SepAfter(JoinPath(cwd, wd)) == SepAfter(wd)
  {
    JoinPathSep(cwd, wd);
    var b := JoinPath(cwd, wd);
    assert b[|b| - 1] == wd[|wd| - 1];
  }

  lemma JoinOntoRelative(cwd: string, wd: string, t: string)
    requires IsAbs(cwd)
    requires wd != "" && !IsAbs(wd)
    requires t != "" && !IsAbs(t)
    ensures !IsAbs(JoinPath(wd, t))
    ensures JoinPath(cwd, JoinPath(wd, t)) == JoinPath(JoinPath(cwd, wd), t)
  {
    var x := SepAfter(wd) + t;
    JoinPathSep(wd, t);
    assert JoinPath(wd, t)[0] == wd[0];
    JoinPathAppend(cwd, wd, x);
    SepAfterJoin(cwd, wd);
    JoinPathSep(JoinPath(cwd, wd), t);
  }

  lemma JoinOntoEmpty(cwd: string, t: string)
    requires IsAbs(cwd)
    requires t != "" && !IsAbs(t)
    ensures JoinPath("", t) == t
    ensures JoinPath(cwd, t) == JoinPath(JoinPath(cwd, ""), t)
  {
    assert JoinPath("", t) == "" + t == t;
    if cwd[|cwd| - 1] != '/' {
      assert JoinPath(cwd, "") == cwd + "/";
      assert JoinPath(cwd + "/", t) == cwd + "/" + t;
    } else {
      assert JoinPath(cwd, "") == cwd + "" == cwd;
    }
  }

  /** The string `abspath` normalises for `join(wd, t)` is `t` joined onto `Base`. */
  lemma JoinOntoBase(cwd: string, wd: string, t: string)
    requires IsAbs(cwd)
    requires t != "" && !IsAbs(t)
    ensures (if IsAbs(JoinPath(wd, t)) then JoinPath(wd, t) else JoinPath(cwd, JoinPath(wd, t)))
            == JoinPath(Base(cwd, wd), t)
  {
    if wd == "" {
      JoinOntoEmpty(cwd, t);
    } else if !IsAbs(wd) {
      JoinOntoRelative(cwd, wd, t);
    } else {
      assert JoinPath(wd, t)[0] == '/';
    }
  }

  /** Joining a relative `t` onto `wd` and taking `abspath` is joining `t` onto the
      unnormalised base of `wd`. */
  lemma AbsPathJoinRelative(cwd: string, wd: string, t: string)
    requires IsAbs(cwd)
    requires t != "" && !IsAbs(t)
    ensures AbsPath(cwd, JoinPath(wd, t)) == NormPath(JoinPath(Base(cwd, wd), t))
  {
    JoinOntoBase(cwd, wd, t);
  }

  lemma LeadSlashesAppend(x: string, y: string)
    requires x != "" && y != "" && y[0] != '/'
    ensures LeadSlashes(x + y) == LeadSlashes(x)
    ensures x[|x| - 1] != '/' ==> LeadSlashes(x + "/" + y) == LeadSlashes(x)
  {
    var xy := x + y;
    assert xy[0] == x[0];
    if |x| >= 2 {
      assert xy[1] == x[1];
    }
    if |x| >= 3 {
      assert xy[2] == x[2];
    }
    var xsy := x + "/" + y;
    assert xsy[0] == x[0];
    if |x| >= 2 {
      assert xsy[1] == x[1];
    }
    if |x| >= 3 {
      assert xsy[2] == x[2];
    }
  }

  /** `normpath` of an absolute `x` joined with a relative `t`: the components of `t`
      are folded onto the normalised components of `x`. */
  lemma NormPathJoinRelative(x: string, t: string)
    requires IsAbs(x)
    requires t != "" && !IsAbs(t)
    ensures IsAbs(JoinPath(x, t))
    ensures LeadSlashes(JoinPath(x, t)) == LeadSlashes(x)
    ensures Fold(true, [], Split(JoinPath(x, t), '/')) == Fold(true, Fold(true, [], Split(x, '/')), Split(t, '/'))
  {
    LeadSlashesAppend(x, t);
    if x[|x| - 1] == '/' {
      var x' := x[..|x| - 1];
      assert x == x' + "/" + "";
      assert JoinPath(x, t) == x' + "/" + t;
      SplitConcat(x', t, '/');
      SplitConcat(x', "", '/');
      FoldAppend(true, [], Split(x', '/'), Split(t, '/'));
      FoldAppend(true, [], Split(x', '/'), [""]);
    } else {
      SplitConcat(x, t, '/');
      FoldAppend(true, [], Split(x, '/'), Split(t, '/'));
    }
  }

  // ---------------------------------------------------------------------------
  // Properties of the resolver

  /** Whatever the caller passes, an accepted path is absolute and normal. */
  lemma AcceptedIsNormal(cwd: string, wd: string, directory: string)
    requires IsAbs(cwd)
    requires Resolve(cwd, wd, directory).path.Some?
    ensures NormalAbsolute(Resolve(cwd, wd, directory).path.value)
    ensures StartsWith(Resolve(cwd, wd, directory).path.value, AbsPath(cwd, wd))
  {
    var p := JoinPath(wd, directory);
    NormPathNormal(if IsAbs(p) then p else JoinPath(cwd, p));
  }

  /** The default `"."` names the working directory itself, and it is accepted. */
  lemma DotResolvesToRoot(cwd: string, wd: string)
    requires IsAbs(cwd)
    ensures Resolve(cwd, wd) == Resolution(Some(AbsPath(cwd, wd)), None)
  {
    var x := Base(cwd, wd);
    AbsPathJoinRelative(cwd, wd, ".");
    NormPathJoinRelative(x, ".");
    assert Split(".", '/') == ["."];
    NormPathAbsolute(x);
    NormPathAbsolute(JoinPath(x, "."));
  }

  /** `".."` climbs out of any root that has at least one component, and is rejected
      with the message that quotes it. */
  lemma ParentRejected(cwd: string, wd: string)
    requires IsAbs(cwd)
    requires AbsPath(cwd, wd) != "/" && AbsPath(cwd, wd) != "//"
    ensures Resolve(cwd, wd, "..") == Resolution(None, Some(OutsideError("..")))
  {
    var lead, comps := ParentShape(cwd, wd);
    JoinDropLast(comps);
    assert |AbsPath(cwd, JoinPath(wd, ".."))| < |AbsPath(cwd, wd)|;
  }

  /** The root and its parent as `normpath` renders them. */
  lemma ParentShape(cwd: string, wd: string) returns (lead: nat, comps: seq<string>)
    requires IsAbs(cwd)
    requires AbsPath(cwd, wd) != "/" && AbsPath(cwd, wd) != "//"
    ensures comps != [] && forall i :: 0 <= i < |comps| ==> ProperName(comps[i])
    ensures AbsPath(cwd, wd) == Slashes(lead) + Join("/", comps)
    ensures AbsPath(cwd, JoinPath(wd, "..")) == Slashes(lead) + Join("/", comps[..|comps| - 1])
  {
    lead, comps := RootShape(cwd, wd);
    AbsPathJoinRelative(cwd, wd, "..");
    ParentOfBase(Base(cwd, wd));
  }

  /** `normpath(join(x, ".."))` drops the last component of `normpath(x)`. */
  lemma ParentOfBase(x: string)
    requires IsAbs(x)
    requires Fold(true, [], Split(x, '/')) != []
    ensures NormPath(JoinPath(x, ".."))
            == Slashes(LeadSlashes(x)) + Join("/", Fold(true, [], Split(x, '/'))[..|Fold(true, [], Split(x, '/'))| - 1])
  {
    var comps := Fold(true, [], Split(x, '/'));
    NormPathJoinRelative(x, "..");
    NormPathForm(JoinPath(x, ".."));
    LastNotParent(x);
    ParentDropsLast(comps);
  }

  lemma LastNotParent(x: string)
    requires IsAbs(x)
    requires Fold(true, [], Split(x, '/')) != []
    ensures var comps := Fold(true, [], Split(x, '/')); comps[|comps| - 1] != ".."
  {
    NormPathAbsolute(x);
  }

  lemma ParentDropsLast(comps: seq<string>)
    requires comps != [] && comps[|comps| - 1] != ".."
    ensures Fold(true, comps, Split("..", '/')) == comps[..|comps| - 1]
  {
    SplitNoSep("..", '/');
    assert Fold(true, comps, [".."]) == Step(true, comps, "..");
  }

  /** Dropping the last of some proper components shortens their join. */
  lemma JoinDropLast(comps: seq<string>)
    requires comps != [] && forall i :: 0 <= i < |comps| ==> ProperName(comps[i])
    ensures |Join("/", comps[..|comps| - 1])| < |Join("/", comps)|
  {
    var n := |comps|;
    if n == 1 {
      JoinLengthPositive("/", comps);
    } else {
      assert Join("/", comps) == Join("/", comps[..n - 1]) + "/" + comps[n - 1];
    }
  }

  /** An absolute argument replaces the working directory in the join: it is accepted
      exactly when its normal form starts with the root. */
  lemma AbsoluteArgument(cwd: string, wd: string, directory: string)
    requires IsAbs(directory)
    ensures Resolve(cwd, wd, directory).path.Some? <==> StartsWith(NormPath(directory), AbsPath(cwd, wd))
    ensures Resolve(cwd, wd, directory).path.Some? ==> Resolve(cwd, wd, directory).path.value == NormPath(directory)
  {
  }

  /** The components of a relative path, appended to a rendered root, render as the
      root joined with that path. */
  lemma {:induction false} RenderAppend(lead: nat, comps: seq<string>, t: string)
    requires lead == 1 || lead == 2
    requires forall i :: 0 <= i < |comps| ==> ProperName(comps[i])
    requires t != "" && !IsAbs(t)
    ensures Slashes(lead) + Join("/", comps + Split(t, '/')) == JoinPath(Slashes(lead) + Join("/", comps), t)
  {
    var segs := Split(t, '/');
    SplitJoinSlash(t);
    if comps == [] {
      assert comps + segs == segs;
      JoinAfterSlashes(lead, t);
    } else {
      var j := Join("/", comps);
      JoinConcat("/", comps, segs);
      JoinLastChar(comps);
      JoinAfterName(Slashes(lead), j, t);
    }
  }

  lemma SplitJoinSlash(t: string)
    ensures Join("/", Split(t, '/')) == t
  {
    assert "/" == ['/'];
    SplitJoin(t, '/');
  }

  lemma JoinAfterSlashes(lead: nat, t: string)
    requires lead == 1 || lead == 2
    requires !IsAbs(t)
    ensures Slashes(lead) + t == JoinPath(Slashes(lead) + Join("/", []), t)
  {
    assert Slashes(1) == "/" && Slashes(2) == "//";
    assert Slashes(lead) + Join("/", []) == Slashes(lead);
  }

  lemma JoinAfterName(s: string, j: string, t: string)
    requires j != "" && j[|j| - 1] != '/' && !IsAbs(t)
    ensures JoinPath(s + j, t) == s + (j + "/" + t)
  {
    assert (s + j)[|s + j| - 1] == j[|j| - 1];
  }

  /** The components a proper relative argument adds to the root. */
  lemma ProperRelativeTarget(cwd: string, wd: string, directory: string)
    requires IsAbs(cwd)
    requires forall i :: 0 <= i < |Split(directory, '/')| ==> ProperName(Split(directory, '/')[i])
    ensures directory != "" && !IsAbs(directory)
    ensures AbsPath(cwd, JoinPath(wd, directory)) == JoinPath(AbsPath(cwd, wd), directory)
  {
    var segs := Split(directory, '/');
    assert directory != "" && !IsAbs(directory) by {
      assert ProperName(segs[0]);
    }
    var x := Base(cwd, wd);
    var lead, comps := RootShape(cwd, wd);
    AbsPathJoinRelative(cwd, wd, directory);
    NormPathJoinRelative(x, directory);
    FoldProperIdentity(comps, segs);
    NormPathForm(JoinPath(x, directory));
    RenderAppend(lead, comps, directory);
  }

  /** A relative argument made of proper names only (no empty, `.` or `..`
      component) is accepted, and names that path inside the root. */
  lemma ProperRelativeAccepted(cwd: string, wd: string, directory: string)
    requires IsAbs(cwd)
    requires forall i :: 0 <= i < |Split(directory, '/')| ==> ProperName(Split(directory, '/')[i])
    ensures Resolve(cwd, wd, directory) == Resolution(Some(JoinPath(AbsPath(cwd, wd), directory)), None)
    ensures Within(JoinPath(AbsPath(cwd, wd), directory), AbsPath(cwd, wd))
  {
    ProperRelativeTarget(cwd, wd, directory);
    var root := AbsPath(cwd, wd);
    var target := JoinPath(root, directory);
    if root != "" && root[|root| - 1] == '/' {
      assert target == root + directory;
      StartsWithConcat(root, directory);
      assert EndsWith(root, "/");
    } else {
      assert target == (root + "/") + directory;
      StartsWithConcat(root + "/", directory);
      assert (root + "/" + directory)[..|root|] == root;
    }
  }

  /** The root as `normpath` renders it: leading slashes and proper components. */
  lemma RootShape(cwd: string, wd: string) returns (lead: nat, comps: seq<string>)
    requires IsAbs(cwd)
    ensures lead == LeadSlashes(Base(cwd, wd)) && comps == Fold(true, [], Split(Base(cwd, wd), '/'))
    ensures lead == 1 || lead == 2
    ensures forall i :: 0 <= i < |comps| ==> ProperName(comps[i])
    ensures AbsPath(cwd, wd) == Slashes(lead) + Join("/", comps)
    ensures AbsPath(cwd, wd) != "/" && AbsPath(cwd, wd) != "//" ==> comps != []
  {
    var x := Base(cwd, wd);
    comps := Fold(true, [], Split(x, '/'));
    NormPathAbsolute(x);
    lead := LeadSlashes(x);
    assert Join("/", []) == "";
    assert Slashes(1) == "/" && Slashes(2) == "//";
  }

  /** A proper component followed by slash-free text is proper. */
  lemma ExtendName(last: string, suffix: string)
    requires ProperName(last)
    requires suffix != "" && '/' !in suffix
    ensures ProperName(last + suffix)
  {
    assert '/' !in last + suffix by {
      forall i | 0 <= i < |last + suffix| ensures (last + suffix)[i] != '/' {
        if i < |last| {
          assert (last + suffix)[i] == last[i];
        } else {
          assert (last + suffix)[i] == suffix[i - |last|];
        }
      }
    }
    if |last + suffix| == 2 {
      assert |last| == 1 && last == [last[0]];
      assert (last + suffix)[0] == last[0] != '.';
    }
  }

  /** Appending slash-free text to a normal path with a component extends its last
      component, and the result is normal again. */
  lemma ExtendLast(lead: nat, comps: seq<string>, suffix: string)
    requires lead == 1 || lead == 2
    requires comps != [] && forall i :: 0 <= i < |comps| ==> ProperName(comps[i])
    requires suffix != "" && '/' !in suffix
    ensures NormalAbsolute(Slashes(lead) + Join("/", comps) + suffix)
  {
    var n := |comps|;
    var last := comps[n - 1];
    var comps' := comps[..n - 1] + [last + suffix];
    assert comps'[..n - 1] == comps[..n - 1];
    assert Join("/", comps') == Join("/", comps) + suffix;
    ExtendName(last, suffix);
    RenderNormal(lead, comps');
    assert Slashes(lead) + Join("/", comps) + suffix == Slashes(lead) + Join("/", comps');
  }

  /** A root extended by slash-free text is its own normal form. */
  lemma SiblingNormal(cwd: string, wd: string, suffix: string)
    requires IsAbs(cwd)
    requires suffix != "" && '/' !in suffix
    requires AbsPath(cwd, wd) != "/" && AbsPath(cwd, wd) != "//"
    ensures IsAbs(AbsPath(cwd, wd))
    ensures NormPath(AbsPath(cwd, wd) + suffix) == AbsPath(cwd, wd) + suffix
  {
    var lead, comps := RootShape(cwd, wd);
    ExtendLast(lead, comps, suffix);
    NormPathIdempotent(AbsPath(cwd, wd) + suffix);
    assert Slashes(lead)[0] == '/';
  }

  /** A root extended by slash-free text is not within the root. */
  lemma SiblingOutside(cwd: string, wd: string, suffix: string)
    requires IsAbs(cwd)
    requires suffix != "" && '/' !in suffix
    requires AbsPath(cwd, wd) != "/" && AbsPath(cwd, wd) != "//"
    ensures !Within(AbsPath(cwd, wd) + suffix, AbsPath(cwd, wd))
  {
    var lead, comps := RootShape(cwd, wd);
    JoinLastChar(comps);
    var j := Join("/", comps);
    LastOfConcat(Slashes(lead), j);
    ExtendedOutside(AbsPath(cwd, wd), suffix);
  }

  lemma LastOfConcat(a: string, b: string)
    requires b != ""
    ensures (a + b)[|a + b| - 1] == b[|b| - 1]
  {
  }

  /** Text appended to a path that does not end in a separator, starting with
      something other than a separator, leaves that path. */
  lemma ExtendedOutside(root: string, suffix: string)
    requires root != "" && root[|root| - 1] != '/'
    requires suffix != "" && suffix[0] != '/'
    ensures !Within(root + suffix, root)
  {
    assert (root + suffix)[|root|] == suffix[0];
    assert (root + "/")[|root|] == '/';
  }

  /** The prefix test has no separator boundary: a sibling whose name extends the
      root's last component is accepted, although it is not within the root. */
  lemma SiblingAccepted(cwd: string, wd: string, suffix: string)
    requires IsAbs(cwd)
    requires suffix != "" && '/' !in suffix
    requires AbsPath(cwd, wd) != "/" && AbsPath(cwd, wd) != "//"
    ensures Resolve(cwd, wd, AbsPath(cwd, wd) + suffix)
            == Resolution(Some(AbsPath(cwd, wd) + suffix), None)
    ensures !Within(AbsPath(cwd, wd) + suffix, AbsPath(cwd, wd))
  {
    var root := AbsPath(cwd, wd);
    SiblingNormal(cwd, wd, suffix);
    SiblingOutside(cwd, wd, suffix);
    assert JoinPath(wd, root + suffix) == root + suffix;
    assert AbsPath(cwd, root + suffix) == root + suffix;
    assert (root + suffix)[..|root|] == root;
  }

  lemma {:induction false} JoinLastChar(comps: seq<string>)
    requires |comps| >= 1
    requires forall i :: 0 <= i < |comps| ==> ProperName(comps[i])
    ensures |Join("/", comps)| > 0
    ensures Join("/", comps)[|Join("/", comps)| - 1] != '/'
  {
    var n := |comps|;
    var last := comps[n - 1];
    assert last[|last| - 1] in last;
    if n > 1 {
      assert Join("/", comps) == Join("/", comps[..n - 1]) + "/" + last;
    }
  }

  lemma ExampleRootNormal()
    ensures NormalAbsolute("/w/calculator")
  {
    assert Join("/", ["w", "calculator"]) == "w/calculator" by {
      assert ["w", "calculator"][..1] == ["w"];
    }
    assert "/w/calculator" == Slashes(1) + Join("/", ["w", "calculator"]);
    RenderNormal(1, ["w", "calculator"]);
  }

  /** `/w/calculator` is already normal, so it is its own `abspath`. */
  lemma ExampleRoot()
    ensures AbsPath("/w", "/w/calculator") == "/w/calculator"
  {
    ExampleRootNormal();
    NormPathIdempotent("/w/calculator");
  }

  /** A sibling of the root `/w/calculator`: `/w/calculator2` is accepted but lies outside. */
  lemma SiblingExample()
    ensures Resolve("/w", "/w/calculator", "/w/calculator2") == Resolution(Some("/w/calculator2"), None)
    ensures !Within("/w/calculator2", "/w/calculator")
  {
    ExampleRoot();
    SiblingAccepted("/w", "/w/calculator", "2");
    assert "/w/calculator" + "2" == "/w/calculator2";
  }
}
