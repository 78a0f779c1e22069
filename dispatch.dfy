/**
  `call_function` (python/ai-agent/main.py and its earlier copy main.py): look the
  requested name up in the fixed table of four tools, copy the model's arguments,
  force `working_directory`, call the tool with them as keyword arguments and wrap
  its string as a function response. Python's keyword binding is modelled: an
  unexpected or missing argument raises a `TypeError` out of `call_function`, while
  everything that goes wrong inside a tool comes back as the tool's `Error: ...`
  string.
*/
module Dispatch {
  import opened Wrappers
  import opened Text
  import opened FileSystems
  import opened Values
  import opened Config
  import ReadTool
  import ListTool
  import LegacyListTool
  import RunTool
  import WriteTool

  /** A function call the model asked for: its name and its `args` object as the
      key/value pairs in the order given (absent when the model sent none). */
  datatype FunctionCall = FunctionCall(name: string, args: Option<seq<(string, Value)>>)

  /** The `response` of a function response part: `{"error": ...}` or `{"result": ...}`. */
  datatype Reply = ErrorReply(error: string) | ResultReply(result: string)

  datatype Part =
    | TextPart(text: string)
    | FunctionCallPart(call: FunctionCall)
    | FunctionResponsePart(name: string, response: Reply)

  datatype Content = Content(role: string, parts: seq<Part>)

  /** `function_map`: each tool as a function of the files and its arguments, with
      `working_directory` already WORKING_DIR. `run_python_file` and `write_file` also
      give the files afterwards. */
  datatype Toolbox = Toolbox(
    getFileContent: (Entries, string) -> string,
    getFilesInfo: (Entries, string) -> string,
    runPythonFile: (Entries, string, Option<seq<string>>) -> RunTool.RunReport,
    writeFile: (Entries, string, Value) -> WriteTool.WriteResult)

  /** The agent's tools, run from the current directory `cwd` (against which
      `./calculator` is made absolute) with the interpreter `run`. */
  function AgentToolbox(cwd: string, run: RunTool.Runner): Toolbox {
    Toolbox((e, p) => ReadTool.GetFileContent(cwd, e, WorkingDir, p),
            (e, d) => ListTool.GetFilesInfo(cwd, e, WorkingDir, d),
            (e, p, a) => RunTool.RunPythonFile(cwd, e, run, WorkingDir, p, a),
            (e, p, c) => WriteTool.WriteFileSpec(cwd, e, WorkingDir, p, c))
  }

  /** The earlier tools at the repository root: the same, except for the listing. */
  function RootToolbox(cwd: string, run: RunTool.Runner): Toolbox {
    Toolbox((e, p) => ReadTool.GetFileContent(cwd, e, WorkingDir, p),
            (e, d) => LegacyListTool.GetFilesInfo(cwd, e, WorkingDir, d),
            (e, p, a) => RunTool.RunPythonFile(cwd, e, run, WorkingDir, p, a),
            (e, p, c) => WriteTool.WriteFileSpec(cwd, e, WorkingDir, p, c))
  }

  /** The table's `write_file` is the one that writes from `cwd`, so that the method
      `WriteTool.WriteFile` can perform it. */
  ghost predicate WritesIn(tools: Toolbox, cwd: string) {
    forall e, p, c {:trigger WriteTool.WriteFileSpec(cwd, e, WorkingDir, p, c)} ::
      tools.writeFile(e, p, c) == WriteTool.WriteFileSpec(cwd, e, WorkingDir, p, c)
  }

  lemma ToolboxesWrite(cwd: string, run: RunTool.Runner)
    ensures WritesIn(AgentToolbox(cwd, run), cwd)
    ensures WritesIn(RootToolbox(cwd, run), cwd)
  {
  }

  /** What a call returned or raised, and the files afterwards. */
  datatype CallResult = CallResult(outcome: Outcome<Content>, entries: Entries)

  /** The entries of `function_map`. */
  datatype Tool = GetFileContent | GetFilesInfo | RunPythonFile | WriteFile

  function ToolName(t: Tool): string {
    match t
    case GetFileContent => "get_file_content"
    case GetFilesInfo => "get_files_info"
    case RunPythonFile => "run_python_file"
    case WriteFile => "write_file"
  }

  /** `function_map.get(name)`. */
  function Lookup(name: string): (r: Option<Tool>)
    ensures r.Some? ==> ToolName(r.value) == name
    ensures forall t :: ToolName(t) == name ==> r == Some(t)
    ensures r.None? <==> name !in ["get_file_content", "get_files_info", "run_python_file", "write_file"]
  {
    if name == "get_file_content" then Some(GetFileContent)
    else if name == "get_files_info" then Some(GetFilesInfo)
    else if name == "run_python_file" then Some(RunPythonFile)
    else if name == "write_file" then Some(WriteFile)
    else None
  }

  /** Each tool's parameters, in declaration order. */
  function Params(t: Tool): (r: seq<string>)
    ensures |r| > 0 && r[0] == "working_directory"
  {
    match t
    case GetFileContent => ["working_directory", "file_path"]
    case GetFilesInfo => ["working_directory", "directory"]
    case RunPythonFile => ["working_directory", "file_path", "args"]
    case WriteFile => ["working_directory", "file_path", "content"]
  }

  /** The parameters without a default. */
  function Required(t: Tool): seq<string> {
    match t
    case GetFilesInfo => ["working_directory"]
    case RunPythonFile => ["working_directory", "file_path"]
    case _ => Params(t)
  }

  // ---------------------------------------------------------------------------
  // The argument dictionary

  /** `args.get(key)` of the dictionary built from `pairs`: a later pair for the same
      key replaces an earlier one. */
  function Get(pairs: seq<(string, Value)>, key: string): (r: Option<Value>)
    ensures r.None? <==> forall i :: 0 <= i < |pairs| ==> pairs[i].0 != key
    ensures r.Some? ==> (key, r.value) in pairs
  {
    if |pairs| == 0 then None
    else if pairs[|pairs| - 1].0 == key then Some(pairs[|pairs| - 1].1)
    else
      var r := Get(pairs[..|pairs| - 1], key);
      assert forall i :: 0 <= i < |pairs| - 1 ==> pairs[..|pairs| - 1][i] == pairs[i];
      r
  }

  /** The value `Get` finds is that of the last pair with the key: a later pair
      replaces an earlier one. */
  lemma {:induction false} GetLastPair(pairs: seq<(string, Value)>, key: string)
    requires Get(pairs, key).Some?
    ensures exists i :: 0 <= i < |pairs| && pairs[i] == (key, Get(pairs, key).value) &&
                        forall j :: i < j < |pairs| ==> pairs[j].0 != key
    decreases |pairs|
  {
    var n := |pairs|;
    if pairs[n - 1].0 == key {
      assert pairs[n - 1] == (key, Get(pairs, key).value);
    } else {
      var front := pairs[..n - 1];
      var v := Get(pairs, key).value;
      assert Get(pairs, key) == Get(front, key);
      GetLastPair(front, key);
      var i :| 0 <= i < |front| && front[i] == (key, v) && forall j :: i < j < |front| ==> front[j].0 != key;
      LaterKeysDiffer(pairs, front, key, i);
      assert pairs[i] == (key, v);
    }
  }

  lemma LaterKeysDiffer(pairs: seq<(string, Value)>, front: seq<(string, Value)>, key: string, i: nat)
    requires |pairs| > 0 && front == pairs[..|pairs| - 1] && pairs[|pairs| - 1].0 != key && i < |front|
    requires forall j :: i < j < |front| ==> front[j].0 != key
    ensures pairs[i] == front[i]
    ensures forall j :: i < j < |pairs| ==> pairs[j].0 != key
  {
    assert forall j :: i < j < |front| ==> pairs[j] == front[j];
  }

  /** The first key (in dictionary order) that is not a parameter. */
  function FirstUnexpected(pairs: seq<(string, Value)>, params: seq<string>): (r: Option<string>)
    ensures r.None? <==> forall i :: 0 <= i < |pairs| ==> pairs[i].0 in params
    ensures r.Some? ==> r.value !in params &&
                        exists i :: 0 <= i < |pairs| && pairs[i].0 == r.value &&
                                    forall j :: 0 <= j < i ==> pairs[j].0 in params
  {
    if |pairs| == 0 then None
    else if pairs[0].0 !in params then Some(pairs[0].0)
    else
      var r := FirstUnexpected(pairs[1..], params);
      assert forall i :: 0 < i < |pairs| ==> pairs[i] == pairs[1..][i - 1];
      r
  }

  /** The required parameters no argument supplies, in declaration order. */
  function Missing(required: seq<string>, pairs: seq<(string, Value)>): (r: seq<string>)
    ensures forall p :: p in r <==> p in required && Get(pairs, p).None?
    ensures Subsequence(r, required)
  {
    if |required| == 0 then []
    else
      var rest := Missing(required[1..], pairs);
      if Get(pairs, required[0]).None? then
        assert ([required[0]] + rest)[1..] == rest;
        [required[0]] + rest
      else
        rest
  }

  /** `a` is `b` with some elements left out, the rest kept in order. */
  predicate Subsequence<T(==)>(a: seq<T>, b: seq<T>) {
    if |b| == 0 then |a| == 0
    else (|a| > 0 && a[0] == b[0] && Subsequence(a[1..], b[1..])) || Subsequence(a, b[1..])
  }

  predicate Distinct<T(==)>(s: seq<T>) {
    forall i, j :: 0 <= i < j < |s| ==> s[i] != s[j]
  }

  lemma {:induction false} SubsequenceMembers<T>(a: seq<T>, b: seq<T>)
    requires Subsequence(a, b)
    ensures forall x :: x in a ==> x in b
    decreases |b|
  {
    if |b| > 0 {
      if |a| > 0 && a[0] == b[0] && Subsequence(a[1..], b[1..]) {
        SubsequenceMembers(a[1..], b[1..]);
        assert forall x :: x in a ==> x == a[0] || x in a[1..];
      } else {
        SubsequenceMembers(a, b[1..]);
      }
    }
  }

  lemma {:induction false} SubsequenceDistinct<T>(a: seq<T>, b: seq<T>)
    requires Subsequence(a, b) && Distinct(b)
    ensures Distinct(a)
    decreases |b|
  {
    if |b| > 0 {
      assert Distinct(b[1..]) by {
        assert forall i :: 0 <= i < |b| - 1 ==> b[1..][i] == b[i + 1];
      }
      if |a| > 0 && a[0] == b[0] && Subsequence(a[1..], b[1..]) {
        SubsequenceDistinct(a[1..], b[1..]);
        SubsequenceMembers(a[1..], b[1..]);
        assert b[0] !in b[1..];
        assert forall j :: 0 < j < |a| ==> a[j] == a[1..][j - 1];
      } else {
        SubsequenceDistinct(a, b[1..]);
      }
    }
  }

  /** Of a sequence without repeats, a subsequence is fixed by which elements it has:
      the order is the sequence's own. */
  lemma {:induction false} SubsequenceByMembers<T>(a: seq<T>, c: seq<T>, b: seq<T>)
    requires Subsequence(a, b) && Subsequence(c, b) && Distinct(b)
    requires forall x :: x in a <==> x in c
    ensures a == c
    decreases |b|
  {
    if |b| > 0 {
      assert Distinct(b[1..]) by {
        assert forall i :: 0 <= i < |b| - 1 ==> b[1..][i] == b[i + 1];
      }
      assert b[0] !in b[1..];
      if b[0] in a {
        FrontIsHead(a, b);
        FrontIsHead(c, b);
        SubsequenceMembers(a[1..], b[1..]);
        SubsequenceMembers(c[1..], b[1..]);
        assert forall x :: x in a[1..] <==> x in a && x != b[0];
        assert forall x :: x in c[1..] <==> x in c && x != b[0];
        SubsequenceByMembers(a[1..], c[1..], b[1..]);
        assert a == [a[0]] + a[1..];
        assert c == [c[0]] + c[1..];
      } else {
        assert |a| == 0 || a[0] != b[0];
        assert |c| == 0 || c[0] != b[0];
        SubsequenceByMembers(a, c, b[1..]);
      }
    } else {
      assert |a| == 0 && |c| == 0;
    }
  }

  /** A subsequence holding the first element of a sequence without repeats starts with it. */
  lemma FrontIsHead<T>(a: seq<T>, b: seq<T>)
    requires Subsequence(a, b) && |b| > 0 && b[0] !in b[1..] && b[0] in a
    ensures |a| > 0 && a[0] == b[0] && Subsequence(a[1..], b[1..])
  {
    if !(|a| > 0 && a[0] == b[0] && Subsequence(a[1..], b[1..])) {
      SubsequenceMembers(a, b[1..]);
    }
  }

  /** The missing names of `write_file` are reported in declaration order and
      without repeats, whatever the order of the arguments. */
  lemma MissingInOrder(t: Tool, pairs: seq<(string, Value)>, names: seq<string>)
    requires Subsequence(names, Required(t))
    requires forall p :: p in names <==> p in Required(t) && Get(pairs, p).None?
    ensures Missing(Required(t), pairs) == names
    ensures Distinct(Missing(Required(t), pairs))
  {
    var r := Missing(Required(t), pairs);
    assert Distinct(Required(t));
    SubsequenceByMembers(r, names, Required(t));
    SubsequenceDistinct(r, Required(t));
  }

  /** `write_file` called with only the working directory names both missing
      arguments, in declaration order. */
  lemma WriteFileMissingBoth(wd: Value)
    ensures BindError(WriteFile, [("working_directory", wd)])
              == Some(MissingArguments("write_file", ["file_path", "content"]))
  {
    var pairs := [("working_directory", wd)];
    assert Get(pairs, "file_path").None? && Get(pairs, "content").None?;
    assert Get(pairs, "working_directory").Some?;
    assert Subsequence(["file_path", "content"], Required(WriteFile)) by {
      assert Required(WriteFile)[1..] == ["file_path", "content"];
      assert ["file_path", "content"][1..] == ["content"];
      assert Subsequence(["content"], ["content"]) by {
        assert ["content"][1..] == [];
      }
    }
    MissingInOrder(WriteFile, pairs, ["file_path", "content"]);
    assert FirstUnexpected(pairs, Params(WriteFile)).None?;
  }

  /** The names in a "missing arguments" message: `'a'`, `'a' and 'b'`,
      `'a', 'b', and 'c'`. */
  function QuotedNames(names: seq<string>): string
    requires |names| > 0
  {
    if |names| == 1 then "'" + names[0] + "'"
    else if |names| == 2 then "'" + names[0] + "' and '" + names[1] + "'"
    else Join(", ", Quoted(names[..|names| - 1])) + ", and '" + names[|names| - 1] + "'"
  }

  function Quoted(names: seq<string>): (r: seq<string>)
    ensures |r| == |names|
  {
    seq(|names|, i requires 0 <= i < |names| => "'" + names[i] + "'")
  }

  function UnexpectedKeyword(function_name: string, key: string): string {
    function_name + "() got an unexpected keyword argument '" + key + "'"
  }

  function MissingArguments(function_name: string, names: seq<string>): string
    requires |names| > 0
  {
    function_name + "() missing " + NatToString(|names|) + " required positional argument"
      + (if |names| == 1 then "" else "s") + ": " + QuotedNames(names)
  }

  /** The `TypeError` calling the tool `name` with keyword arguments `pairs` raises
      before its body runs, if any. */
  function BindError(t: Tool, pairs: seq<(string, Value)>): (r: Option<string>)
    ensures r.None? <==> FirstUnexpected(pairs, Params(t)).None? && Missing(Required(t), pairs) == []
    ensures r.None? ==> forall p :: p in Required(t) ==> Get(pairs, p).Some?
  {
    match FirstUnexpected(pairs, Params(t))
    case Some(key) => Some(UnexpectedKeyword(ToolName(t), key))
    case None =>
      var missing := Missing(Required(t), pairs);
      if |missing| > 0 then Some(MissingArguments(ToolName(t), missing)) else None
  }

  /** `dict(None)`. */
  const NoneNotIterable: string := "'NoneType' object is not iterable"

  /** `os.path.join` given a list. */
  const JoinListError: string := "join() argument must be str, bytes, or os.PathLike object, not 'list'"

  /** `[*args]`: a string spreads into its characters. */
  function ArgList(v: Option<Value>): (r: Option<seq<string>>)
    ensures v.None? <==> r.None?
    ensures v.Some? && v.value.StrList? ==> r == Some(v.value.items)
    ensures v.Some? && v.value.Str? ==>
              |r.value| == |v.value.text| && forall i :: 0 <= i < |r.value| ==> r.value[i] == [v.value.text[i]]
  {
    match v
    case None => None
    case Some(Str(s)) => Some(seq(|s|, i requires 0 <= i < |s| => [s[i]]))
    case Some(StrList(items)) => Some(items)
  }

  // ---------------------------------------------------------------------------
  // Running one tool

  /** The string the tool `t` returns for the bound arguments `pairs`, and the files
      afterwards; the two readers leave them alone. A list where a path is expected
      makes `os.path.join` raise inside the tool's `try`, before anything runs. */
  function ToolOutput(tools: Toolbox, e: Entries, t: Tool, pairs: seq<(string, Value)>): (r: (string, Entries))
    requires forall p :: p in Required(t) ==> Get(pairs, p).Some?
    ensures t.GetFileContent? || t.GetFilesInfo? ==> r.1 == e
    ensures Get(pairs, "file_path").Some? && Get(pairs, "file_path").value.StrList? ==> r.1 == e
  {
    match t
    case GetFileContent =>
      (match Get(pairs, "file_path").value
       case StrList(_) => ErrorText(JoinListError)
       case Str(p) => tools.getFileContent(e, p), e)
    case GetFilesInfo =>
      (match Get(pairs, "directory")
       case Some(StrList(_)) => ErrorText(JoinListError)
       case Some(Str(d)) => tools.getFilesInfo(e, d)
       case None => tools.getFilesInfo(e, "."), e)
    case RunPythonFile =>
      (match Get(pairs, "file_path").value
       case StrList(_) => (RunTool.ExecutionError(JoinListError), e)
       case Str(p) =>
         var run := tools.runPythonFile(e, p, ArgList(Get(pairs, "args")));
         (run.message, run.entries))
    case WriteFile =>
      match Get(pairs, "file_path").value
      case StrList(_) => (ErrorText(JoinListError), e)
      case Str(p) =>
        var w := tools.writeFile(e, p, Get(pairs, "content").value);
        (w.message, w.entries)
  }

  /** `args` after `args["working_directory"] = WORKING_DIR`. */
  function WithWorkingDir(pairs: seq<(string, Value)>): seq<(string, Value)> {
    pairs + [("working_directory", Str(WorkingDir))]
  }

  function ToolResponse(name: string, reply: Reply): Content {
    Content("tool", [FunctionResponsePart(name, reply)])
  }

  /** `c` is what `call_function` builds: role `tool`, one function response part
      under `name`. */
  predicate IsToolResponse(c: Content, name: string) {
    c.role == "tool" && |c.parts| == 1 && c.parts[0].FunctionResponsePart? && c.parts[0].name == name
  }

  /** `call_function(function_call_part)`. */
  function CallFunctionSpec(tools: Toolbox, e: Entries, call: FunctionCall): (r: CallResult)
    ensures r.outcome.Returned? ==> IsToolResponse(r.outcome.value, call.name)
    ensures Lookup(call.name).None? ==>
              r == CallResult(Returned(ToolResponse(call.name, ErrorReply("Unknown function: " + call.name))), e)
    ensures Lookup(call.name).Some? && r.outcome.Returned? ==> r.outcome.value.parts[0].response.ResultReply?
    ensures Lookup(call.name).Some? && call.args.None? ==> r == CallResult(Raised(NoneNotIterable), e)
    ensures Lookup(call.name).Some? && call.args.Some? ==>
              var t := Lookup(call.name).value;
              var pairs := WithWorkingDir(call.args.value);
              match BindError(t, pairs)
              case Some(error) => r == CallResult(Raised(error), e)
              case None =>
                r == CallResult(Returned(ToolResponse(call.name, ResultReply(ToolOutput(tools, e, t, pairs).0))),
                                ToolOutput(tools, e, t, pairs).1)
    ensures r.outcome.Raised? ==> r.entries == e
  {
    match Lookup(call.name)
    case None => CallResult(Returned(ToolResponse(call.name, ErrorReply("Unknown function: " + call.name))), e)
    case Some(t) =>
      if call.args.None? then CallResult(Raised(NoneNotIterable), e)
      else
        var pairs := WithWorkingDir(call.args.value);
        match BindError(t, pairs)
        case Some(error) => CallResult(Raised(error), e)
        case None =>
          var (result, e') := ToolOutput(tools, e, t, pairs);
          CallResult(Returned(ToolResponse(call.name, ResultReply(result))), e')
  }

  lemma MissingNoneBound(required: seq<string>, pairs: seq<(string, Value)>)
    requires Missing(required, pairs) == []
    ensures forall p :: p in required ==> Get(pairs, p).Some?
  {
  }

  /** `call_function(function_call_part)` performed on `fs`: only `write_file`
      changes it. */
  method CallFunction(tools: Toolbox, cwd: string, fs: FileSystem, call: FunctionCall) returns (outcome: Outcome<Content>)
    requires WritesIn(tools, cwd)
    modifies fs
    ensures CallResult(outcome, fs.entries) == CallFunctionSpec(tools, old(fs.entries), call)
  {
    var tool := Lookup(call.name);
    if tool.None? {
      return Returned(ToolResponse(call.name, ErrorReply("Unknown function: " + call.name)));
    }
    if call.args.None? {
      return Raised(NoneNotIterable);
    }
    var pairs := WithWorkingDir(call.args.value);
    var error := BindError(tool.value, pairs);
    if error.Some? {
      return Raised(error.value);
    }
    var result := Invoke(tools, cwd, fs, tool.value, pairs);
    outcome := Returned(ToolResponse(call.name, ResultReply(result)));
  }

  /** `function_map[function_name](**args)` performed on `fs`. */
  method Invoke(tools: Toolbox, cwd: string, fs: FileSystem, t: Tool, pairs: seq<(string, Value)>) returns (result: string)
    requires WritesIn(tools, cwd)
    requires forall p :: p in Required(t) ==> Get(pairs, p).Some?
    modifies fs
    ensures (result, fs.entries) == ToolOutput(tools, old(fs.entries), t, pairs)
  {
    if t.WriteFile? {
      var filePath := Get(pairs, "file_path").value;
      if filePath.StrList? {
        result := ErrorText(JoinListError);
      } else {
        result := WriteTool.WriteFile(fs, cwd, WorkingDir, filePath.text, Get(pairs, "content").value);
      }
    } else {
      var output := ToolOutput(tools, fs.entries, t, pairs);
      result := output.0;
      fs.entries := output.1;
    }
  }

  // ---------------------------------------------------------------------------
  // Properties

  lemma {:induction false} GetSkips(front: seq<(string, Value)>, back: seq<(string, Value)>, key: string, v: Value, k: string)
    requires k != key
    ensures Get(front + [(key, v)] + back, k) == Get(front + back, k)
    decreases |back|
  {
    if |back| == 0 {
      assert front + [(key, v)] + back == front + [(key, v)];
      assert (front + [(key, v)])[..|front|] == front;
      assert front + back == front;
    } else {
      var last := back[|back| - 1];
      var rest := back[..|back| - 1];
      assert (front + [(key, v)] + back)[..|front + [(key, v)] + back| - 1] == front + [(key, v)] + rest;
      assert (front + back)[..|front + back| - 1] == front + rest;
      GetSkips(front, rest, key, v, k);
    }
  }

  lemma {:induction false} FirstUnexpectedSkips(front: seq<(string, Value)>, back: seq<(string, Value)>, v: Value, params: seq<string>)
    requires "working_directory" in params
    ensures FirstUnexpected(front + [("working_directory", v)] + back, params) == FirstUnexpected(front + back, params)
    decreases |front|
  {
    if |front| == 0 {
      assert front + [("working_directory", v)] + back == [("working_directory", v)] + back;
      assert ([("working_directory", v)] + back)[1..] == back;
      assert front + back == back;
    } else {
      assert (front + [("working_directory", v)] + back)[1..] == front[1..] + [("working_directory", v)] + back;
      assert (front + back)[1..] == front[1..] + back;
      FirstUnexpectedSkips(front[1..], back, v, params);
    }
  }

  lemma {:induction false} MissingSame(required: seq<string>, a: seq<(string, Value)>, b: seq<(string, Value)>)
    requires forall p :: p in required ==> Get(a, p) == Get(b, p)
    ensures Missing(required, a) == Missing(required, b)
    decreases |required|
  {
    if |required| > 0 {
      MissingSame(required[1..], a, b);
    }
  }

  /** A tool sees its arguments only through `Get`. */
  lemma ToolOutputThroughGet(tools: Toolbox, e: Entries, t: Tool, a: seq<(string, Value)>, b: seq<(string, Value)>)
    requires forall p :: p in Required(t) ==> Get(a, p).Some?
    requires forall k :: Get(a, k) == Get(b, k)
    ensures forall p :: p in Required(t) ==> Get(b, p).Some?
    ensures ToolOutput(tools, e, t, a) == ToolOutput(tools, e, t, b)
  {
    assert Get(a, "file_path") == Get(b, "file_path");
    assert Get(a, "directory") == Get(b, "directory");
    assert Get(a, "args") == Get(b, "args");
    assert Get(a, "content") == Get(b, "content");
  }

  /** The call depends on its arguments only through `Get` and the first unexpected key. */
  lemma CallThroughGet(tools: Toolbox, e: Entries, name: string, a: seq<(string, Value)>, b: seq<(string, Value)>)
    requires forall k :: Get(WithWorkingDir(a), k) == Get(WithWorkingDir(b), k)
    requires forall params: seq<string> :: "working_directory" in params ==>
               FirstUnexpected(WithWorkingDir(a), params) == FirstUnexpected(WithWorkingDir(b), params)
    ensures CallFunctionSpec(tools, e, FunctionCall(name, Some(a))) == CallFunctionSpec(tools, e, FunctionCall(name, Some(b)))
  {
    if Lookup(name).Some? {
      var t := Lookup(name).value;
      var pa, pb := WithWorkingDir(a), WithWorkingDir(b);
      MissingSame(Required(t), pa, pb);
      assert "working_directory" in Params(t);
      assert BindError(t, pa) == BindError(t, pb);
      if BindError(t, pa).None? {
        MissingNoneBound(Required(t), pa);
        ToolOutputThroughGet(tools, e, t, pa, pb);
      }
    }
  }

  /** Whatever `working_directory` the model supplies, and wherever among its
      arguments, the call behaves as if it had supplied none. */
  lemma WorkingDirectoryForced(tools: Toolbox, e: Entries, name: string,
                               front: seq<(string, Value)>, back: seq<(string, Value)>, v: Value)
    ensures CallFunctionSpec(tools, e, FunctionCall(name, Some(front + [("working_directory", v)] + back)))
         == CallFunctionSpec(tools, e, FunctionCall(name, Some(front + back)))
  {
    var tail := back + [("working_directory", Str(WorkingDir))];
    var a := front + [("working_directory", v)] + back;
    var b := front + back;
    assert WithWorkingDir(a) == front + [("working_directory", v)] + tail;
    assert WithWorkingDir(b) == front + tail;
    forall k ensures Get(WithWorkingDir(a), k) == Get(WithWorkingDir(b), k) {
      if k != "working_directory" {
        GetSkips(front, tail, "working_directory", v, k);
      } else {
        assert WithWorkingDir(a)[|WithWorkingDir(a)| - 1] == ("working_directory", Str(WorkingDir));
        assert WithWorkingDir(b)[|WithWorkingDir(b)| - 1] == ("working_directory", Str(WorkingDir));
      }
    }
    forall params: seq<string> | "working_directory" in params
      ensures FirstUnexpected(WithWorkingDir(a), params) == FirstUnexpected(WithWorkingDir(b), params)
    {
      FirstUnexpectedSkips(front, tail, v, params);
    }
    CallThroughGet(tools, e, name, a, b);
  }

  /** `call_function`, as the function from the files and a call to what it returns
      or raises and the files afterwards. */
  type Dispatcher = (Entries, FunctionCall) -> CallResult

  /** `call` is `call_function` over the tool table `tools`. */
  ghost predicate Performs(call: Dispatcher, tools: Toolbox) {
    forall e, c {:trigger CallFunctionSpec(tools, e, c)} :: call(e, c) == CallFunctionSpec(tools, e, c)
  }

  /** What the loop relies on: a call that returns gives one function response named
      after the call, and a call that raises changes no file. */
  ghost predicate Responds(call: Dispatcher) {
    forall e, c :: (call(e, c).outcome.Returned? ==> IsToolResponse(call(e, c).outcome.value, c.name)) &&
                   (call(e, c).outcome.Raised? ==> call(e, c).entries == e)
  }

  lemma PerformsResponds(call: Dispatcher, tools: Toolbox)
    requires Performs(call, tools)
    ensures Responds(call)
  {
    forall e, c ensures (call(e, c).outcome.Returned? ==> IsToolResponse(call(e, c).outcome.value, c.name)) &&
                        (call(e, c).outcome.Raised? ==> call(e, c).entries == e)
    {
      var r := CallFunctionSpec(tools, e, c);
    }
  }

  /** The parts collected from the calls so far, or what was raised; and the files. */
  datatype Dispatched = Dispatched(outcome: Outcome<seq<Part>>, entries: Entries)

  /** The loop over `response.function_calls` in both entry scripts: each call in
      turn, on the files the earlier ones left, keeping the first part of each
      result; a result without a function response raises `malformed`. */
  function DispatchAll(call: Dispatcher, e: Entries, calls: seq<FunctionCall>, malformed: string): (r: Dispatched)
    ensures r.outcome.Returned? ==> |r.outcome.value| == |calls|
    decreases |calls|
  {
    if |calls| == 0 then Dispatched(Returned([]), e)
    else
      var before := DispatchAll(call, e, calls[..|calls| - 1], malformed);
      if before.outcome.Raised? then before
      else
        var c := call(before.entries, calls[|calls| - 1]);
        if c.outcome.Raised? then Dispatched(Raised(c.outcome.error), c.entries)
        else if |c.outcome.value.parts| == 0 || !c.outcome.value.parts[0].FunctionResponsePart? then
          Dispatched(Raised(malformed), c.entries)
        else Dispatched(Returned(before.outcome.value + [c.outcome.value.parts[0]]), c.entries)
  }

  /** The parts collected are the calls' responses, one per call, in order. */
  lemma {:induction false} DispatchNames(call: Dispatcher, e: Entries, calls: seq<FunctionCall>, malformed: string)
    requires Responds(call)
    requires DispatchAll(call, e, calls, malformed).outcome.Returned?
    ensures forall k :: 0 <= k < |calls| ==>
              DispatchAll(call, e, calls, malformed).outcome.value[k].FunctionResponsePart? &&
              DispatchAll(call, e, calls, malformed).outcome.value[k].name == calls[k].name
    decreases |calls|
  {
    if |calls| > 0 {
      var front := calls[..|calls| - 1];
      DispatchNames(call, e, front, malformed);
      var before := DispatchAll(call, e, front, malformed);
      var c := call(before.entries, calls[|calls| - 1]);
      assert IsToolResponse(c.outcome.value, calls[|calls| - 1].name);
    }
  }

  /** Part `k` of the collected parts is the response call `k` returned on the files
      the calls before it left. */
  lemma {:induction false} DispatchParts(call: Dispatcher, e: Entries, calls: seq<FunctionCall>, malformed: string)
    requires DispatchAll(call, e, calls, malformed).outcome.Returned?
    ensures forall k :: 0 <= k < |calls| ==>
              DispatchAll(call, e, calls[..k], malformed).outcome.Returned? &&
              call(DispatchAll(call, e, calls[..k], malformed).entries, calls[k]).outcome.Returned? &&
              |call(DispatchAll(call, e, calls[..k], malformed).entries, calls[k]).outcome.value.parts| > 0 &&
              DispatchAll(call, e, calls, malformed).outcome.value[k]
                == call(DispatchAll(call, e, calls[..k], malformed).entries, calls[k]).outcome.value.parts[0]
    decreases |calls|
  {
    if |calls| > 0 {
      var n := |calls| - 1;
      var front := calls[..n];
      DispatchParts(call, e, front, malformed);
      var before := DispatchAll(call, e, front, malformed);
      var all := DispatchAll(call, e, calls, malformed);
      var c := call(before.entries, calls[n]);
      assert before.outcome.Returned? && c.outcome.Returned?;
      assert all.outcome.value == before.outcome.value + [c.outcome.value.parts[0]];
      forall k | 0 <= k < |calls|
        ensures DispatchAll(call, e, calls[..k], malformed).outcome.Returned?
        ensures call(DispatchAll(call, e, calls[..k], malformed).entries, calls[k]).outcome.Returned?
        ensures |call(DispatchAll(call, e, calls[..k], malformed).entries, calls[k]).outcome.value.parts| > 0
        ensures all.outcome.value[k]
                  == call(DispatchAll(call, e, calls[..k], malformed).entries, calls[k]).outcome.value.parts[0]
      {
        if k < n {
          assert front[..k] == calls[..k];
          assert all.outcome.value[k] == before.outcome.value[k];
        } else {
          assert calls[..k] == front;
        }
      }
    }
  }

  /** Once a call has raised, the later calls are not made. */
  lemma {:induction false} DispatchStops(call: Dispatcher, e: Entries, calls: seq<FunctionCall>, malformed: string, k: nat)
    requires k <= |calls|
    requires DispatchAll(call, e, calls[..k], malformed).outcome.Raised?
    ensures DispatchAll(call, e, calls, malformed) == DispatchAll(call, e, calls[..k], malformed)
    decreases |calls|
  {
    if k < |calls| {
      var front := calls[..|calls| - 1];
      assert front[..k] == calls[..k];
      DispatchStops(call, e, front, malformed, k);
    } else {
      assert calls[..k] == calls;
    }
  }

  /** The loop raises only what one of the calls raised, the calls before it having
      returned: `malformed` cannot arise, since every result of `call_function` is a
      tool response. */
  lemma {:induction false} DispatchRaisesOnlyFromCall(call: Dispatcher, e: Entries, calls: seq<FunctionCall>, malformed: string)
    requires Responds(call)
    requires DispatchAll(call, e, calls, malformed).outcome.Raised?
    ensures exists k :: 0 <= k < |calls| &&
              DispatchAll(call, e, calls[..k], malformed).outcome.Returned? &&
              call(DispatchAll(call, e, calls[..k], malformed).entries, calls[k]).outcome
                == Raised(DispatchAll(call, e, calls, malformed).outcome.error) &&
              DispatchAll(call, e, calls, malformed).entries == DispatchAll(call, e, calls[..k], malformed).entries
    decreases |calls|
  {
    var n := |calls| - 1;
    var front := calls[..n];
    var before := DispatchAll(call, e, front, malformed);
    if before.outcome.Raised? {
      DispatchRaisesOnlyFromCall(call, e, front, malformed);
      var k :| 0 <= k < |front| && DispatchAll(call, e, front[..k], malformed).outcome.Returned? &&
               call(DispatchAll(call, e, front[..k], malformed).entries, front[k]).outcome
                 == Raised(before.outcome.error) &&
               before.entries == DispatchAll(call, e, front[..k], malformed).entries;
      assert front[..k] == calls[..k];
    } else {
      assert calls[..n] == front;
    }
  }
}
