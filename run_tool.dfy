/**
  `run_python_file` (python/ai-agent/functions/run_python_file.py): three checks in a
  fixed order, then one run of the interpreter, whose outcome is formatted. The
  interpreter run is the parameter `run`: it maps the files as they are, the command
  line and the timeout to what `subprocess.run` produced or the exception it raised,
  and to the files as the script left them.
*/
module RunTool {
  import opened Wrappers
  import opened Text
  import opened Paths
  import opened FileSystems
  import opened Config

  /** What `subprocess.run(cmd, timeout=..., capture_output=True, text=True)` gives:
      the captured streams and exit code, or the text of the exception it raised (a
      timeout among them). */
  datatype ProcOutcome =
    | Completed(stdout: string, stderr: string, exitCode: int)
    | Failed(description: string)

  /** What the script did: its outcome and the files afterwards (a script may read,
      create or change any file, even one it was stopped in the middle of writing). */
  datatype Process = Process(outcome: ProcOutcome, entries: Entries)

  type Runner = (Entries, seq<string>, nat) -> Process

  /** The string `run_python_file` returns, and the files afterwards. */
  datatype RunReport = RunReport(message: string, entries: Entries)

  function CannotExecute(filePath: string): string {
    ErrorText("Cannot execute \"" + filePath + "\" as it is outside the permitted working directory")
  }

  function FileNotFound(filePath: string): string {
    ErrorText("File \"" + filePath + "\" not found.")
  }

  function NotPython(filePath: string): string {
    ErrorText("\"" + filePath + "\" is not a Python file.")
  }

  function ExecutionError(description: string): string {
    ErrorText("executing python file: " + description)
  }

  const NoOutput: string := "No output produced"

  /** The labelled sections: standard output, standard error and, for a non-zero exit
      code, the code. */
  function OutputParts(stdout: string, stderr: string, exitCode: int): (r: seq<string>)
    ensures |r| == if exitCode != 0 then 3 else 2
    ensures r[0] == "STDOUT:\n" + RStrip(stdout, '\n')
    ensures r[1] == "STDERR:\n" + RStrip(stderr, '\n')
    ensures exitCode != 0 ==> r[2] == "Process exited with code " + IntToString(exitCode)
  {
    var outClean := RStrip(stdout, '\n');
    var errClean := RStrip(stderr, '\n');
    var parts := [if outClean != "" then "STDOUT:\n" + outClean else "STDOUT:\n"];
    var parts := parts + [if errClean != "" then "STDERR:\n" + errClean else "STDERR:\n"];
    if exitCode != 0 then parts + ["Process exited with code " + IntToString(exitCode)] else parts
  }

  /** The result for a completed run. */
  function FormatOutput(stdout: string, stderr: string, exitCode: int): (r: string)
    ensures r == NoOutput <==> stdout == "" && stderr == ""
  {
    if stdout == "" && stderr == "" then NoOutput
    else
      var parts := OutputParts(stdout, stderr, exitCode);
      JoinStartsWith("\n", parts);
      assert parts[0][0] == 'S' != NoOutput[0];
      Join("\n", parts)
  }

  /** `run_python_file(working_directory, file_path, args)`, where `args` is `None`
      when the argument is not given. */
  function RunPythonFile(cwd: string, e: Entries, run: Runner, workingDirectory: string,
                         filePath: string, args: Option<seq<string>> := None): (r: RunReport)
    ensures Resolve(cwd, workingDirectory, filePath).error.Some? ==> r == RunReport(CannotExecute(filePath), e)
    ensures Resolve(cwd, workingDirectory, filePath).path.Some? ==>
              var path := Resolve(cwd, workingDirectory, filePath).path.value;
              && (!IsFile(e, path) ==> r == RunReport(FileNotFound(filePath), e))
              && (IsFile(e, path) && !EndsWith(path, ".py") ==> r == RunReport(NotPython(filePath), e))
              && (IsFile(e, path) && EndsWith(path, ".py") ==>
                    var argv := if args.Some? then args.value else [];
                    var p := run(e, ["python", path] + argv, PythonRunTimeout);
                    && r.entries == p.entries
                    && match p.outcome
                       case Failed(d) => r.message == ExecutionError(d)
                       case Completed(out, err, code) => r.message == FormatOutput(out, err, code))
  {
    var argv := if args.None? then [] else args.value;
    var resolution := Resolve(cwd, workingDirectory, filePath);
    if resolution.error.Some? then RunReport(CannotExecute(filePath), e)
    else
      var path := resolution.path.value;
      if !IsFile(e, path) then RunReport(FileNotFound(filePath), e)
      else if !EndsWith(path, ".py") then RunReport(NotPython(filePath), e)
      else
        var process := run(e, ["python", path] + argv, PythonRunTimeout);
        match process.outcome
        case Failed(description) => RunReport(ExecutionError(description), process.entries)
        case Completed(stdout, stderr, exitCode) => RunReport(FormatOutput(stdout, stderr, exitCode), process.entries)
  }

  // ---------------------------------------------------------------------------
  // Properties

  /** A rejected file runs nothing: the answer does not depend on the interpreter, and
      the files stay as they were. */
  lemma RejectionRunsNothing(cwd: string, e: Entries, run1: Runner, run2: Runner, wd: string,
                             filePath: string, args: Option<seq<string>>)
    requires var res := Resolve(cwd, wd, filePath);
             res.error.Some? || !IsFile(e, res.path.value) || !EndsWith(res.path.value, ".py")
    ensures RunPythonFile(cwd, e, run1, wd, filePath, args) == RunPythonFile(cwd, e, run2, wd, filePath, args)
    ensures RunPythonFile(cwd, e, run1, wd, filePath, args).entries == e
  {
  }

  /** Leaving out `args` is passing the empty list. */
  lemma ArgsDefaultEmpty(cwd: string, e: Entries, run: Runner, wd: string, filePath: string)
    ensures RunPythonFile(cwd, e, run, wd, filePath) == RunPythonFile(cwd, e, run, wd, filePath, Some([]))
  {
  }

  /** With some output, the result is the two labelled sections, plus the exit-code
      line exactly when the code is not zero, joined by newlines. */
  lemma OutputShape(stdout: string, stderr: string, exitCode: int)
    requires stdout != "" || stderr != ""
    ensures var sections := ("STDOUT:\n" + RStrip(stdout, '\n')) + "\n" + ("STDERR:\n" + RStrip(stderr, '\n'));
            && (exitCode == 0 ==> FormatOutput(stdout, stderr, exitCode) == sections)
            && (exitCode != 0 ==> FormatOutput(stdout, stderr, exitCode)
                                  == sections + "\n" + ("Process exited with code " + IntToString(exitCode)))
  {
    var parts := OutputParts(stdout, stderr, exitCode);
    assert Join("\n", parts[..1]) == parts[0];
    assert Join("\n", parts[..2]) == parts[0] + "\n" + parts[1] by {
      assert parts[..2][..1] == parts[..1];
    }
    if exitCode == 0 {
      assert parts == parts[..2];
    }
  }

  /** Output made of newlines only leaves an empty section rather than counting as no
      output. */
  lemma NewlinesOnlyOutput(n: nat)
    requires n > 0
    ensures FormatOutput(seq(n, _ => '\n'), "", 0) == "STDOUT:\n\nSTDERR:\n"
  {
    var out := seq(n, _ => '\n');
    assert out[0] == '\n';
    OutputShape(out, "", 0);
    assert RStrip(out, '\n') == "";
  }

  /** A run that completes with no output at all is reported as such, whatever the
      exit code. */
  lemma SilentRun(exitCode: int)
    ensures FormatOutput("", "", exitCode) == NoOutput
  {
  }
}
