/**
  `write_file` (python/ai-agent/functions/write_file.py, and its earlier copy
  functions/write_file.py): resolve, create the missing parent directories, open the
  target for writing (which empties it) and write the content. `WriteFileSpec` is
  the meaning of one call; the method `WriteFile` performs it on a `FileSystem`.
*/
module WriteTool {
  import opened Wrappers
  import opened Text
  import opened Paths
  import opened FileSystems
  import opened Values
  import opened Config
  import ReadTool

  /** The string `write_file` returns and the files afterwards. */
  datatype WriteResult = WriteResult(message: string, entries: Entries)

  function Success(filePath: string, written: nat): string {
    "Successfully wrote to \"" + filePath + "\" (" + NatToString(written) + " characters written)"
  }

  /** `f.write` given something other than a string. */
  function WriteTypeError(content: Value): string {
    "write() argument must be str, not " + TypeName(content)
  }

  /** `os.makedirs(parent, exist_ok=True)` when `parent` is not empty. */
  function ParentStep(e: Entries, parent: string): FsStep {
    if parent != "" then MakeDirsStep(e, parent) else FsStep(e, None)
  }

  /** One call `write_file(working_directory, file_path, content)`. */
  function WriteFileSpec(cwd: string, e: Entries, workingDirectory: string, filePath: string,
                         content: Value): (r: WriteResult)
    ensures Resolve(cwd, workingDirectory, filePath).error.Some? ==>
              r == WriteResult(OutsideError(filePath), e)
  {
    var resolution := Resolve(cwd, workingDirectory, filePath);
    if resolution.error.Some? then WriteResult(resolution.error.value, e)
    else WriteAt(e, resolution.path.value, filePath, content)
  }

  /** The part of `write_file` after the resolver accepted `file_path` as `path`. */
  function WriteAt(e: Entries, path: string, filePath: string, content: Value): WriteResult {
    var made := ParentStep(e, DirName(path));
    if made.error.Some? then WriteResult(ErrorText(Describe(made.error.value)), made.entries)
    else OpenAndWrite(made.entries, path, filePath, content)
  }

  /** `with open(path, "w") as f: f.write(content)` once the directory exists. */
  function OpenAndWrite(e: Entries, path: string, filePath: string, content: Value): WriteResult {
    var opening := OpenStep(e, path);
    if opening.error.Some? then WriteResult(ErrorText(Describe(opening.error.value)), opening.entries)
    else
      match content
      case Str(text) =>
        WriteResult(Success(filePath, |text|), opening.entries[path := File(opening.entries[path].content + text)])
      case StrList(_) => WriteResult(ErrorText(WriteTypeError(content)), opening.entries)
  }

  /** `write_file(working_directory, file_path, content)` performed on `fs`. */
  method WriteFile(fs: FileSystem, cwd: string, workingDirectory: string, filePath: string,
                   content: Value) returns (message: string)
    modifies fs
    ensures WriteResult(message, fs.entries) == WriteFileSpec(cwd, old(fs.entries), workingDirectory, filePath, content)
  {
    var resolution := Resolve(cwd, workingDirectory, filePath);
    if resolution.error.Some? {
      return resolution.error.value;
    }
    var path := resolution.path.value;
    var parentDirectory := DirName(path);
    if parentDirectory != "" {
      var error := fs.MakeDirs(parentDirectory);
      if error.Some? {
        return ErrorText(Describe(error.value));
      }
    }
    var before := fs.entries;
    var error := fs.Open(path);
    if error.Some? {
      return ErrorText(Describe(error.value));
    }
    OpenChanges(before, path);
    match content {
      case Str(text) =>
        fs.Write(path, text);
        message := Success(filePath, |text|);
      case StrList(_) =>
        message := ErrorText(WriteTypeError(content));
    }
  }

  // ---------------------------------------------------------------------------
  // Properties

  /** The path `write_file` writes to, when the resolver accepts `filePath`. */
  function Target(cwd: string, wd: string, filePath: string): string
    requires Resolve(cwd, wd, filePath).path.Some?
  {
    Resolve(cwd, wd, filePath).path.value
  }

  lemma SpecAt(cwd: string, e: Entries, wd: string, filePath: string, content: Value)
    requires Resolve(cwd, wd, filePath).path.Some?
    ensures WriteFileSpec(cwd, e, wd, filePath, content) == WriteAt(e, Target(cwd, wd, filePath), filePath, content)
  {
  }

  predicate Succeeded(cwd: string, e: Entries, wd: string, filePath: string, content: Value) {
    content.Str? && WriteFileSpec(cwd, e, wd, filePath, content).message == Success(filePath, |content.text|)
  }

  lemma SuccessIsNotError(filePath: string, n: nat, detail: string)
    ensures Success(filePath, n) != ErrorText(detail)
  {
    assert Success(filePath, n)[0] == 'S';
    assert ErrorText(detail)[0] == 'E';
  }

  lemma WriteAtReplaces(e: Entries, path: string, filePath: string, text: string)
    requires WriteAt(e, path, filePath, Str(text)).message == Success(filePath, |text|)
    ensures var e' := WriteAt(e, path, filePath, Str(text)).entries;
            path in e' && e'[path] == File(text)
  {
    var made := ParentStep(e, DirName(path));
    if made.error.Some? {
      SuccessIsNotError(filePath, |text|, Describe(made.error.value));
    } else {
      var opening := OpenStep(made.entries, path);
      OpenChanges(made.entries, path);
      if opening.error.Some? {
        SuccessIsNotError(filePath, |text|, Describe(opening.error.value));
      } else {
        assert opening.entries[path].content + text == "" + text == text;
      }
    }
  }

  /** After a successful write the target holds exactly `content`: what was there
      before is replaced, not appended to. */
  lemma WriteReplaces(cwd: string, e: Entries, wd: string, filePath: string, content: Value)
    requires Succeeded(cwd, e, wd, filePath, content)
    ensures Resolve(cwd, wd, filePath).path.Some?
    ensures var e' := WriteFileSpec(cwd, e, wd, filePath, content).entries;
            Target(cwd, wd, filePath) in e' && e'[Target(cwd, wd, filePath)] == File(content.text)
  {
    if Resolve(cwd, wd, filePath).error.Some? {
      SuccessIsNotError(filePath, |content.text|, "Cannot list \"" + filePath + "\" as it is outside the permitted working directory");
    } else {
      SpecAt(cwd, e, wd, filePath, content);
      WriteAtReplaces(e, Target(cwd, wd, filePath), filePath, content.text);
    }
  }

  lemma WriteAtIntoDirectory(e: Entries, path: string, filePath: string, content: Value)
    requires Rooted(e)
    requires IsDir(e, DirName(path)) && !IsDir(e, path)
    ensures content.Str? ==> WriteAt(e, path, filePath, content).message == Success(filePath, |content.text|)
    ensures content.StrList? ==> WriteAt(e, path, filePath, content).message == ErrorText(WriteTypeError(content))
    ensures content.StrList? ==> var e' := WriteAt(e, path, filePath, content).entries;
                                 path in e' && e'[path] == File("")
  {
    if DirName(path) != "" {
      MakeDirsOfDirectory(e, DirName(path));
    }
    OpenChanges(e, path);
  }

  /** When the target's directory exists and the target is not a directory, writing
      text succeeds. */
  lemma WriteIntoExistingDirectory(cwd: string, e: Entries, wd: string, filePath: string, text: string)
    requires Rooted(e)
    requires Resolve(cwd, wd, filePath).path.Some?
    requires IsDir(e, DirName(Target(cwd, wd, filePath)))
    requires !IsDir(e, Target(cwd, wd, filePath))
    ensures Succeeded(cwd, e, wd, filePath, Str(text))
  {
    SpecAt(cwd, e, wd, filePath, Str(text));
    WriteAtIntoDirectory(e, Target(cwd, wd, filePath), filePath, Str(text));
  }

  /** Below a directory of leading slashes, with no file at the target's directory or
      above it and no directory at the target, the `makedirs` step succeeds, leaves
      the target's directory in place and no directory at the target. */
  lemma ParentCreated(e: Entries, path: string)
    requires NormalAbsolute(path)
    requires IsDir(e, Slashes(LeadSlashes(path)))
    requires forall a :: AncestorOrSelf(a, DirName(path)) && a in e ==> e[a].Dir?
    requires !IsDir(e, path)
    ensures DirName(path) != path
    ensures ParentStep(e, DirName(path)).error.None?
    ensures IsDir(ParentStep(e, DirName(path)).entries, DirName(path))
    ensures !IsDir(ParentStep(e, DirName(path)).entries, path)
  {
    var dir := DirName(path);
    NormalSplit(path);
    MakeDirsCreates(e, dir);
    MakeDirsGrows(e, dir);
    assert ParentStep(e, dir) == MakeDirsStep(e, dir);
    assert !AncestorOrSelf(path, dir);
  }

  /** Opening and writing text in an existing directory succeeds and leaves the text
      in the target. */
  lemma OpenAndWriteIntoDirectory(e: Entries, path: string, filePath: string, text: string)
    requires IsDir(e, DirName(path)) && !IsDir(e, path) && DirName(path) != path
    ensures OpenAndWrite(e, path, filePath, Str(text)).message == Success(filePath, |text|)
    ensures var e' := OpenAndWrite(e, path, filePath, Str(text)).entries;
            IsDir(e', DirName(path)) && path in e' && e'[path] == File(text)
  {
    OpenChanges(e, path);
    var opening := OpenStep(e, path);
    assert opening.entries[path].content + text == text;
  }

  /** Below a directory of leading slashes, with no file at the target's directory or
      above it and no directory at the target, writing text succeeds: the missing
      directories are created and the target holds the text. */
  lemma WriteAtCreates(e: Entries, path: string, filePath: string, text: string)
    requires NormalAbsolute(path)
    requires IsDir(e, Slashes(LeadSlashes(path)))
    requires forall a :: AncestorOrSelf(a, DirName(path)) && a in e ==> e[a].Dir?
    requires !IsDir(e, path)
    ensures WriteAt(e, path, filePath, Str(text)).message == Success(filePath, |text|)
    ensures var e' := WriteAt(e, path, filePath, Str(text)).entries;
            IsDir(e', DirName(path)) && path in e' && e'[path] == File(text)
  {
    ParentCreated(e, path);
    var made := ParentStep(e, DirName(path));
    OpenAndWriteIntoDirectory(made.entries, path, filePath, text);
    assert WriteAt(e, path, filePath, Str(text)) == OpenAndWrite(made.entries, path, filePath, Str(text));
  }

  /** `write_file` creates the directories its target needs: when the target's
      leading slashes name a directory, no file lies at or above its directory and
      the target is not a directory, writing text succeeds, the target's directory
      exists afterwards and the target holds the text. */
  lemma WriteCreatesDirectories(cwd: string, e: Entries, wd: string, filePath: string, text: string)
    requires IsAbs(cwd)
    requires Resolve(cwd, wd, filePath).path.Some?
    requires IsDir(e, Slashes(LeadSlashes(Target(cwd, wd, filePath))))
    requires forall a :: AncestorOrSelf(a, DirName(Target(cwd, wd, filePath))) && a in e ==> e[a].Dir?
    requires !IsDir(e, Target(cwd, wd, filePath))
    ensures Succeeded(cwd, e, wd, filePath, Str(text))
    ensures var e' := WriteFileSpec(cwd, e, wd, filePath, Str(text)).entries;
            IsDir(e', DirName(Target(cwd, wd, filePath))) &&
            Target(cwd, wd, filePath) in e' && e'[Target(cwd, wd, filePath)] == File(text)
  {
    AcceptedIsNormal(cwd, wd, filePath);
    SpecAt(cwd, e, wd, filePath, Str(text));
    WriteAtCreates(e, Target(cwd, wd, filePath), filePath, text);
  }

  /** Writing a list empties the target (it was opened for writing) and reports the
      type error. */
  lemma ListContentTruncates(cwd: string, e: Entries, wd: string, filePath: string, items: seq<string>)
    requires Rooted(e)
    requires Resolve(cwd, wd, filePath).path.Some?
    requires IsDir(e, DirName(Target(cwd, wd, filePath)))
    requires !IsDir(e, Target(cwd, wd, filePath))
    ensures WriteFileSpec(cwd, e, wd, filePath, StrList(items)).message == ErrorText(WriteTypeError(StrList(items)))
    ensures var e' := WriteFileSpec(cwd, e, wd, filePath, StrList(items)).entries;
            Target(cwd, wd, filePath) in e' && e'[Target(cwd, wd, filePath)] == File("")
  {
    SpecAt(cwd, e, wd, filePath, StrList(items));
    WriteAtIntoDirectory(e, Target(cwd, wd, filePath), filePath, StrList(items));
  }

  /** What `write_file` adds: the target and directories above it. */
  lemma WriteAtAdds(e: Entries, path: string, filePath: string, content: Value)
    ensures var e' := WriteAt(e, path, filePath, content).entries;
            forall p :: p in e' && p !in e ==> p == path || (e'[p].Dir? && AncestorOrSelf(p, DirName(path)))
  {
    var made := ParentStep(e, DirName(path));
    if DirName(path) != "" {
      MakeDirsGrows(e, DirName(path));
    }
    OpenAndWriteKeeps(made.entries, path, filePath, content);
  }

  lemma OpenAndWriteKeeps(e: Entries, path: string, filePath: string, content: Value)
    ensures var e' := OpenAndWrite(e, path, filePath, content).entries;
            && (forall p :: p in e ==> p in e')
            && (forall p :: p in e && p != path && e[p].File? ==> e'[p] == e[p])
            && (forall p :: p in e && e[p].Dir? && p != path ==> e'[p].Dir?)
            && (forall p :: p in e' && p !in e ==> p == path)
  {
    var opening := OpenStep(e, path);
    var e' := OpenAndWrite(e, path, filePath, content).entries;
    OpenChanges(e, path);
    if opening.error.Some? {
      assert e' == e;
    } else if content.Str? {
      assert e' == opening.entries[path := File(opening.entries[path].content + content.text)];
    } else {
      assert e' == opening.entries;
    }
  }

  /** What `write_file` keeps: every entry, every other file, every other directory. */
  lemma WriteAtKeeps(e: Entries, path: string, filePath: string, content: Value)
    ensures var e' := WriteAt(e, path, filePath, content).entries;
            && (forall p :: p in e ==> p in e')
            && (forall p :: p in e && p != path && e[p].File? ==> e'[p] == e[p])
            && (forall p :: p in e && e[p].Dir? && p != path ==> e'[p].Dir?)
  {
    var made := ParentStep(e, DirName(path));
    if DirName(path) != "" {
      MakeDirsGrows(e, DirName(path));
    }
    OpenAndWriteKeeps(made.entries, path, filePath, content);
  }

  /** Only the target and the directories above it can appear; no file other than the
      target changes; no directory other than the target stops being one. This holds
      whether or not the call succeeds. */
  lemma WriteFrame(cwd: string, e: Entries, wd: string, filePath: string, content: Value)
    requires Resolve(cwd, wd, filePath).path.Some?
    ensures var e' := WriteFileSpec(cwd, e, wd, filePath, content).entries;
            var path := Target(cwd, wd, filePath);
            && (forall p :: p in e ==> p in e')
            && (forall p :: p in e && p != path && e[p].File? ==> e'[p] == e[p])
            && (forall p :: p in e && e[p].Dir? && p != path ==> e'[p].Dir?)
            && (forall p :: p in e' && p !in e ==> p == path || (e'[p].Dir? && AncestorOrSelf(p, DirName(path))))
  {
    SpecAt(cwd, e, wd, filePath, content);
    WriteAtAdds(e, Target(cwd, wd, filePath), filePath, content);
    WriteAtKeeps(e, Target(cwd, wd, filePath), filePath, content);
  }

  lemma OpenAndWriteKeepsRooted(e: Entries, path: string, filePath: string, content: Value)
    requires Rooted(e)
    ensures Rooted(OpenAndWrite(e, path, filePath, content).entries)
  {
    var opening := OpenStep(e, path);
    OpenKeepsRooted(e, path);
    if opening.error.None? && content.Str? {
      OpenChanges(e, path);
      var e' := OpenAndWrite(e, path, filePath, content).entries;
      forall p | p in e' ensures HasParent(e', p) {
        assert HasParent(opening.entries, p);
      }
    }
  }

  lemma WriteAtKeepsRooted(e: Entries, path: string, filePath: string, content: Value)
    requires Rooted(e)
    ensures Rooted(WriteAt(e, path, filePath, content).entries)
  {
    var made := ParentStep(e, DirName(path));
    if DirName(path) != "" {
      MakeDirsKeepsRooted(e, DirName(path));
    }
    if made.error.Some? {
      assert WriteAt(e, path, filePath, content).entries == made.entries;
    } else {
      OpenAndWriteKeepsRooted(made.entries, path, filePath, content);
      assert WriteAt(e, path, filePath, content) == OpenAndWrite(made.entries, path, filePath, content);
    }
  }

  /** Whatever happens, every entry's directory still exists afterwards. */
  lemma WriteKeepsRooted(cwd: string, e: Entries, wd: string, filePath: string, content: Value)
    requires Rooted(e)
    ensures Rooted(WriteFileSpec(cwd, e, wd, filePath, content).entries)
  {
    if Resolve(cwd, wd, filePath).path.Some? {
      SpecAt(cwd, e, wd, filePath, content);
      WriteAtKeepsRooted(e, Target(cwd, wd, filePath), filePath, content);
    }
  }

  /** Text written (without carriage returns, and within the read limit) is what
      `get_file_content` then returns for the same path. */
  lemma WriteThenRead(cwd: string, e: Entries, wd: string, filePath: string, text: string)
    requires Succeeded(cwd, e, wd, filePath, Str(text))
    requires |text| <= MsgLimit && '\r' !in text
    ensures ReadTool.GetFileContent(cwd, WriteFileSpec(cwd, e, wd, filePath, Str(text)).entries, wd, filePath) == text
  {
    WriteReplaces(cwd, e, wd, filePath, Str(text));
  }

  /** A carriage return written never comes back: text mode reads it as a newline. */
  lemma CarriageReturnNotReadBack(cwd: string, e: Entries, wd: string, filePath: string, text: string)
    requires Succeeded(cwd, e, wd, filePath, Str(text))
    requires |text| <= MsgLimit && '\r' in text
    ensures ReadTool.GetFileContent(cwd, WriteFileSpec(cwd, e, wd, filePath, Str(text)).entries, wd, filePath) != text
  {
    WriteReplaces(cwd, e, wd, filePath, Str(text));
  }
}
