/**
  `get_file_content` (python/ai-agent/functions/get_file_content.py): the resolver's
  verdict, a regular-file test, and a read of at most `MsgLimit + 1` characters in
  text mode, truncated to `MsgLimit` characters with a marker.
*/
module ReadTool {
  import opened Text
  import opened Paths
  import opened FileSystems
  import opened Config

  /** What text mode hands back for stored text: universal newlines turn `"\r\n"`
      and a lone `"\r"` into `"\n"`. */
  function TranslateNewlines(s: string): (r: string)
    ensures |r| <= |s|
    ensures '\r' !in r
    ensures '\r' !in s ==> r == s
    decreases |s|
  {
    if s == [] then []
    else if s[0] == '\r' then
      "\n" + TranslateNewlines(if |s| > 1 && s[1] == '\n' then s[2..] else s[1..])
    else
      assert '\r' !in s ==> '\r' !in s[1..] by {
        if '\r' in s[1..] {
          var i :| 0 <= i < |s[1..]| && s[1..][i] == '\r';
          assert s[i + 1] == '\r';
        }
      }
      [s[0]] + TranslateNewlines(s[1..])
  }

  function NotRegularFile(filePath: string): string {
    ErrorText("File not found or is not a regular file: \"" + filePath + "\"")
  }

  /** The text put after the first `MsgLimit` characters of a longer file. */
  function TruncationMarker(filePath: string): string {
    "[...File \"" + filePath + "\" truncated at " + NatToString(MsgLimit) + " characters]"
  }

  /** `get_file_content(working_directory, file_path)`, run in a process whose current
      directory is `cwd`, over the files `e`. */
  function GetFileContent(cwd: string, e: Entries, workingDirectory: string, filePath: string): (r: string)
    ensures Resolve(cwd, workingDirectory, filePath).error.Some? ==> r == OutsideError(filePath)
    ensures Resolve(cwd, workingDirectory, filePath).path.Some? ==>
              var path := Resolve(cwd, workingDirectory, filePath).path.value;
              && (!IsFile(e, path) ==> r == NotRegularFile(filePath))
              && (IsFile(e, path) ==>
                    var text := TranslateNewlines(e[path].content);
                    && (|text| <= MsgLimit ==> r == text)
                    && (|text| > MsgLimit ==> r == text[..MsgLimit] + TruncationMarker(filePath)))
  {
    var resolution := Resolve(cwd, workingDirectory, filePath);
    if resolution.error.Some? then resolution.error.value
    else
      var path := resolution.path.value;
      if !IsFile(e, path) then NotRegularFile(filePath)
      else
        var text := TranslateNewlines(e[path].content);
        var raw := text[..if |text| < MsgLimit + 1 then |text| else MsgLimit + 1];
        if |raw| == MsgLimit + 1 then raw[..MsgLimit] + TruncationMarker(filePath)
        else raw
  }

  // ---------------------------------------------------------------------------
  // Properties

  /** A rejected path is answered without looking at any file: the result is the
      resolver's error whatever the files are. */
  lemma RejectionReadsNothing(cwd: string, e1: Entries, e2: Entries, wd: string, filePath: string)
    requires Resolve(cwd, wd, filePath).error.Some?
    ensures GetFileContent(cwd, e1, wd, filePath) == GetFileContent(cwd, e2, wd, filePath)
                                                 == Resolve(cwd, wd, filePath).error.value
  {
  }

  /** The answer for an accepted path depends only on the entry at that path. */
  lemma ReadsOnlyTarget(cwd: string, e1: Entries, e2: Entries, wd: string, filePath: string)
    requires Resolve(cwd, wd, filePath).path.Some?
    requires var p := Resolve(cwd, wd, filePath).path.value;
             (p in e1 <==> p in e2) && (p in e1 ==> e1[p] == e2[p])
    ensures GetFileContent(cwd, e1, wd, filePath) == GetFileContent(cwd, e2, wd, filePath)
  {
  }

  /** The marker is `[...File "<file_path>" truncated at 10000 characters]`. */
  lemma MarkerText(filePath: string)
    ensures TruncationMarker(filePath) == "[...File \"" + filePath + "\" truncated at 10000 characters]"
  {
    assert NatToString(MsgLimit) == "10000" by {
      assert NatToString(1) == "1";
      assert NatToString(10) == "10";
      assert NatToString(100) == "100";
      assert NatToString(1000) == "1000";
    }
  }

  /** However long the file, the answer for a regular file is at most `MsgLimit`
      characters plus the marker. */
  lemma ReadBounded(cwd: string, e: Entries, wd: string, filePath: string)
    requires Resolve(cwd, wd, filePath).path.Some?
    requires IsFile(e, Resolve(cwd, wd, filePath).path.value)
    ensures |GetFileContent(cwd, e, wd, filePath)| <= MsgLimit + |TruncationMarker(filePath)|
  {
  }

  /** A file of exactly `MsgLimit` characters (with no carriage return) comes back
      whole, without the marker. */
  lemma ExactLimitNotTruncated(cwd: string, e: Entries, wd: string, filePath: string)
    requires Resolve(cwd, wd, filePath).path.Some?
    requires var p := Resolve(cwd, wd, filePath).path.value;
             IsFile(e, p) && |e[p].content| == MsgLimit && '\r' !in e[p].content
    ensures GetFileContent(cwd, e, wd, filePath) == e[Resolve(cwd, wd, filePath).path.value].content
  {
  }

  /** Every error this tool reports starts with `Error: `. */
  lemma ErrorsArePrefixed(cwd: string, e: Entries, wd: string, filePath: string)
    requires Resolve(cwd, wd, filePath).error.Some? || !IsFile(e, Resolve(cwd, wd, filePath).path.value)
    ensures StartsWith(GetFileContent(cwd, e, wd, filePath), "Error: ")
  {
  }
}
