/**
  The earlier `get_files_info` (functions/get_files_info.py), which does the
  containment test inline instead of calling the resolver, and asks whether the
  target is a directory before asking whether it is inside the working directory.
  Its listing helpers are the same text as the later copy's, so `ListTool`'s
  `PathContentsInfo` and `FormatContentsInfo` serve both.
*/
module LegacyListTool {
  import opened Wrappers
  import opened Text
  import opened Paths
  import opened FileSystems
  import ListTool

  /** `get_files_info(working_directory, directory)` of the earlier copy. */
  function GetFilesInfo(cwd: string, e: Entries, workingDirectory: string, directory: string := "."): (r: string)
    ensures !StartsWith(AbsPath(cwd, JoinPath(workingDirectory, directory)), AbsPath(cwd, workingDirectory)) ==>
              r == OutsideError(directory)
    ensures StartsWith(AbsPath(cwd, JoinPath(workingDirectory, directory)), AbsPath(cwd, workingDirectory)) &&
            !IsDir(e, AbsPath(cwd, JoinPath(workingDirectory, directory))) ==>
              r == ListTool.NotADirectoryError(directory)
  {
    var relativeTargetPath := JoinPath(workingDirectory, directory);
    var absoluteWorkingDirPath := AbsPath(cwd, workingDirectory);
    var absoluteTargetPath := AbsPath(cwd, relativeTargetPath);
    var isDirectory := IsDir(e, absoluteTargetPath);
    var isWithinWorkingDir := StartsWith(absoluteTargetPath, absoluteWorkingDirPath);
    if !isWithinWorkingDir then OutsideError(directory)
    else if !isDirectory then ListTool.NotADirectoryError(directory)
    else
      match ListTool.PathContentsInfo(e, absoluteTargetPath)
      case Raised(message) => ErrorText(message)
      case Returned(infos) => ListTool.FormatContentsInfo(infos)
  }

  /** The earlier copy answers exactly as the later one: asking `isdir` first changes
      nothing, and the inline test is the resolver's. */
  lemma SameAsResolverVersion(cwd: string, e: Entries, workingDirectory: string, directory: string)
    ensures GetFilesInfo(cwd, e, workingDirectory, directory) == ListTool.GetFilesInfo(cwd, e, workingDirectory, directory)
  {
    var resolution := Resolve(cwd, workingDirectory, directory);
    if resolution.path.Some? {
      var path := resolution.path.value;
      assert path == AbsPath(cwd, JoinPath(workingDirectory, directory));
      if IsDir(e, path) {
        assert ListTool.GetFilesInfo(cwd, e, workingDirectory, directory) ==
          match ListTool.PathContentsInfo(e, path)
          case Raised(message) => ErrorText(message)
          case Returned(infos) => ListTool.FormatContentsInfo(infos);
      }
    }
  }
}
