# A verified model of the coding agent's tools, dispatcher and loop

This project models, in Dafny, the core of a small command-line coding agent:

- the path sandbox that confines every tool to the working directory `./calculator`;
- its four tools: read a file, list a directory, run a Python script, write a file;
- the dispatcher that turns a model's function call into a tool call;
- the conversation loop that alternates between the language model and the tools for at most 20 turns;
- the earlier single-shot version of the entry script at the repository root, with its own copies of the listing and writing tools. Its `write_file` (functions/write_file.py:6-26) is line for line the agent's and is modelled by the same `WriteTool` members, taking its `utils` import to be the agent's path resolver. Its `call_function` (main.py:30-63) is `Dispatch.CallFunctionSpec` over the earlier tool table;
- the book statistics helpers: word count, case-folded character histogram, and a stable sort of that histogram by count.

Python's library calls are modelled by what they compute:

- `os.path.join`, `normpath` and `abspath` are string functions. The process's current directory is a parameter `cwd`.
- The filesystem is a map from path to `File(content)` or `Dir(children)`. A directory's children are listed in the order `os.listdir` gives them.
- The script interpreter is a parameter `run`. It maps the files as they are, the command line and the timeout to the captured output and exit code, or to the text of the exception, and to the files as the script left them. So a script's output depends on what is on disk when it runs, and a script may create or change files.
- The language model is a parameter `model`. It gives the reply to the `i`-th request with a given history. A scripted sequence of replies is the model `(i, _) => script[i]`.

Where the code mutates state, the model does too:

- `FileSystems.FileSystem` is a class whose `entries` map is updated by `Mkdir`, `MakeDirs`, `Open` and `Write`.
- `WriteTool.WriteFile` and `Dispatch.CallFunction` act on it.
- `Agent.Conversation` holds the message history that `generate_content` appends to.
- `Stats.CharacterCount` fills its dictionary in a loop.
- `Stats.SortInPlace` is an insertion sort on an array.

Each of these methods is proved equal to a function that states the meaning of the operation, and the properties are proved about those functions.

The containment test of the resolver is modelled as written: a bare `startswith`, with no separator boundary. `Paths.SiblingAccepted` proves the consequence. Any sibling whose name extends the root's last component is accepted, although it is not inside the root; for example, `/w/calculator2` is accepted for the root `/w/calculator`.

## Model

| member | source | states |
|---|---|---|
| Paths.Resolve | python/ai-agent/utils.py:4-18 | exactly one of path and error is present; the error is `Error: Cannot list "<directory>" as it is outside the permitted working directory` with the caller's string; a path is accepted exactly when `abspath(join(wd, directory))` has `abspath(wd)` as a string prefix, and it is then that absolute path |
| Paths.ProperRelativeAccepted | python/ai-agent/utils.py:4-18 | a relative path made of proper names (no `.`, `..` or empty component) is accepted and resolves to the absolute working directory joined with it, which lies inside the working directory |
| Paths.AcceptedIsNormal | python/ai-agent/utils.py:8-10 | an accepted path is absolute and normal (one or two leading slashes, then no empty, `.` or `..` component) and starts with the absolute working directory |
| Paths.DotResolvesToRoot | python/ai-agent/utils.py:5-10 | the default `"."` resolves to the absolute working directory itself, and is accepted |
| Paths.ParentRejected | python/ai-agent/utils.py:12-16 | `".."` climbs out of any root below `/` and is rejected with the message quoting `..` |
| Paths.AbsoluteArgument | python/ai-agent/utils.py:7-10 | an absolute argument replaces the working directory in the join: it is accepted exactly when its normal form starts with the root, and then that normal form is the path |
| Paths.SiblingAccepted | python/ai-agent/utils.py:10 | a sibling that extends the root's last component is accepted unchanged, although it is not within the root |
| Paths.SiblingExample | python/ai-agent/utils.py:10 | `/w/calculator2` is accepted for root `/w/calculator` and is not within it |
| Paths.NormPathNormal | python/ai-agent/utils.py:8-9 | `normpath` of an absolute path is normal |
| Paths.NormPathIdempotent | python/ai-agent/utils.py:8-9 | `normpath` leaves a normal absolute path unchanged |
| Paths.AbsPathJoinRelative | python/ai-agent/utils.py:7-9 | `abspath(join(wd, t))` for a relative `t` is `t` joined onto the absolute base of `wd`, normalised |
| Paths.NormPathJoinRelative | python/ai-agent/utils.py:7-9 | normalising an absolute path joined with a relative one folds the second's components onto the first's normal components |
| FileSystems.SplitPath | python/ai-agent/functions/write_file.py:16 | `os.path.split`: the tail is the text after the last slash; the head, when not empty, is an ancestor of the path |
| FileSystems.MakeDirsGrows | python/ai-agent/functions/write_file.py:17-18 | `makedirs(name, exist_ok=True)` only adds directories at or above `name`, keeps files and directories, only appends to listings, and on success leaves `name` a directory |
| FileSystems.MakeDirsCreates | python/ai-agent/functions/write_file.py:17-18 | `makedirs` of a normal absolute path whose root is a directory and with no file at or above it succeeds and leaves the path a directory: every missing parent is created |
| FileSystems.MakeDirsOfDirectory | python/ai-agent/functions/write_file.py:17-18 | `makedirs` of an existing directory changes nothing and succeeds |
| FileSystems.MakeDirsKeepsRooted | python/ai-agent/functions/write_file.py:17-18 | `makedirs` keeps every entry's parent directory present |
| FileSystems.OpenChanges | python/ai-agent/functions/write_file.py:20 | `open(path, "w")` succeeds exactly when the path is not a directory and exists or has a parent directory; it leaves an empty file at the path and changes nothing else but the parent's listing |
| FileSystems.OpenKeepsRooted | python/ai-agent/functions/write_file.py:20 | opening for writing keeps every entry's parent directory present |
| FileSystems.FileSystem.Mkdir | python/ai-agent/functions/write_file.py:17-18 | the in-place `os.mkdir` leaves the map and error its meaning gives |
| FileSystems.FileSystem.MakeDirs | python/ai-agent/functions/write_file.py:17-18 | the in-place `makedirs` leaves the map and error its meaning gives |
| FileSystems.FileSystem.Open | python/ai-agent/functions/write_file.py:20 | the in-place `open(path, "w")` leaves the map and error its meaning gives |
| FileSystems.FileSystem.Write | python/ai-agent/functions/write_file.py:21 | `f.write(text)` appends the text to the open file and changes nothing else |
| ReadTool.TranslateNewlines | python/ai-agent/functions/get_file_content.py:20-21 | text mode never returns a carriage return, never lengthens the text, and leaves text without carriage returns unchanged |
| ReadTool.GetFileContent | python/ai-agent/functions/get_file_content.py:9-31 | the resolver's error verbatim; else the not-a-regular-file error; else the text when at most 10000 characters, and otherwise its first 10000 characters followed by the truncation marker |
| ReadTool.RejectionReadsNothing | python/ai-agent/functions/get_file_content.py:11-13 | a rejected path gives the resolver's error whatever the files are |
| ReadTool.ReadsOnlyTarget | python/ai-agent/functions/get_file_content.py:17-28 | the answer depends only on the entry at the resolved path |
| ReadTool.MarkerText | python/ai-agent/functions/get_file_content.py:24-27 | the marker is `[...File "<file_path>" truncated at 10000 characters]` |
| ReadTool.ReadBounded | python/ai-agent/functions/get_file_content.py:21-28 | the answer for a regular file is at most 10000 characters plus the marker |
| ReadTool.ExactLimitNotTruncated | python/ai-agent/functions/get_file_content.py:21-28 | a file of exactly 10000 characters comes back whole |
| ReadTool.ErrorsArePrefixed | python/ai-agent/functions/get_file_content.py:12-18 | every rejection starts with `Error: ` |
| ListTool.Infos | python/ai-agent/functions/get_files_info.py:15-24 | when it returns, one record per name |
| ListTool.InfosReturned | python/ai-agent/functions/get_files_info.py:15-24 | with every entry present, record `i` is the name, size and kind of the `i`-th name |
| ListTool.InfosRaised | python/ai-agent/functions/get_files_info.py:20 | the first missing entry makes `getsize` raise `No such file or directory` for that path |
| ListTool.PathContentsInfo | python/ai-agent/functions/get_files_info.py:15-24 | `listdir` raises for a missing path or a file; for a directory, the records of its children in listing order |
| ListTool.Lines | python/ai-agent/functions/get_files_info.py:29-32 | one line per record, in order, each `- <name>: file_size=<size> bytes, is_dir=<True/False>` |
| ListTool.FormatContentsInfo | python/ai-agent/functions/get_files_info.py:27-33 | an empty listing is `""` |
| ListTool.ListingLines | python/ai-agent/functions/get_files_info.py:27-33 | splitting the listing at newlines gives back exactly the records' lines, in order |
| ListTool.LineHasNoNewline | python/ai-agent/functions/get_files_info.py:30 | a line has no newline when the name has none |
| ListTool.SizeReadBack | python/ai-agent/functions/get_files_info.py:30 | the digits after `file_size=` read back as the record's size |
| ListTool.ListingOfWellFormed | python/ai-agent/functions/get_files_info.py:15-24 | a directory whose children are all present lists one record per child, in order, with that child's size and kind |
| ListTool.GetFilesInfo | python/ai-agent/functions/get_files_info.py:36-50 | the resolver's error; else `Error: "<directory>" is not a directory`; else the formatted listing, or `Error: <ex>` when the listing raised |
| ListTool.RejectionListsNothing | python/ai-agent/functions/get_files_info.py:38-40 | the outside-root error is given whatever the files are |
| ListTool.DefaultListsRoot | python/ai-agent/functions/get_files_info.py:36-47 | leaving out the directory lists the working directory itself |
| LegacyListTool.GetFilesInfo | functions/get_files_info.py:32-52 | outside the root (bare prefix test) gives the outside-root error first; then a non-directory gives the not-a-directory error |
| LegacyListTool.SameAsResolverVersion | functions/get_files_info.py:34-49 | the earlier listing answers exactly as the later one for every input and every filesystem |
| RunTool.OutputParts | python/ai-agent/functions/run_python_file.py:41-50 | two sections, plus a third exactly when the exit code is not zero: `STDOUT:\n` and `STDERR:\n` with trailing newlines stripped, and `Process exited with code N` |
| RunTool.FormatOutput | python/ai-agent/functions/run_python_file.py:38-52 | `No output produced` exactly when both streams are empty |
| RunTool.RunPythonFile | python/ai-agent/functions/run_python_file.py:10-55 | checks in order: outside the root, not a file, no `.py` suffix, each with its message and no file changed; else runs `python <path> <args>` with timeout 30 on the current files and formats its outcome, or gives `Error: executing python file: <ex>`; the files afterwards are those the script left |
| RunTool.RejectionRunsNothing | python/ai-agent/functions/run_python_file.py:16-26 | on any rejection the answer does not depend on the interpreter, and the files stay as they were |
| RunTool.ArgsDefaultEmpty | python/ai-agent/functions/run_python_file.py:13-14 | leaving out `args` is passing the empty list |
| RunTool.OutputShape | python/ai-agent/functions/run_python_file.py:41-52 | the exact result string for non-empty output, with and without the exit-code line |
| RunTool.NewlinesOnlyOutput | python/ai-agent/functions/run_python_file.py:38-47 | output made only of newlines gives an empty STDOUT section, not `No output produced` |
| RunTool.SilentRun | python/ai-agent/functions/run_python_file.py:38-39 | no output at all gives `No output produced` whatever the exit code |
| WriteTool.WriteFileSpec | python/ai-agent/functions/write_file.py:8-28 | a rejection is returned unchanged and the files are untouched |
| WriteTool.WriteFile | python/ai-agent/functions/write_file.py:8-28 | the in-place write returns the message and leaves the files its meaning gives |
| WriteTool.WriteReplaces | python/ai-agent/functions/write_file.py:20-25 | after success the target holds exactly the content; what was there before is replaced |
| WriteTool.WriteIntoExistingDirectory | python/ai-agent/functions/write_file.py:16-25 | with the target's directory present and the target not a directory, writing text succeeds with `Successfully wrote to "<file_path>" (<n> characters written)` |
| WriteTool.WriteAtCreates | python/ai-agent/functions/write_file.py:16-25 | writing text to a normal absolute path with no file at or above its directory reports success, creates the directory and stores the text |
| WriteTool.WriteCreatesDirectories | python/ai-agent/functions/write_file.py:8-25 | an accepted `file_path` whose missing directories can be created (no file at or above the target's directory, the target not a directory) is written successfully: the target's directory exists afterwards and the target holds the text |
| WriteTool.ListContentTruncates | python/ai-agent/functions/write_file.py:20-21 | a list as content empties the target and reports the `write()` type error |
| WriteTool.WriteFrame | python/ai-agent/functions/write_file.py:16-21 | no file other than the target changes, no directory other than the target stops being one, and only the target and directories above it can appear |
| WriteTool.WriteKeepsRooted | python/ai-agent/functions/write_file.py:16-21 | every entry's parent directory still exists afterwards |
| WriteTool.WriteThenRead | python/ai-agent/functions/write_file.py:20-21 | text of at most 10000 characters without carriage returns, once written, is what `get_file_content` returns for the same path |
| WriteTool.CarriageReturnNotReadBack | python/ai-agent/functions/write_file.py:20-21 | text with a carriage return does not come back as written |
| Text.JoinSplit | python/ai-agent/functions/get_files_info.py:33 | splitting a `"\n".join` of newline-free lines gives back the lines |
| Text.SplitJoin | python/ai-agent/functions/get_files_info.py:33 | joining the pieces of a split gives back the string |
| Text.NatToStringRoundTrip | python/ai-agent/functions/get_files_info.py:30 | the decimal rendering of a size reads back as that size |
| Text.RStrip | python/ai-agent/functions/run_python_file.py:41-42 | `rstrip("\n")` is the longest prefix not ending in a newline, after which only newlines follow |
| Text.IntToString | python/ai-agent/functions/run_python_file.py:50 | an exit code renders with a leading `-` exactly when negative |
| Text.ReprQuoteChoice | python/ai-agent/functions/write_file.py:27-28 | `repr` of a path in an `OSError` message starts and ends with the same quote: a double quote exactly when the path has an apostrophe and no double quote, a single quote otherwise |
| Text.PyReprRoundTrip | python/ai-agent/functions/write_file.py:27-28 | the text between the quotes reads back as the path: backslashes, the quote, tabs, newlines, carriage returns and other control characters are escaped, nothing is lost |
| Text.PlainRepr | python/ai-agent/functions/write_file.py:27-28 | a printable path without backslash or double quote is shown whole: `"it's"` in double quotes, any other such path in single quotes |
| Dispatch.Lookup | python/ai-agent/main.py:26-33 | exactly the four names of the table are found, each as the tool of that name; every other name gives none |
| Dispatch.Get | python/ai-agent/main.py:44 | a key is absent exactly when no argument has it; a value found is one the arguments give for that key |
| Dispatch.GetLastPair | python/ai-agent/main.py:44 | the value found is that of the last pair with the key: a later pair replaces an earlier one |
| Dispatch.FirstUnexpected | python/ai-agent/main.py:46 | none exactly when every key is a parameter; otherwise the first key, in the arguments' order, that is not a parameter |
| Dispatch.Missing | python/ai-agent/main.py:46 | exactly the required parameters no argument supplies, kept in declaration order |
| Dispatch.MissingInOrder | python/ai-agent/main.py:46 | the missing names are the only subsequence of the declared parameters with those members, so the `TypeError` lists them in declaration order and without repeats, whatever order the arguments come in |
| Dispatch.WriteFileMissingBoth | python/ai-agent/main.py:46 | `write_file` given only the working directory raises the missing-arguments error naming `'file_path'` and then `'content'` |
| Dispatch.ArgList | python/ai-agent/functions/run_python_file.py:29 | `[*args]`: a list is kept, a string spreads into its characters |
| Dispatch.ToolOutput | python/ai-agent/main.py:46 | `get_file_content` and `get_files_info` never change the files, and no tool does when its path argument is a list |
| Dispatch.CallFunctionSpec | python/ai-agent/main.py:21-54 | an unknown name gives one `tool` part `{"error": "Unknown function: <name>"}` and runs nothing; a known name with no `args` raises the `NoneType` iteration error; a known name whose arguments do not bind raises the binding error; otherwise the reply is one `tool` part `{"result": <the tool's output>}` under the same name and the files are those the tool left; a raise changes no file |
| Dispatch.CallFunction | python/ai-agent/main.py:21-54 | the in-place call returns or raises what its meaning gives and leaves those files |
| Dispatch.Invoke | python/ai-agent/main.py:46 | the in-place tool call returns the tool's string and leaves the files it gives |
| Dispatch.WorkingDirectoryForced | python/ai-agent/main.py:44-46 | whatever `working_directory` the model supplies, and wherever, the call behaves as if it supplied none |
| Dispatch.CallThroughGet | python/ai-agent/main.py:44-46 | a call depends on its arguments only through the merged dictionary and its first unexpected key |
| Dispatch.ToolOutputThroughGet | python/ai-agent/main.py:46 | a tool depends on its arguments only through the merged dictionary |
| Dispatch.ToolboxesWrite | python/ai-agent/main.py:26-31 | both tool tables write through `write_file` from the same directory |
| Dispatch.PerformsResponds | python/ai-agent/main.py:34-54 | every result of `call_function` is one response named after the call, and a raise changes no file |
| Dispatch.DispatchAll | python/ai-agent/main.py:85-99 | when the loop over the calls returns, one part per call |
| Dispatch.DispatchParts | python/ai-agent/main.py:85-99 | when every call returns, part `k` of the responses is the first part of call `k`'s reply, made on the files the calls before it left |
| Dispatch.DispatchNames | python/ai-agent/main.py:85-99 | part `k` is a function response named after call `k` |
| Dispatch.DispatchStops | python/ai-agent/main.py:86-94 | once a call raises, the later calls are not made |
| Dispatch.DispatchRaisesOnlyFromCall | python/ai-agent/main.py:89-94 | the loop raises only what some call raised after the earlier ones returned; the malformed-result error cannot arise |
| Agent.CandidateContents | python/ai-agent/main.py:75-78 | the present candidate contents, and only those |
| Agent.CandidateContentsAppend | python/ai-agent/main.py:75-78 | the contents are taken in the candidates' order, each once: those of two runs of candidates are the first's followed by the second's; an absent candidate adds nothing, a present one exactly its content |
| Agent.GenerateContentSpec | python/ai-agent/main.py:57-105 | the history only grows at the end; missing usage raises `Something went wrong... API request failed.` before any append; a return gives back the reply; no calls changes no file |
| Agent.ReplyWithoutCalls | python/ai-agent/main.py:75-82 | without calls only the candidate contents are appended |
| Agent.ReplyWithCalls | python/ai-agent/main.py:85-105 | with calls that all return, exactly one more message, role `user`, holding one response per call, its part `k` being the first part of call `k`'s reply on the files the earlier calls left |
| Agent.GenerateContentRaises | python/ai-agent/main.py:67-102 | a raise comes from missing usage or from a call that raised; never from the malformed-result or no-responses checks |
| Agent.Loop | python/ai-agent/main.py:123-149 | at most 20 replies; every reply but the last was not finishing; a return ends on a finishing reply and gives its text |
| Agent.RunSpec | python/ai-agent/main.py:108-149 | between 1 and 20 replies; every reply but the last was not finishing; a success ends on a finishing reply and gives its non-blank text |
| Agent.LoopFinishes | python/ai-agent/main.py:123-139 | when no turn raises, a run whose last reply finishes returns that reply's text |
| Agent.LoopRunsOut | python/ai-agent/main.py:123-149 | when no turn raises and the last reply does not finish, all 20 turns were used |
| Agent.LoopRaisesFlags | python/ai-agent/main.py:123-149 | when no turn raises and the last reply does not finish, the run raises the max-iterations error with the flags of the replies |
| Agent.LoopExhausts | python/ai-agent/main.py:123-149 | when no turn raises and the last reply does not finish, all 20 turns were used and the run raises the max-iterations error with `last_had_function_calls` from the last reply and `last_response_text_present` from the last reply without calls |
| Agent.LoopOutcome | python/ai-agent/main.py:123-149 | when no turn raises, the loop ends in exactly one of those two ways |
| Agent.RunOutcome | python/ai-agent/main.py:108-149 | when no turn raises, `main` succeeds exactly when its last reply finishes, with that reply's text; otherwise it has used 20 replies and raises the max-iterations error with those two flags |
| Agent.LoopExtends | python/ai-agent/main.py:75-104 | the loop only appends to the history |
| Agent.RunKeepsPrompt | python/ai-agent/main.py:114-118 | the history starts with one `user` message holding the prompt words joined by single spaces |
| Agent.NeverFinishing | python/ai-agent/main.py:141-149 | a model that never finishes, whose turns all return, uses all 20 turns and raises the max-iterations error with the flags of its last replies |
| Agent.AlwaysCallingRunsOut | python/ai-agent/main.py:127-149 | a model that asks for a tool on every reply, whose turns all return, runs out of turns with `last_had_function_calls=True` and the text carried in |
| Agent.SilentModelRunsOut | python/ai-agent/main.py:123-149 | a model answering with usage, no calls and no text uses all 20 turns and raises `Reached max iterations (20) without finishing. last_had_function_calls=False, last_response_text_present=False`, leaving the files |
| Agent.LoopStep | python/ai-agent/main.py:124-139 | one turn: a raise or a finishing reply ends the run, otherwise the next turn follows with the updated flags |
| Agent.Conversation.constructor | python/ai-agent/main.py:26-31 | the conversation uses the agent's four tools and an empty history |
| Agent.Conversation.GenerateContent | python/ai-agent/main.py:57-105 | the in-place `generate_content` leaves the history and files its meaning gives |
| Agent.Conversation.Step | python/ai-agent/main.py:124-139 | one pass of the loop keeps the run's outcome unchanged |
| Agent.Conversation.Run | python/ai-agent/main.py:108-149 | `main` ends with the outcome, history and files of the run's meaning, after as many replies |
| SingleShot.GenContentWithUsageSpec | main.py:66-120 | missing usage raises before any tool runs; a result copies the prompt and the token counts; with calls the text is `""` and the files are those the calls left; without calls the files are unchanged and the text is the reply's or `""` |
| SingleShot.GenContentWithUsage | main.py:66-120 | the in-place call returns or raises what its meaning gives and leaves those files |
| SingleShot.GenContentRaises | main.py:84-101 | a raise comes from missing usage or from a call that raised; never from the `Fatal` check |
| SingleShot.ToolOutputsAgree | main.py:35-40 | each earlier tool answers every call as the agent's does |
| SingleShot.RootCallAgrees | main.py:30-63 | the earlier `call_function` answers every call as the agent's does |
| Stats.Words | stats.py:1-2 | every word is non-empty and has no whitespace |
| Stats.WordCountIsWordStarts | stats.py:1-2 | the word count is the number of positions where a maximal non-whitespace run begins |
| Stats.NoWordsIffBlank | stats.py:1-2 | the count is 0 exactly for empty or all-whitespace text |
| Stats.LowerChar | stats.py:7 | the result is never an upper-case ASCII letter; other characters are kept |
| Stats.CharacterCount | stats.py:5-12 | the loop builds the dictionary of counts of the lower-cased text |
| Stats.Tally | stats.py:7-11 | the histogram's keys are exactly the characters with a count, and each occurs in the text |
| Stats.TallyKeys | stats.py:7-11 | the keys are exactly the characters of the text, each once |
| Stats.TallyOccurrences | stats.py:7-11 | each count is the number of occurrences, so at least 1 |
| Stats.TallyOrder | stats.py:8-9 | the keys are in order of first occurrence |
| Stats.TallySum | stats.py:5-12 | the counts add up to the length of the text |
| Stats.CharacterCountTotals | stats.py:5-12 | no key of the lower-cased text's counts is an upper-case letter, and the counts add up to the length of the text |
| Stats.InsertPermutes | stats.py:20 | inserting one entry adds it and keeps the others |
| Stats.SortProperties | stats.py:20 | the sort is a permutation, is non-increasing in count, and keeps the order of entries with equal counts |
| Stats.InsertAt | stats.py:20 | one pass of the in-place insertion sort places the next entry after every earlier one with a count at least its own |
| Stats.SortInPlace | stats.py:20 | the in-place sort leaves the array as the stable descending sort of its contents |
| Stats.GetSortedCharacterCounts | stats.py:15-21 | the dictionary's entries, sorted by count, largest first, stably |
| Stats.SortedCharacterCounts | stats.py:15-25 | for a text's histogram: the same entries, non-increasing, and entries with equal counts in first-occurrence order |

## Left out

- The Gemini client, `.env` loading, the API key, the tool schema declarations and the generation config are not modelled. The client's reply is the `model` parameter.
- `Agent.Response` takes `function_calls` and `text` as given fields of the reply. How the SDK derives them from the first candidate is not modelled.
- An API error other than a reply without usage metadata is not modelled.
- `Agent.Loop` draws replies from a function of the turn index and the history. A scripted sequence is the special case that ignores the history.
- Printing is not modelled: `print_gen_result`, the verbose traces, `Calling function` lines, the final response. The error text `main` prints is the raised outcome. Argument parsing is reduced to the list of prompt words.
- `Agent.Conversation.GenerateContent`: the malformed-result check and the no-responses check are in `Agent.GenerateContentSpec` only. `Dispatch.DispatchRaisesOnlyFromCall` and `Agent.GenerateContentRaises` prove they never fire, so the method does not repeat them.
- `SingleShot.GenContentWithUsage`: the same holds for the `Fatal` check, which `SingleShot.GenContentRaises` proves never fires.
- The root `main.py` imports `functions.get_file_content` and `functions.run_python_file`. Those files are not part of this model, so the agent's copies stand in for them.
- The root `functions/write_file.py` imports `resolve_and_validate_path` from a root `utils` module, which is not part of this model. The model takes it to be python/ai-agent/utils.py.
- Function-call arguments are JSON strings or lists of strings, as the schemas declare. Numbers, objects and nulls are not modelled.
- Symbolic links are not modelled, and `abspath` is lexical, as in the code.
- Permissions, a full disk and other I/O failures are not modelled. The filesystem errors modelled are file exists, no such file, not a directory and is a directory.
- `FileSystems.Size`: a file's size is counted in characters, not encoded bytes. A directory's size is the constant 4096.
- `ReadTool.TranslateNewlines`: reading decodes text without a codec. Only universal newlines are modelled, so a written `\r` reads back as `\n`.
- `Text.ReprPrintable`: below U+0100 it matches `str.isprintable`. Above, every character is taken as printable, so the `\u`/`\U` escapes `repr` writes for non-printable characters there are not modelled.
- `RunTool.Runner` is any function of the files. That a script leaves a consistent tree (every entry's directory present) is not assumed.
- `Stats.LowerChar`: lower-casing is ASCII only. Unicode case mappings, including ones that change the length, are not modelled.
- The subprocess, its environment and the 30-second timeout are the `run` parameter. A timeout is one of the exceptions it may report.
- Nothing is concurrent: the scripts are sequential and the model is too.
- `player.py`, `constants.py` and `llm_client.py` are not part of this model (a game loop with floating point, constants, and SDK wrappers).
