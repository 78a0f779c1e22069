/**
  The earlier single-shot entry script at the repository root (main.py): one request
  with the prompt, the requested tools run in order with the root copies of the
  tools, and the reply normalised into a `GenerationResult`.
*/
module SingleShot {
  import opened Wrappers
  import opened FileSystems
  import opened Config
  import opened Dispatch
  import opened Agent
  import opened Values
  import RunTool
  import LegacyListTool

  /** `GenerationResult`: the prompt, the two token counts and the response text. */
  datatype GenerationResult = GenerationResult(userPrompt: string, promptTokens: Option<int>,
                                               responseTokens: Option<int>, responseText: string)

  const MissingResponse: string := "Fatal: tool response is missing function_response.response"

  /** The one-message history the request is sent with. */
  function PromptMessages(prompt: string): seq<Content> {
    [Content("user", [TextPart(prompt)])]
  }

  /** `gen_content_with_usage(client, prompt, ...)` when the client's reply is
      `response`: what it returns or raises, and the files afterwards. */
  function GenContentWithUsageSpec(call: Dispatcher, e: Entries, prompt: string, response: Response)
    : (r: (Outcome<GenerationResult>, Entries))
    ensures response.usage.None? ==> r == (Raised(ApiRequestFailed), e)
    ensures r.0.Returned? ==>
              response.usage.Some? &&
              r.0.value.userPrompt == prompt &&
              r.0.value.promptTokens == response.usage.value.promptTokens &&
              r.0.value.responseTokens == response.usage.value.candidatesTokens
    ensures r.0.Returned? && |response.functionCalls| > 0 ==> r.0.value.responseText == ""
    ensures response.usage.Some? && |response.functionCalls| == 0 ==>
              r.1 == e && r.0.Returned? &&
              r.0.value.responseText == (if response.text.Some? then response.text.value else "")
    ensures response.usage.Some? && |response.functionCalls| > 0 ==>
              r.1 == DispatchAll(call, e, response.functionCalls, MissingResponse).entries
  {
    if response.usage.None? then (Raised(ApiRequestFailed), e)
    else
      var usage := response.usage.value;
      if |response.functionCalls| > 0 then
        var d := DispatchAll(call, e, response.functionCalls, MissingResponse);
        if d.outcome.Raised? then (Raised(d.outcome.error), d.entries)
        else (Returned(GenerationResult(prompt, usage.promptTokens, usage.candidatesTokens, "")), d.entries)
      else
        var text := if response.text.Some? then response.text.value else "";
        (Returned(GenerationResult(prompt, usage.promptTokens, usage.candidatesTokens, text)), e)
  }

  /** The script raises only for a reply without usage metadata, before any tool
      runs, or because one of the calls raised: the "Fatal" check never fires. */
  lemma GenContentRaises(call: Dispatcher, e: Entries, prompt: string, response: Response)
    requires Responds(call)
    requires GenContentWithUsageSpec(call, e, prompt, response).0.Raised?
    ensures response.usage.None? ||
            exists k :: 0 <= k < |response.functionCalls| &&
              DispatchAll(call, e, response.functionCalls[..k], MissingResponse).outcome.Returned? &&
              call(DispatchAll(call, e, response.functionCalls[..k], MissingResponse).entries,
                   response.functionCalls[k]).outcome
                == Raised(GenContentWithUsageSpec(call, e, prompt, response).0.error)
  {
    if response.usage.Some? {
      DispatchRaisesOnlyFromCall(call, e, response.functionCalls, MissingResponse);
    }
  }

  /** The root copies of the tools answer every call as the agent's do: the two
      listings differ only in how they test containment. */
  lemma ToolOutputsAgree(cwd: string, run: RunTool.Runner, e: Entries, t: Tool, pairs: seq<(string, Value)>)
    requires forall p :: p in Required(t) ==> Get(pairs, p).Some?
    ensures ToolOutput(RootToolbox(cwd, run), e, t, pairs) == ToolOutput(AgentToolbox(cwd, run), e, t, pairs)
  {
    if t.GetFilesInfo? {
      match Get(pairs, "directory")
      case Some(Str(d)) => LegacyListTool.SameAsResolverVersion(cwd, e, WorkingDir, d);
      case None => LegacyListTool.SameAsResolverVersion(cwd, e, WorkingDir, ".");
      case Some(StrList(_)) =>
    }
  }

  lemma RootCallAgrees(cwd: string, run: RunTool.Runner, e: Entries, c: FunctionCall)
    ensures CallFunctionSpec(RootToolbox(cwd, run), e, c) == CallFunctionSpec(AgentToolbox(cwd, run), e, c)
  {
    if Lookup(c.name).Some? && c.args.Some? {
      var t := Lookup(c.name).value;
      var pairs := WithWorkingDir(c.args.value);
      if BindError(t, pairs).None? {
        MissingNoneBound(Required(t), pairs);
        ToolOutputsAgree(cwd, run, e, t, pairs);
      }
    }
  }

  /** `gen_content_with_usage(client, prompt)` on the files `fs`, with `tools` as the
      function table and `model` answering the one request. */
  method GenContentWithUsage(fs: FileSystem, tools: Toolbox, cwd: string, ghost call: Dispatcher,
                             model: Model, prompt: string)
    returns (outcome: Outcome<GenerationResult>)
    requires WritesIn(tools, cwd) && Performs(call, tools)
    modifies fs
    ensures (outcome, fs.entries) == GenContentWithUsageSpec(call, old(fs.entries), prompt, model(0, PromptMessages(prompt)))
  {
    var response := model(0, PromptMessages(prompt));
    if response.usage.None? {
      return Raised(ApiRequestFailed);
    }
    var responseText: string;
    if |response.functionCalls| > 0 {
      var calls := response.functionCalls;
      ghost var e0 := fs.entries;
      var functionCallParts: seq<Part> := [];
      var i := 0;
      while i < |calls|
        invariant 0 <= i <= |calls|
        invariant DispatchAll(call, e0, calls[..i], MissingResponse) == Dispatched(Returned(functionCallParts), fs.entries)
      {
        assert calls[..i + 1][..i] == calls[..i];
        var result := CallFunction(tools, cwd, fs, calls[i]);
        if result.Raised? {
          DispatchStops(call, e0, calls, MissingResponse, i + 1);
          return Raised(result.error);
        }
        functionCallParts := functionCallParts + [result.value.parts[0]];
        i := i + 1;
      }
      assert calls[..i] == calls;
      responseText := "";
    } else if response.text.Some? {
      responseText := response.text.value;
    } else {
      responseText := "";
    }
    var usage := response.usage.value;
    return Returned(GenerationResult(prompt, usage.promptTokens, usage.candidatesTokens, responseText));
  }
}
