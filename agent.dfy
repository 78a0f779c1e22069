/**
  The conversation loop of the agent (python/ai-agent/main.py): `generate_content`
  asks the model for one reply, appends the reply's candidate contents to the
  history, runs the requested tools in order and appends their responses as one
  message; `main` repeats this for at most 20 turns until a reply asks for no tool
  and has non-blank text. The model is a function from the history to its reply.
*/
module Agent {
  import opened Wrappers
  import opened Text
  import opened FileSystems
  import opened Config
  import opened Dispatch
  import RunTool

  /** `usage_metadata`: the token counts. */
  datatype Usage = Usage(promptTokens: Option<int>, candidatesTokens: Option<int>)

  /** One reply of the model: the candidates' contents (absent ones as `None`), the
      function calls it asks for, its text, and its usage metadata. */
  datatype Response = Response(candidates: seq<Option<Content>>, functionCalls: seq<FunctionCall>,
                               text: Option<string>, usage: Option<Usage>)

  /** The model, as the reply it gives to the `i`-th request (from 0) with a given
      history; a scripted sequence of replies is `(i, _) => script[i]`. */
  type Model = (nat, seq<Content>) -> Response

  const MaxTurns: nat := 20
  const EmptyResult: string := "empty function call result"
  const NoResponses: string := "no function responses generated. exiting..."

  /** The candidate contents that are present, in order. */
  function CandidateContents(candidates: seq<Option<Content>>): (r: seq<Content>)
    ensures |r| <= |candidates|
    ensures forall c :: c in r <==> Some(c) in candidates
  {
    if |candidates| == 0 then []
    else
      var front := candidates[..|candidates| - 1];
      var last := candidates[|candidates| - 1];
      assert candidates == front + [last];
      CandidateContents(front) + (if last.Some? then [last.value] else [])
  }

  /** The contents are taken in the candidates' order, each present one once: the
      contents of two runs of candidates are the first's followed by the second's, an
      absent candidate contributes nothing and a present one exactly its content. */
  lemma {:induction false} CandidateContentsAppend(a: seq<Option<Content>>, b: seq<Option<Content>>)
    ensures CandidateContents(a + b) == CandidateContents(a) + CandidateContents(b)
    ensures CandidateContents([None]) == []
    ensures forall c :: CandidateContents([Some(c)]) == [c]
    decreases |b|
  {
    if |b| == 0 {
      assert a + b == a;
    } else {
      var front := b[..|b| - 1];
      assert (a + b)[..|a + b| - 1] == a + front;
      CandidateContentsAppend(a, front);
    }
  }

  /** What `generate_content` returned or raised, the history and the files after it. */
  datatype Turn = Turn(outcome: Outcome<Response>, messages: seq<Content>, entries: Entries)

  /** `generate_content(client, messages, ...)` when the client's reply is `response`. */
  function GenerateContentSpec(call: Dispatcher, messages: seq<Content>, e: Entries, response: Response): (r: Turn)
    ensures |messages| <= |r.messages| && r.messages[..|messages|] == messages
    ensures response.usage.None? ==> r == Turn(Raised(ApiRequestFailed), messages, e)
    ensures r.outcome.Returned? ==> r.outcome.value == response
    ensures |response.functionCalls| == 0 ==> r.entries == e
  {
    if response.usage.None? then Turn(Raised(ApiRequestFailed), messages, e)
    else
      var withCandidates := messages + CandidateContents(response.candidates);
      assert withCandidates[..|messages|] == messages;
      if |response.functionCalls| == 0 then Turn(Returned(response), withCandidates, e)
      else
        var d := DispatchAll(call, e, response.functionCalls, EmptyResult);
        if d.outcome.Raised? then Turn(Raised(d.outcome.error), withCandidates, d.entries)
        else if |d.outcome.value| == 0 then Turn(Raised(NoResponses), withCandidates, d.entries)
        else
          var all := withCandidates + [Content("user", d.outcome.value)];
          assert all[..|messages|] == messages;
          Turn(Returned(response), all, d.entries)
  }

  /** A reply without function calls only adds the candidates to the history. */
  lemma ReplyWithoutCalls(call: Dispatcher, messages: seq<Content>, e: Entries, response: Response)
    requires response.usage.Some? && |response.functionCalls| == 0
    ensures GenerateContentSpec(call, messages, e, response)
              == Turn(Returned(response), messages + CandidateContents(response.candidates), e)
  {
  }

  /** A reply with function calls that all return adds the candidates and then one
      "user" message holding one response per call, in the order of the calls: part
      `k` is what call `k` returned on the files the calls before it left. */
  lemma ReplyWithCalls(call: Dispatcher, messages: seq<Content>, e: Entries, response: Response)
    requires Responds(call)
    requires response.usage.Some? && |response.functionCalls| > 0
    requires GenerateContentSpec(call, messages, e, response).outcome.Returned?
    ensures var r := GenerateContentSpec(call, messages, e, response);
            var n := |messages + CandidateContents(response.candidates)|;
            |r.messages| == n + 1 &&
            r.messages[..n] == messages + CandidateContents(response.candidates) &&
            r.messages[n].role == "user" &&
            |r.messages[n].parts| == |response.functionCalls| &&
            forall k :: 0 <= k < |response.functionCalls| ==>
              r.messages[n].parts[k].FunctionResponsePart? &&
              r.messages[n].parts[k].name == response.functionCalls[k].name
    ensures var r := GenerateContentSpec(call, messages, e, response);
            var n := |messages + CandidateContents(response.candidates)|;
            var calls := response.functionCalls;
            forall k :: 0 <= k < |calls| ==>
              DispatchAll(call, e, calls[..k], EmptyResult).outcome.Returned? &&
              call(DispatchAll(call, e, calls[..k], EmptyResult).entries, calls[k]).outcome.Returned? &&
              r.messages[n].parts[k]
                == call(DispatchAll(call, e, calls[..k], EmptyResult).entries, calls[k]).outcome.value.parts[0]
  {
    var d := DispatchAll(call, e, response.functionCalls, EmptyResult);
    assert d.outcome.Returned?;
    DispatchNames(call, e, response.functionCalls, EmptyResult);
    DispatchParts(call, e, response.functionCalls, EmptyResult);
  }

  /** `generate_content` raises only for a reply without usage metadata (changing
      nothing) or because one of the calls raised: never "no function responses
      generated". */
  lemma GenerateContentRaises(call: Dispatcher, messages: seq<Content>, e: Entries, response: Response)
    requires Responds(call)
    requires GenerateContentSpec(call, messages, e, response).outcome.Raised?
    ensures response.usage.None? ||
            exists k :: 0 <= k < |response.functionCalls| &&
              DispatchAll(call, e, response.functionCalls[..k], EmptyResult).outcome.Returned? &&
              call(DispatchAll(call, e, response.functionCalls[..k], EmptyResult).entries,
                               response.functionCalls[k]).outcome
                == Raised(GenerateContentSpec(call, messages, e, response).outcome.error)
  {
    if response.usage.Some? {
      DispatchRaisesOnlyFromCall(call, e, response.functionCalls, EmptyResult);
    }
  }

  /** `bool(text and text.strip())`. */
  predicate HasText(text: Option<string>) {
    text.Some? && !Blank(text.value)
  }

  /** A reply that ends the loop: no function calls and non-blank text. */
  predicate Finished(response: Response) {
    |response.functionCalls| == 0 && HasText(response.text)
  }

  function MaxIterationsError(lastHadFunctionCalls: bool, lastResponseText: Option<string>): string {
    "Reached max iterations (20) without finishing. "
      + Join(", ", ["last_had_function_calls=" + BoolText(lastHadFunctionCalls),
                    "last_response_text_present=" + BoolText(HasText(lastResponseText))])
  }

  /** The history `main` starts from. */
  function InitialMessages(words: seq<string>): seq<Content> {
    [Content("user", [TextPart(Join(" ", words))])]
  }

  /** `generate_content`, as the function from the history, the files and the
      client's reply to what it returns or raises, the history and the files after it. */
  type Generator = (seq<Content>, Entries, Response) -> Turn

  /** `gen` is `generate_content` with `call` as `call_function`. */
  ghost predicate Generates(gen: Generator, call: Dispatcher) {
    forall m, e, response {:trigger GenerateContentSpec(call, m, e, response)} ::
      gen(m, e, response) == GenerateContentSpec(call, m, e, response)
  }

  /** How a run ended (the final text, or what `main` prints after `Error: `), the
      history, the files, and the replies asked for, in order. */
  datatype RunResult = RunResult(outcome: Outcome<string>, messages: seq<Content>, entries: Entries, replies: seq<Response>)

  function Last(replies: seq<Response>): Response
    requires |replies| > 0
  {
    replies[|replies| - 1]
  }

  /** The turns of `main` after the replies `replies`, `gen` being `generate_content`:
      at most 20 replies in all; every reply but the last asked for a tool or had blank
      text; a run that returns ends on a finishing reply and gives its text. */
  function Loop(gen: Generator, model: Model, replies: seq<Response>, messages: seq<Content>, e: Entries,
                lastHadFunctionCalls: bool, lastResponseText: Option<string>): (r: RunResult)
    requires |replies| <= MaxTurns
    ensures |replies| <= |r.replies| <= MaxTurns && r.replies[..|replies|] == replies
    ensures |replies| < MaxTurns ==> |replies| < |r.replies|
    ensures forall k :: |replies| <= k < |r.replies| - 1 ==> !Finished(r.replies[k])
    ensures r.outcome.Returned? ==>
              |replies| < |r.replies| && Finished(Last(r.replies)) && r.outcome.value == Last(r.replies).text.value
    decreases MaxTurns - |replies|
  {
    if |replies| == MaxTurns then
      RunResult(Raised(MaxIterationsError(lastHadFunctionCalls, lastResponseText)), messages, e, replies)
    else
      var response := model(|replies|, messages);
      var t := gen(messages, e, response);
      if t.outcome.Raised? then RunResult(Raised(t.outcome.error), t.messages, t.entries, replies + [response])
      else if Finished(response) then RunResult(Returned(response.text.value), t.messages, t.entries, replies + [response])
      else
        var had := |response.functionCalls| > 0;
        var rest := Loop(gen, model, replies + [response], t.messages, t.entries, had,
                         if had then lastResponseText else response.text);
        assert rest.replies[..|replies|] == rest.replies[..|replies| + 1][..|replies|];
        rest
  }

  /** `main()` with the prompt words `words`: between 1 and 20 replies, and success
      exactly on a reply with no function calls and non-blank text. */
  function RunSpec(gen: Generator, model: Model, e: Entries, words: seq<string>): (r: RunResult)
    ensures 1 <= |r.replies| <= MaxTurns
    ensures forall k :: 0 <= k < |r.replies| - 1 ==> !Finished(r.replies[k])
    ensures r.outcome.Returned? ==> Finished(Last(r.replies)) && r.outcome.value == Last(r.replies).text.value
    ensures r.outcome.Returned? ==> !Blank(r.outcome.value)
  {
    Loop(gen, model, [], InitialMessages(words), e, false, None)
  }

  /** The loop only ever appends to the history. */
  lemma {:induction false} LoopExtends(gen: Generator, call: Dispatcher, model: Model, replies: seq<Response>,
                                       messages: seq<Content>, e: Entries,
                                       lastHadFunctionCalls: bool, lastResponseText: Option<string>)
    requires Generates(gen, call)
    requires |replies| <= MaxTurns
    ensures var r := Loop(gen, model, replies, messages, e, lastHadFunctionCalls, lastResponseText);
            |messages| <= |r.messages| && r.messages[..|messages|] == messages
    decreases MaxTurns - |replies|
  {
    if |replies| < MaxTurns {
      var response := model(|replies|, messages);
      var t := GenerateContentSpec(call, messages, e, response);
      assert gen(messages, e, response) == t;
      if t.outcome.Returned? && !Finished(response) {
        var had := |response.functionCalls| > 0;
        var next := if had then lastResponseText else response.text;
        LoopExtends(gen, call, model, replies + [response], t.messages, t.entries, had, next);
        var rest := Loop(gen, model, replies + [response], t.messages, t.entries, had, next);
        assert rest.messages[..|messages|] == rest.messages[..|t.messages|][..|messages|];
      }
    }
  }

  /** The history of a run starts with the prompt, as one "user" message. */
  lemma RunKeepsPrompt(gen: Generator, call: Dispatcher, model: Model, e: Entries, words: seq<string>)
    requires Generates(gen, call)
    ensures var r := RunSpec(gen, model, e, words);
            |r.messages| >= 1 && r.messages[0] == Content("user", [TextPart(Join(" ", words))])
  {
    var m := InitialMessages(words);
    LoopExtends(gen, call, model, [], m, e, false, None);
    var r := Loop(gen, model, [], m, e, false, None);
    assert r.messages[0] == r.messages[..|m|][0];
  }

  /** A model that always answers without calls and without text, with usage, runs
      out of turns, leaves the files alone, and reports that the last reply had
      neither. */
  lemma {:induction false} SilentModelRunsOut(gen: Generator, call: Dispatcher, model: Model, replies: seq<Response>,
                                          messages: seq<Content>, e: Entries,
                                          lastHadFunctionCalls: bool, lastResponseText: Option<string>)
    requires Generates(gen, call)
    requires |replies| < MaxTurns
    requires forall i, h :: model(i, h).usage.Some? && |model(i, h).functionCalls| == 0 && !HasText(model(i, h).text)
    ensures var r := Loop(gen, model, replies, messages, e, lastHadFunctionCalls, lastResponseText);
            r.outcome == Raised(MaxIterationsError(false, None)) && |r.replies| == MaxTurns && r.entries == e
    decreases MaxTurns - |replies|
  {
    var response := model(|replies|, messages);
    var t := GenerateContentSpec(call, messages, e, response);
    assert gen(messages, e, response) == t;
    assert t.outcome.Returned? && t.entries == e;
    if |replies| + 1 < MaxTurns {
      SilentModelRunsOut(gen, call, model, replies + [response], t.messages, t.entries, false, response.text);
    }
  }

  // ---------------------------------------------------------------------------
  // How a run ends

  /** `generate_content` returns on every reply of the run from here on: no turn
      raises. */
  predicate TurnsReturn(gen: Generator, model: Model, replies: seq<Response>, messages: seq<Content>, e: Entries)
    requires |replies| <= MaxTurns
    decreases MaxTurns - |replies|
  {
    |replies| == MaxTurns ||
    var response := model(|replies|, messages);
    var t := gen(messages, e, response);
    t.outcome.Returned? && (Finished(response) || TurnsReturn(gen, model, replies + [response], t.messages, t.entries))
  }

  /** `last_had_function_calls` after the replies from index `from` on: whether the
      last of them asked for a tool, or `initial` when there is none. */
  function LastHadCalls(replies: seq<Response>, from: nat, initial: bool): bool
    requires from <= |replies|
  {
    if |replies| == from then initial else |Last(replies).functionCalls| > 0
  }

  /** `last_response_text` after the replies from index `from` on: the text of the
      last of them that asked for no tool, or `initial` when every one did. */
  function LastCallFreeText(replies: seq<Response>, from: nat, initial: Option<string>): Option<string>
    requires from <= |replies|
    decreases |replies|
  {
    if |replies| == from then initial
    else if |Last(replies).functionCalls| == 0 then Last(replies).text
    else LastCallFreeText(replies[..|replies| - 1], from, initial)
  }

  /** Starting one reply later, with the text that reply leaves, gives the same text. */
  lemma {:induction false} LastCallFreeTextShift(replies: seq<Response>, from: nat, initial: Option<string>)
    requires from < |replies|
    ensures LastCallFreeText(replies, from + 1,
                             if |replies[from].functionCalls| > 0 then initial else replies[from].text)
         == LastCallFreeText(replies, from, initial)
    decreases |replies|
  {
    if |replies| > from + 1 {
      var front := replies[..|replies| - 1];
      assert front[from] == replies[from];
      LastCallFreeTextShift(front, from, initial);
    }
  }

  /** Starting one reply later, with the flag that reply leaves, gives the same flag. */
  lemma LastHadCallsShift(replies: seq<Response>, from: nat, initial: bool)
    requires from < |replies|
    ensures LastHadCalls(replies, from + 1, |replies[from].functionCalls| > 0) == LastHadCalls(replies, from, initial)
  {
  }

  /** The conclusion of `LoopRaisesFlags` for the replies from `from + 1` on gives it
      for the replies from `from` on, the reply at `from` not finishing. */
  lemma ExhaustsShift(replies: seq<Response>, from: nat, lastHad: bool, lastText: Option<string>,
                      had: bool, next: Option<string>, outcome: Outcome<string>)
    requires from < |replies| && !Finished(replies[from])
    requires had == (|replies[from].functionCalls| > 0)
    requires next == if had then lastText else replies[from].text
    requires !(from + 1 < |replies| && Finished(Last(replies))) ==>
               outcome == Raised(MaxIterationsError(LastHadCalls(replies, from + 1, had),
                                                    LastCallFreeText(replies, from + 1, next)))
    ensures !(from < |replies| && Finished(Last(replies))) ==>
              outcome == Raised(MaxIterationsError(LastHadCalls(replies, from, lastHad),
                                                   LastCallFreeText(replies, from, lastText)))
  {
    LastCallFreeTextShift(replies, from, lastText);
    LastHadCallsShift(replies, from, lastHad);
  }

  /** When no turn raises, a run that stops on a finishing reply returns its text. */
  lemma {:induction false} LoopFinishes(gen: Generator, model: Model, replies: seq<Response>, messages: seq<Content>,
                                        e: Entries, lastHadFunctionCalls: bool, lastResponseText: Option<string>)
    requires |replies| <= MaxTurns
    requires TurnsReturn(gen, model, replies, messages, e)
    ensures var r := Loop(gen, model, replies, messages, e, lastHadFunctionCalls, lastResponseText);
            |replies| < |r.replies| && Finished(Last(r.replies)) ==> r.outcome == Returned(Last(r.replies).text.value)
    decreases MaxTurns - |replies|
  {
    var n := |replies|;
    if n < MaxTurns {
      var response := model(n, messages);
      var t := gen(messages, e, response);
      if !Finished(response) {
        var had := |response.functionCalls| > 0;
        LoopFinishes(gen, model, replies + [response], t.messages, t.entries, had,
                     if had then lastResponseText else response.text);
      }
    }
  }

  /** When no turn raises and the last reply does not finish, all 20 turns were used. */
  lemma {:induction false} LoopRunsOut(gen: Generator, model: Model, replies: seq<Response>, messages: seq<Content>,
                                       e: Entries, lastHadFunctionCalls: bool, lastResponseText: Option<string>)
    requires |replies| <= MaxTurns
    requires TurnsReturn(gen, model, replies, messages, e)
    ensures var r := Loop(gen, model, replies, messages, e, lastHadFunctionCalls, lastResponseText);
            !(|replies| < |r.replies| && Finished(Last(r.replies))) ==> |r.replies| == MaxTurns
    decreases MaxTurns - |replies|
  {
    var n := |replies|;
    if n < MaxTurns {
      var response := model(n, messages);
      var t := gen(messages, e, response);
      assert t.outcome.Returned?;
      if !Finished(response) {
        var had := |response.functionCalls| > 0;
        var next := if had then lastResponseText else response.text;
        LoopRunsOut(gen, model, replies + [response], t.messages, t.entries, had, next);
      }
    }
  }

  /** When no turn raises and the last reply does not finish, the loop raises the
      max-iterations error with the flags of the replies. */
  lemma {:induction false} LoopRaisesFlags(gen: Generator, model: Model, replies: seq<Response>, messages: seq<Content>,
                                           e: Entries, lastHadFunctionCalls: bool, lastResponseText: Option<string>)
    requires |replies| <= MaxTurns
    requires TurnsReturn(gen, model, replies, messages, e)
    ensures var r := Loop(gen, model, replies, messages, e, lastHadFunctionCalls, lastResponseText);
            !(|replies| < |r.replies| && Finished(Last(r.replies))) ==>
              r.outcome == Raised(MaxIterationsError(LastHadCalls(r.replies, |replies|, lastHadFunctionCalls),
                                                     LastCallFreeText(r.replies, |replies|, lastResponseText)))
    decreases MaxTurns - |replies|
  {
    var n := |replies|;
    var whole := Loop(gen, model, replies, messages, e, lastHadFunctionCalls, lastResponseText);
    if n == MaxTurns {
      assert whole == RunResult(Raised(MaxIterationsError(lastHadFunctionCalls, lastResponseText)), messages, e, replies);
    } else {
      var response := model(n, messages);
      var t := gen(messages, e, response);
      assert t.outcome.Returned?;
      if Finished(response) {
        assert whole.replies == replies + [response];
        assert Last(whole.replies) == response;
      } else {
        var had := |response.functionCalls| > 0;
        var next := if had then lastResponseText else response.text;
        var r := Loop(gen, model, replies + [response], t.messages, t.entries, had, next);
        assert whole == r;
        LoopRaisesFlags(gen, model, replies + [response], t.messages, t.entries, had, next);
        assert |replies + [response]| == n + 1;
        assert r.replies[n] == response by {
          assert r.replies[n] == r.replies[..n + 1][n];
        }
        ExhaustsShift(r.replies, n, lastHadFunctionCalls, lastResponseText, had, next, r.outcome);
      }
    }
  }

  /** When no turn raises and the last reply does not finish, all 20 turns were used
      and the max-iterations error carries the flags of the replies. */
  lemma LoopExhausts(gen: Generator, model: Model, replies: seq<Response>, messages: seq<Content>,
                     e: Entries, lastHadFunctionCalls: bool, lastResponseText: Option<string>)
    requires |replies| <= MaxTurns
    requires TurnsReturn(gen, model, replies, messages, e)
    ensures var r := Loop(gen, model, replies, messages, e, lastHadFunctionCalls, lastResponseText);
            !(|replies| < |r.replies| && Finished(Last(r.replies))) ==>
              |r.replies| == MaxTurns &&
              r.outcome == Raised(MaxIterationsError(LastHadCalls(r.replies, |replies|, lastHadFunctionCalls),
                                                     LastCallFreeText(r.replies, |replies|, lastResponseText)))
  {
    LoopRunsOut(gen, model, replies, messages, e, lastHadFunctionCalls, lastResponseText);
    LoopRaisesFlags(gen, model, replies, messages, e, lastHadFunctionCalls, lastResponseText);
  }

  /** When no turn raises, the loop ends in one of two ways: on a finishing reply,
      whose text it returns, or after 20 replies none of which finished, raising the
      max-iterations error with the two flags of the last replies. */
  lemma LoopOutcome(gen: Generator, model: Model, replies: seq<Response>, messages: seq<Content>,
                    e: Entries, lastHadFunctionCalls: bool, lastResponseText: Option<string>)
    requires |replies| <= MaxTurns
    requires TurnsReturn(gen, model, replies, messages, e)
    ensures var r := Loop(gen, model, replies, messages, e, lastHadFunctionCalls, lastResponseText);
            var n := |replies|;
            if n < |r.replies| && Finished(Last(r.replies)) then r.outcome == Returned(Last(r.replies).text.value)
            else |r.replies| == MaxTurns &&
                 r.outcome == Raised(MaxIterationsError(LastHadCalls(r.replies, n, lastHadFunctionCalls),
                                                        LastCallFreeText(r.replies, n, lastResponseText)))
  {
    LoopFinishes(gen, model, replies, messages, e, lastHadFunctionCalls, lastResponseText);
    LoopExhausts(gen, model, replies, messages, e, lastHadFunctionCalls, lastResponseText);
  }

  /** `main` with no raising turn: it succeeds exactly when some reply finishes, with
      that reply's text; otherwise all 20 turns are used and the error reports whether
      the last reply asked for a tool and whether the last reply without calls had
      text. */
  lemma RunOutcome(gen: Generator, model: Model, e: Entries, words: seq<string>)
    requires TurnsReturn(gen, model, [], InitialMessages(words), e)
    ensures var r := RunSpec(gen, model, e, words);
            if Finished(Last(r.replies)) then r.outcome == Returned(Last(r.replies).text.value)
            else |r.replies| == MaxTurns &&
                 r.outcome == Raised(MaxIterationsError(|Last(r.replies).functionCalls| > 0,
                                                        LastCallFreeText(r.replies, 0, None)))
  {
    LoopOutcome(gen, model, [], InitialMessages(words), e, false, None);
  }

  /** A model that never finishes, whose turns all return, uses all 20 turns and
      raises the max-iterations error with the flags of its last replies. */
  lemma {:induction false} NeverFinishing(gen: Generator, model: Model, replies: seq<Response>,
                                          messages: seq<Content>, e: Entries,
                                          lastHadFunctionCalls: bool, lastResponseText: Option<string>)
    requires |replies| < MaxTurns
    requires TurnsReturn(gen, model, replies, messages, e)
    requires forall i, h :: !Finished(model(i, h))
    ensures var r := Loop(gen, model, replies, messages, e, lastHadFunctionCalls, lastResponseText);
            |r.replies| == MaxTurns && !Finished(Last(r.replies)) &&
            r.outcome == Raised(MaxIterationsError(|Last(r.replies).functionCalls| > 0,
                                                   LastCallFreeText(r.replies, |replies|, lastResponseText)))
    decreases MaxTurns - |replies|
  {
    var n := |replies|;
    var response := model(n, messages);
    var t := gen(messages, e, response);
    var had := |response.functionCalls| > 0;
    var next := if had then lastResponseText else response.text;
    if n + 1 < MaxTurns {
      NeverFinishing(gen, model, replies + [response], t.messages, t.entries, had, next);
    }
    LoopOutcome(gen, model, replies, messages, e, lastHadFunctionCalls, lastResponseText);
  }

  /** A model that asks for a tool on every reply, whose turns all return, runs out of
      turns reporting `last_had_function_calls=True` and the text carried in. */
  lemma {:induction false} AlwaysCallingRunsOut(gen: Generator, model: Model, replies: seq<Response>,
                                                messages: seq<Content>, e: Entries,
                                                lastHadFunctionCalls: bool, lastResponseText: Option<string>)
    requires |replies| < MaxTurns
    requires TurnsReturn(gen, model, replies, messages, e)
    requires forall i, h :: |model(i, h).functionCalls| > 0
    ensures var r := Loop(gen, model, replies, messages, e, lastHadFunctionCalls, lastResponseText);
            |r.replies| == MaxTurns && r.outcome == Raised(MaxIterationsError(true, lastResponseText))
    decreases MaxTurns - |replies|
  {
    var n := |replies|;
    var response := model(n, messages);
    var t := gen(messages, e, response);
    if n + 1 < MaxTurns {
      AlwaysCallingRunsOut(gen, model, replies + [response], t.messages, t.entries, true, lastResponseText);
    }
  }

  /** One turn of `main` before the last. */
  lemma LoopStep(gen: Generator, model: Model, replies: seq<Response>, messages: seq<Content>, e: Entries,
                 lastHadFunctionCalls: bool, lastResponseText: Option<string>)
    requires |replies| < MaxTurns
    ensures var response := model(|replies|, messages);
            var t := gen(messages, e, response);
            var had := |response.functionCalls| > 0;
            Loop(gen, model, replies, messages, e, lastHadFunctionCalls, lastResponseText)
              == if t.outcome.Raised? then RunResult(Raised(t.outcome.error), t.messages, t.entries, replies + [response])
                 else if Finished(response) then
                   RunResult(Returned(response.text.value), t.messages, t.entries, replies + [response])
                 else Loop(gen, model, replies + [response], t.messages, t.entries, had,
                           if had then lastResponseText else response.text)
  {
  }

  /** The history and the files of one run of `main`. */
  class Conversation {
    var messages: seq<Content>
    const fs: FileSystem
    const tools: Toolbox
    const cwd: string
    /** `call_function` over `tools`, and `generate_content` with it, as functions. */
    ghost const call: Dispatcher
    ghost const gen: Generator

    /** The agent's tools, run from `cwd` with the interpreter `run`, on `fs`. */
    constructor (fs: FileSystem, cwd: string, run: RunTool.Runner)
      ensures this.fs == fs && tools == AgentToolbox(cwd, run) && this.cwd == cwd && messages == []
      ensures Ready()
    {
      this.fs := fs;
      this.cwd := cwd;
      tools := AgentToolbox(cwd, run);
      var dispatcher := (e, c) => CallFunctionSpec(AgentToolbox(cwd, run), e, c);
      call := dispatcher;
      gen := (m, e, response) => GenerateContentSpec(dispatcher, m, e, response);
      messages := [];
      new;
      ToolboxesWrite(cwd, run);
    }

    /** The tools write from `cwd`, `call` is `call_function` over them and `gen` is
        `generate_content` with `call`. */
    ghost predicate Ready() {
      WritesIn(tools, cwd) && Performs(call, tools) && Generates(gen, call)
    }

    /** `generate_content(client, messages, ...)` when the client replies `response`. */
    method GenerateContent(response: Response) returns (outcome: Outcome<Response>)
      requires Ready()
      modifies this, fs
      ensures Turn(outcome, messages, fs.entries) == GenerateContentSpec(call, old(messages), old(fs.entries), response)
    {
      if response.usage.None? {
        return Raised(ApiRequestFailed);
      }
      messages := messages + CandidateContents(response.candidates);
      var calls := response.functionCalls;
      if |calls| == 0 {
        return Returned(response);
      }
      ghost var e0 := fs.entries;
      var functionResponses: seq<Part> := [];
      var i := 0;
      while i < |calls|
        invariant 0 <= i <= |calls|
        invariant DispatchAll(call, e0, calls[..i], EmptyResult) == Dispatched(Returned(functionResponses), fs.entries)
        invariant messages == old(messages) + CandidateContents(response.candidates)
      {
        assert calls[..i + 1][..i] == calls[..i];
        var result := CallFunction(tools, cwd, fs, calls[i]);
        if result.Raised? {
          DispatchStops(call, e0, calls, EmptyResult, i + 1);
          return Raised(result.error);
        }
        functionResponses := functionResponses + [result.value.parts[0]];
        i := i + 1;
      }
      assert calls[..i] == calls;
      messages := messages + [Content("user", functionResponses)];
      return Returned(response);
    }

    /** One pass of the `for i in range(20)` loop of `main`: ask for a reply, hand it
        to `generate_content`, and decide whether the run stops here. */
    method Step(model: Model, i: nat, ghost replies: seq<Response>, lastHadFunctionCalls: bool, lastResponseText: Option<string>)
      returns (stop: bool, outcome: Outcome<string>, had: bool, text: Option<string>, response: Response)
      requires i == |replies| < MaxTurns
      requires Ready()
      modifies this, fs
      ensures var before := Loop(gen, model, replies, old(messages), old(fs.entries), lastHadFunctionCalls, lastResponseText);
              if stop then before == RunResult(outcome, messages, fs.entries, replies + [response])
              else before == Loop(gen, model, replies + [response], messages, fs.entries, had, text)
    {
      response := model(i, messages);
      LoopStep(gen, model, replies, messages, fs.entries, lastHadFunctionCalls, lastResponseText);
      var result := GenerateContent(response);
      if result.Raised? {
        return true, Raised(result.error), lastHadFunctionCalls, lastResponseText, response;
      }
      had := |response.functionCalls| > 0;
      text := if had then lastResponseText else response.text;
      if Finished(response) {
        return true, Returned(response.text.value), had, text, response;
      }
      stop, outcome := false, Raised(MaxIterationsError(had, text));
    }

    /** `main()` with the prompt words `words`, the model answering as `model`; also
        how many replies were asked for. */
    method Run(model: Model, words: seq<string>) returns (outcome: Outcome<string>, turns: nat)
      requires Ready()
      modifies this, fs
      ensures var r := RunSpec(gen, model, old(fs.entries), words);
              outcome == r.outcome && messages == r.messages && fs.entries == r.entries && turns == |r.replies|
    {
      messages := InitialMessages(words);
      ghost var goal := RunSpec(gen, model, old(fs.entries), words);
      ghost var replies: seq<Response> := [];
      var lastHadFunctionCalls := false;
      var lastResponseText: Option<string> := None;
      var i := 0;
      while i < MaxTurns
        invariant i == |replies| <= MaxTurns
        invariant goal == Loop(gen, model, replies, messages, fs.entries, lastHadFunctionCalls, lastResponseText)
      {
        var stop, response;
        stop, outcome, lastHadFunctionCalls, lastResponseText, response :=
          Step(model, i, replies, lastHadFunctionCalls, lastResponseText);
        replies := replies + [response];
        if stop {
          return outcome, i + 1;
        }
        i := i + 1;
      }
      return Raised(MaxIterationsError(lastHadFunctionCalls, lastResponseText)), MaxTurns;
    }
  }
}
