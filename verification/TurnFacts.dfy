/** What a turn says, message by message and field by field, without the loop's own helpers
    (internal/runtime/orchestrator.go). */
module TurnFacts {
  import opened Outcomes
  import opened GoStrings
  import opened Orchestrator

  // ---- the opening ----

  /** The input conversation, then the system prompt if there is one and the conversation has no system message, then the
      user's message. */
  lemma OpeningIs(input: TurnInput)
    ensures
      var user := Message("user", input.userMessage, "", "", None);
      var prompted := input.systemPrompt != "" && forall i :: 0 <= i < |input.conversation| ==> input.conversation[i].role != "system";
      Opened(input) ==
        if prompted then input.conversation + [Message("system", input.systemPrompt, "", "", None), user]
        else input.conversation + [user]
  {
  }

  // ---- what the provider is asked and what is taken from its answer ----

  /** The conversation shown on a call: with retrieval context it is inserted as a system message before the user's
      message, which is last on the first call only. */
  function Asked(conversation: seq<Message>, first: bool, retrieval: Option<string>): seq<Message>
    requires conversation != []
  {
    var n := |conversation| - 1;
    if retrieval.Some? && first then conversation[..n] + [Message("system", retrieval.value, "", "", None), conversation[n]]
    else conversation
  }

  /** The response that is kept: the provider's, with the role, the stop reason and the list of tool calls filled in where
      they are missing. */
  predicate TakenFrom(kept: ProviderResponse, given: ProviderResponse)
  {
    && kept.toolCalls == given.toolCalls && kept.usage == given.usage
    && kept.stopReason == (if given.stopReason != "" then given.stopReason else if given.toolCalls != [] then "tool_calls" else "complete")
    && kept.message.content == given.message.content
    && kept.message.toolCallID == given.message.toolCallID && kept.message.toolName == given.message.toolName
    && kept.message.role == (if given.message.role != "" then given.message.role else "assistant")
    && kept.message.toolCalls ==
       (if given.message.toolCalls.None? && given.toolCalls != [] then Some(given.toolCalls) else given.message.toolCalls)
  }

  lemma CompletedIs(r: ProviderResponse)
    ensures TakenFrom(Completed(r), r)
  {
  }

  /** Call k of a transcript: retrieval succeeds, the provider is shown the opening and the rounds before, and answers with
      the response of the round. */
  ghost predicate AskedAt(env: Env, provider: Provider, input: TurnInput, rounds: seq<Round>, k: nat)
    requires k < |rounds|
  {
    && env.retrieve(k).Ok?
    && var given := provider(k, Asked(Conversation(input, rounds[..k]), k == 0, env.retrieve(k).value));
    && given.Ok? && TakenFrom(rounds[k].response, given.value)
  }

  lemma {:induction false} RoundAsked(env: Env, provider: Provider, input: TurnInput, rounds: seq<Round>, out: TurnOutput, k: nat)
    requires Transcript(env, provider, input, rounds, out) && k < |rounds|
    ensures AskedAt(env, provider, input, rounds, k)
  {
    var before := rounds[..|rounds| - 1];
    if k < |before| {
      FullRoundAt(env, provider, Opened(input), before, k);
      assert before[..k] == rounds[..k];
    }
    var conversation := Conversation(input, rounds[..k]);
    assert Complete(env, provider, k, conversation) == Ok(rounds[k].response);
    if env.retrieve(k).value.Some? {
      ShownAt(env, provider, input, rounds, out, k, env.retrieve(k).value.value);
      if k == 0 {
        assert Conversation(input, rounds[..0]) == Opened(input);
      }
    }
    CompletedIs(provider(k, Shown(env, k, conversation).value).value);
  }

  // ---- the output ----

  /** The results of a round: id, name, output and failure of each. */
  predicate ResultFor(r: ToolResult, call: ToolCall, d: Dispatched)
  {
    && r.callID == (if d.result.callID != "" then d.result.callID else call.id)
    && r.name == (if d.result.name != "" then d.result.name else call.name)
    && r.output == (if d.result.output != "" then d.result.output else if d.error.Some? then d.error.value else "")
    && (r.isError <==> d.error.Some? || d.result.isError)
  }

  lemma NormalizedIs(d: Dispatched, call: ToolCall)
    ensures ResultFor(NormalizedResult(d, call), call, d)
  {
  }

  function CallsIn(rounds: seq<Round>): (css: seq<seq<ToolCall>>)
  {
    seq(|rounds|, i requires 0 <= i < |rounds| => rounds[i].response.toolCalls)
  }

  function ResultsIn(rounds: seq<Round>): (rss: seq<seq<ToolResult>>)
  {
    seq(|rounds|, i requires 0 <= i < |rounds| => rounds[i].results)
  }

  lemma {:induction false} ListsAre(rounds: seq<Round>)
    ensures AllCalls(rounds) == Flatten(CallsIn(rounds)) && AllResults(rounds) == Flatten(ResultsIn(rounds))
  {
    if rounds != [] {
      var front := rounds[..|rounds| - 1];
      ListsAre(front);
      assert CallsIn(rounds)[..|rounds| - 1] == CallsIn(front) && ResultsIn(rounds)[..|rounds| - 1] == ResultsIn(front);
    }
  }

  /** A turn that succeeds in its loop: the text, stop reason and usage of the last response, unless calls are left
      undone at the limit, and the calls and results of all rounds, each result that of its call. */
  lemma {:induction false} OutputIs(env: Env, provider: Provider, input: TurnInput, rounds: seq<Round>, out: TurnOutput)
    requires Transcript(env, provider, input, rounds, out)
    ensures 1 <= |rounds| <= (if input.maxToolIterations > 0 then input.maxToolIterations else 1)
    ensures
      var last := rounds[|rounds| - 1].response;
      && out.assistantText == last.message.content && out.usage == last.usage
      && out.stopReason == (if last.toolCalls == [] then last.stopReason else "max_turns")
      && (last.toolCalls != [] ==> |rounds| == if input.maxToolIterations > 0 then input.maxToolIterations else 1)
    ensures out.toolCalls == Flatten(CallsIn(rounds)) && out.toolResults == Flatten(ResultsIn(rounds))
    ensures rounds[|rounds| - 1].results == []
  {
    FinalLists(input, rounds);
    ListsAre(rounds);
  }

  lemma {:induction false} FinalLists(input: TurnInput, rounds: seq<Round>)
    requires rounds != [] && rounds[|rounds| - 1].results == []
    ensures
      var out := FinalOutput(input, rounds[..|rounds| - 1], rounds[|rounds| - 1].response);
      out.toolCalls == AllCalls(rounds) && out.toolResults == AllResults(rounds)
  {
  }

  /** Every round but the last has the results of all its calls. */
  lemma {:induction false} RoundResults(env: Env, provider: Provider, input: TurnInput, rounds: seq<Round>, out: TurnOutput, k: nat)
    requires Transcript(env, provider, input, rounds, out) && k < |rounds| - 1
    ensures env.dispatcher.Some? && ResultsAt(env.dispatcher.value, rounds, k)
  {
    FullBefore(env, provider, input, rounds, out, k);
    ResultsAnswer(env, rounds, k);
  }

  /** Round k has one result per call, each from the dispatcher's answer to it. */
  ghost predicate ResultsAt(dispatcher: Dispatcher, rounds: seq<Round>, k: nat)
    requires k < |rounds|
  {
    && |rounds[k].results| == |rounds[k].response.toolCalls|
    && forall i :: 0 <= i < |rounds[k].results| ==>
         ResultFor(rounds[k].results[i], rounds[k].response.toolCalls[i], AnswerTo(dispatcher, rounds, k, i))
  }

  lemma ResultsAnswer(env: Env, rounds: seq<Round>, k: nat)
    requires k < |rounds| && Dispatches(env, rounds[..k], rounds[k])
    ensures ResultsAt(env.dispatcher.value, rounds, k)
  {
    forall i | 0 <= i < |rounds[k].results|
      ensures ResultFor(rounds[k].results[i], rounds[k].response.toolCalls[i], AnswerTo(env.dispatcher.value, rounds, k, i))
    {
      NormalizedIs(AnswerTo(env.dispatcher.value, rounds, k, i), rounds[k].response.toolCalls[i]);
    }
  }

  // ---- turns that do not succeed in the loop ----

  /** Without a provider the turn answers at once. */
  lemma WithoutProvider(env: Env, input: TurnInput)
    requires !env.cancelled(0) && env.provider.None?
    ensures
      var text := if Blank(input.userMessage) then "No input provided." else "Echo: " + TrimSpace(input.userMessage);
      Turn(env, input) == Done(TurnOutput(text, Opened(input) + [Message("assistant", text, "", "", None)], [], [], "complete", 0))
  {
    TrimSpaceEmpty(input.userMessage);
  }

  /** A cancelled turn returns the conversation so far and what the rounds have produced. */
  ghost predicate CancelledWith(partial: TurnOutput, input: TurnInput, rounds: seq<Round>)
  {
    && partial.messages == Conversation(input, rounds) && partial.stopReason == "cancelled"
    && partial.toolCalls == Flatten(CallsIn(rounds)) && partial.toolResults == Flatten(ResultsIn(rounds))
    && (rounds == [] ==> partial.assistantText == "" && partial.usage == 0)
    && (rounds != [] ==>
          var last := rounds[|rounds| - 1].response; partial.assistantText == last.message.content && partial.usage == last.usage)
  }

  lemma {:induction false} CancelledIs(env: Env, input: TurnInput)
    requires Turn(env, input).Cancelled?
    ensures env.cancelled(0) ==> CancelledWith(Turn(env, input).partial, input, [])
    ensures !env.cancelled(0) ==> Looped(env) && exists rounds ::
      CancelledAfter(env, env.provider.value, input, rounds) && CancelledWith(Turn(env, input).partial, input, rounds)
  {
    ListsAre([]);
    if !env.cancelled(0) {
      var rounds := LoopEnds(env, env.provider.value, input, []);
      ListsAre(rounds);
      OutputLists(input, rounds);
      assert CancelledAfter(env, env.provider.value, input, rounds);
      assert CancelledWith(Turn(env, input).partial, input, rounds);
    }
  }

  /** The error with which the loop ends after these rounds. */
  ghost predicate FailsWith(env: Env, provider: Provider, input: TurnInput, rounds: seq<Round>, error: string)
  {
    && |rounds| < (if input.maxToolIterations > 0 then input.maxToolIterations else 1)
    && Reached(env, provider, input, rounds) && !env.cancelled(ChecksAt(rounds))
    && if env.retrieve(|rounds|).Err? then error == env.retrieve(|rounds|).error
       else
         var given := provider(|rounds|, Asked(Conversation(input, rounds), rounds == [], env.retrieve(|rounds|).value));
         if given.Err? then error == given.error
         else
           && given.value.toolCalls != []
           && |rounds| + 1 < (if input.maxToolIterations > 0 then input.maxToolIterations else 1)
           && if env.dispatcher.None? then error == "no tool dispatcher configured"
              else
                && error == "cancelled"
                && exists k :: ChecksAt(rounds) + 1 <= k < ChecksAt(rounds) + 1 + |given.value.toolCalls| && env.cancelled(k)
  }

  lemma {:induction false} AskedIs(env: Env, provider: Provider, input: TurnInput, rounds: seq<Round>)
    requires Reached(env, provider, input, rounds) && env.retrieve(|rounds|).Ok?
    ensures Shown(env, |rounds|, Conversation(input, rounds)) == Ok(Asked(Conversation(input, rounds), rounds == [], env.retrieve(|rounds|).value))
  {
    if rounds == [] {
      assert Conversation(input, rounds) == Opened(input);
    } else {
      ReachedAreFull(env, provider, input, rounds);
      FullRoundAt(env, provider, Opened(input), rounds, |rounds| - 1);
      LastIsTool(input, rounds);
    }
  }

  lemma {:induction false} PassFails(env: Env, provider: Provider, input: TurnInput, rounds: seq<Round>, error: string)
    requires Reached(env, provider, input, rounds) && |rounds| < Limit(input)
    ensures Pass(env, provider, input, rounds) == Ends(Failed(error)) <==> FailsWith(env, provider, input, rounds, error)
  {
    if env.retrieve(|rounds|).Ok? {
      AskedIs(env, provider, input, rounds);
      var given := provider(|rounds|, Asked(Conversation(input, rounds), rounds == [], env.retrieve(|rounds|).value));
      if given.Ok? {
        CompletedIs(given.value);
        DispatchFails(env, rounds, Completed(given.value), error);
      }
    }
  }

  lemma DispatchFails(env: Env, rounds: seq<Round>, response: ProviderResponse, error: string)
    ensures AfterDispatch(env, rounds, response) == Ends(Failed(error)) <==>
      if env.dispatcher.None? then error == "no tool dispatcher configured"
      else
        && error == "cancelled"
        && exists k :: ChecksAt(rounds) + 1 <= k < ChecksAt(rounds) + 1 + |response.toolCalls| && env.cancelled(k)
  {
  }

  /** A turn fails with this error if and only if it is that of listing the tools, or the loop ends with it after some
      completed rounds: retrieval's, the provider's, the missing dispatcher's or the cancellation's. */
  lemma FailsWithIff(env: Env, input: TurnInput, error: string)
    ensures Turn(env, input) == Failed(error) <==>
      && !env.cancelled(0) && env.provider.Some?
      && if env.listTools.Some? then env.listTools.value == error
         else exists rounds :: FailsWith(env, env.provider.value, input, rounds, error)
  {
    if Looped(env) {
      if Turn(env, input) == Failed(error) {
        var rounds := LoopEnds(env, env.provider.value, input, []);
        PassFails(env, env.provider.value, input, rounds, error);
      }
      forall rounds | FailsWith(env, env.provider.value, input, rounds, error)
        ensures Turn(env, input) == Failed(error)
      {
        PassFails(env, env.provider.value, input, rounds, error);
        ReachedLoops(env, env.provider.value, input, rounds);
      }
    }
  }
}
