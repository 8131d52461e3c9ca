/** The agent's tool-calling loop (internal/runtime/orchestrator.go). */
module Orchestrator {
  import opened Outcomes
  import opened GoStrings

  const ROLE_SYSTEM: string := "system"
  const ROLE_USER: string := "user"
  const ROLE_ASSISTANT: string := "assistant"
  const ROLE_TOOL: string := "tool"

  const STOP_COMPLETE: string := "complete"
  const STOP_TOOL_CALLS: string := "tool_calls"
  const STOP_MAX_TURNS: string := "max_turns"
  const STOP_CANCELLED: string := "cancelled"

  datatype ToolCall = ToolCall(id: string, name: string, arguments: string)

  /** The tool calls of a message are absent or a list. */
  datatype Message = Message(role: string, content: string, toolCallID: string, toolName: string, toolCalls: Option<seq<ToolCall>>)

  datatype ToolResult = ToolResult(callID: string, name: string, output: string, isError: bool)

  datatype ProviderResponse = ProviderResponse(message: Message, toolCalls: seq<ToolCall>, stopReason: string, usage: int)

  /** What the dispatcher returns for a call, with or without an error. */
  datatype Dispatched = Dispatched(result: ToolResult, error: Option<string>)

  datatype TurnInput = TurnInput(userMessage: string, conversation: seq<Message>, systemPrompt: string, maxToolIterations: int)

  datatype TurnOutput = TurnOutput(
    assistantText: string,
    messages: seq<Message>,
    toolCalls: seq<ToolCall>,
    toolResults: seq<ToolResult>,
    stopReason: string,
    usage: int)

  datatype TurnResult = Done(output: TurnOutput) | Cancelled(partial: TurnOutput) | Failed(error: string)

  type Provider = (nat, seq<Message>) -> Result<ProviderResponse>
  type Dispatcher = (nat, ToolCall) -> Dispatched

  /** Everything outside the loop. The provider, the dispatcher and the retriever may answer differently on
      every call, and the context may be cancelled at any of its checks. */
  datatype Env = Env(
    provider: Option<Provider>,
    dispatcher: Option<Dispatcher>,
    retrieve: nat -> Result<Option<string>>,
    listTools: Option<string>,
    cancelled: nat -> bool)

  // ---- conversations ----

  function Say(role: string, content: string): Message
  {
    Message(role, content, "", "", None)
  }

  predicate HasSystem(ms: seq<Message>)
  {
    exists i :: 0 <= i < |ms| && ms[i].role == ROLE_SYSTEM
  }

  method HasSystemMessage(messages: seq<Message>) returns (found: bool)
    ensures found == HasSystem(messages)
  {
    for i := 0 to |messages|
      invariant forall k :: 0 <= k < i ==> messages[k].role != ROLE_SYSTEM
    {
      if messages[i].role == ROLE_SYSTEM {
        return true;
      }
    }
    return false;
  }

  /** appendConversation: a system prompt only if there is none yet, then the user's message. */
  function Opened(input: TurnInput): (ms: seq<Message>)
    ensures input.conversation <= ms && |ms| > 0 && ms[|ms| - 1] == Say(ROLE_USER, input.userMessage)
  {
    (if input.systemPrompt != "" && !HasSystem(input.conversation) then input.conversation + [Say(ROLE_SYSTEM, input.systemPrompt)]
     else input.conversation) + [Say(ROLE_USER, input.userMessage)]
  }

  method AppendConversation(input: TurnInput) returns (conversation: seq<Message>)
    ensures conversation == Opened(input)
  {
    conversation := input.conversation;
    var found := HasSystemMessage(conversation);
    if input.systemPrompt != "" && !found {
      conversation := conversation + [Say(ROLE_SYSTEM, input.systemPrompt)];
    }
    conversation := conversation + [Say(ROLE_USER, input.userMessage)];
  }

  /** injectRetrievalMessage: before a closing user message, nowhere else. */
  function Injected(conversation: seq<Message>, retrieval: string): seq<Message>
  {
    if conversation == [] then [Say(ROLE_SYSTEM, retrieval)]
    else
      var n := |conversation| - 1;
      if conversation[n].role != ROLE_USER then conversation
      else conversation[..n] + [Say(ROLE_SYSTEM, retrieval), conversation[n]]
  }

  /** What the provider is shown on its k-th call. */
  function Shown(env: Env, k: nat, conversation: seq<Message>): Result<seq<Message>>
  {
    var retrieval :- env.retrieve(k);
    Ok(if retrieval.Some? then Injected(conversation, retrieval.value) else conversation)
  }

  /** completeTurn's defaults for what the provider left out. */
  function Completed(r: ProviderResponse): ProviderResponse
  {
    var message := r.message.(
      role := if r.message.role == "" then ROLE_ASSISTANT else r.message.role,
      toolCalls := if r.message.toolCalls.None? && r.toolCalls != [] then Some(r.toolCalls) else r.message.toolCalls);
    r.(message := message,
       stopReason := if r.stopReason != "" then r.stopReason else if r.toolCalls != [] then STOP_TOOL_CALLS else STOP_COMPLETE)
  }

  function Complete(env: Env, provider: Provider, k: nat, conversation: seq<Message>): Result<ProviderResponse>
  {
    var shown :- Shown(env, k, conversation);
    var response :- provider(k, shown);
    Ok(Completed(response))
  }

  // ---- tool results ----

  /** normalizeToolResult */
  function NormalizedResult(d: Dispatched, call: ToolCall): (r: ToolResult)
    ensures r.callID == (if d.result.callID == "" then call.id else d.result.callID)
    ensures d.error.Some? ==> r.isError
  {
    ToolResult(
      if d.result.callID == "" then call.id else d.result.callID,
      if d.result.name == "" then call.name else d.result.name,
      if d.result.output == "" && d.error.Some? then d.error.value else d.result.output,
      d.error.Some? || d.result.isError)
  }

  /** The results of calls dispatched in order, the first being the n-th dispatch of the turn. */
  function ResultsOf(dispatcher: Dispatcher, n: nat, calls: seq<ToolCall>): (rs: seq<ToolResult>)
    ensures |rs| == |calls|
  {
    seq(|calls|, i requires 0 <= i < |calls| => NormalizedResult(dispatcher(n + i, calls[i]), calls[i]))
  }

  function ResultContent(r: ToolResult): string
  {
    if r.output != "" then r.output else if r.isError then "tool execution failed" else ""
  }

  function ToolMessage(r: ToolResult): Message
  {
    Message(ROLE_TOOL, ResultContent(r), r.callID, r.name, None)
  }

  function ToolMessages(rs: seq<ToolResult>): (ms: seq<Message>)
    ensures |ms| == |rs|
  {
    seq(|rs|, i requires 0 <= i < |rs| => ToolMessage(rs[i]))
  }

  // ---- rounds ----

  /** One provider call, and the results of its tool calls if they were dispatched. */
  datatype Round = Round(response: ProviderResponse, results: seq<ToolResult>)

  function Rendered(rounds: seq<Round>): seq<Message>
  {
    if rounds == [] then []
    else
      var last := rounds[|rounds| - 1];
      Rendered(rounds[..|rounds| - 1]) + ([last.response.message] + ToolMessages(last.results))
  }

  function AllCalls(rounds: seq<Round>): seq<ToolCall>
  {
    if rounds == [] then [] else AllCalls(rounds[..|rounds| - 1]) + rounds[|rounds| - 1].response.toolCalls
  }

  function AllResults(rounds: seq<Round>): seq<ToolResult>
  {
    if rounds == [] then [] else AllResults(rounds[..|rounds| - 1]) + rounds[|rounds| - 1].results
  }

  /** The round is what the provider answered to the conversation of the rounds before. */
  ghost predicate Answers(env: Env, provider: Provider, base: seq<Message>, before: seq<Round>, round: Round)
  {
    Complete(env, provider, |before|, base + Rendered(before)) == Ok(round.response)
  }

  /** Its tool calls were all dispatched, in order, exactly once. */
  ghost predicate Dispatches(env: Env, before: seq<Round>, round: Round)
  {
    && round.response.toolCalls != [] && env.dispatcher.Some?
    && round.results == ResultsOf(env.dispatcher.value, |AllResults(before)|, round.response.toolCalls)
  }

  /** Rounds that all ended with dispatched tool calls. */
  ghost predicate FullRounds(env: Env, provider: Provider, base: seq<Message>, rounds: seq<Round>)
  {
    rounds == [] ||
    var before, last := rounds[..|rounds| - 1], rounds[|rounds| - 1];
    FullRounds(env, provider, base, before) && Answers(env, provider, base, before, last) && Dispatches(env, before, last)
  }

  lemma {:induction false} RoundsSnoc(rounds: seq<Round>, round: Round)
    ensures Rendered(rounds + [round]) == Rendered(rounds) + ([round.response.message] + ToolMessages(round.results))
    ensures AllCalls(rounds + [round]) == AllCalls(rounds) + round.response.toolCalls
    ensures AllResults(rounds + [round]) == AllResults(rounds) + round.results
  {
    assert (rounds + [round])[..|rounds|] == rounds;
  }

  /** The limit on provider calls. */
  function Limit(input: TurnInput): nat
  {
    if input.maxToolIterations <= 0 then 1 else input.maxToolIterations
  }

  /** How a turn that succeeded came about: full rounds, then one whose calls, if any, were not dispatched. */
  ghost predicate Transcript(env: Env, provider: Provider, input: TurnInput, rounds: seq<Round>, out: TurnOutput)
  {
    && 1 <= |rounds| <= Limit(input)
    && var before, last := rounds[..|rounds| - 1], rounds[|rounds| - 1];
    && FullRounds(env, provider, Opened(input), before) && Answers(env, provider, Opened(input), before, last) && last.results == []
    && (last.response.toolCalls == [] || |rounds| == Limit(input))
    && out == FinalOutput(input, before, last.response)
  }

  // ---- a turn as a function of what is outside the loop ----

  const NOTHING: TurnOutput := TurnOutput("", [], [], [], "", 0)
  const NO_DISPATCHER: string := "no tool dispatcher configured"
  const CANCELLED: string := "cancelled"

  function Conversation(input: TurnInput, rounds: seq<Round>): seq<Message>
  {
    Opened(input) + Rendered(rounds)
  }

  /** How often the context was checked when these rounds were completed. */
  function ChecksAt(rounds: seq<Round>): nat
  {
    1 + |rounds| + |AllResults(rounds)|
  }

  /** The output so far. */
  function OutputAfter(input: TurnInput, rounds: seq<Round>): TurnOutput
  {
    if rounds == [] then NOTHING
    else
      var last := rounds[|rounds| - 1].response;
      TurnOutput(last.message.content, Conversation(input, rounds), AllCalls(rounds), AllResults(rounds), last.stopReason, last.usage)
  }

  function CancelledOutput(input: TurnInput, rounds: seq<Round>): TurnOutput
  {
    OutputAfter(input, rounds).(messages := Conversation(input, rounds), stopReason := STOP_CANCELLED)
  }

  function FinalOutput(input: TurnInput, rounds: seq<Round>, last: ProviderResponse): TurnOutput
  {
    TurnOutput(last.message.content, Conversation(input, rounds) + [last.message], AllCalls(rounds) + last.toolCalls, AllResults(rounds),
               if last.toolCalls == [] then last.stopReason else STOP_MAX_TURNS, last.usage)
  }

  predicate CancelledWithin(env: Env, from: nat, to: nat)
  {
    exists k :: from <= k < to && env.cancelled(k)
  }

  /** One pass through the loop ends the turn or adds a full round. */
  datatype Verdict = Ends(result: TurnResult) | Goes(round: Round)

  function Pass(env: Env, provider: Provider, input: TurnInput, rounds: seq<Round>): (v: Verdict)
    ensures v.Goes? ==> |rounds| + 1 < Limit(input)
  {
    if env.cancelled(ChecksAt(rounds)) then Ends(Cancelled(CancelledOutput(input, rounds)))
    else
      var completed := Complete(env, provider, |rounds|, Conversation(input, rounds));
      if completed.Err? then Ends(Failed(completed.error))
      else if completed.value.toolCalls == [] || |rounds| + 1 >= Limit(input) then Ends(Done(FinalOutput(input, rounds, completed.value)))
      else AfterDispatch(env, rounds, completed.value)
  }

  function AfterDispatch(env: Env, rounds: seq<Round>, response: ProviderResponse): Verdict
  {
    if env.dispatcher.None? then Ends(Failed(NO_DISPATCHER))
    else if CancelledWithin(env, ChecksAt(rounds) + 1, ChecksAt(rounds) + 1 + |response.toolCalls|) then Ends(Failed(CANCELLED))
    else Goes(Round(response, ResultsOf(env.dispatcher.value, |AllResults(rounds)|, response.toolCalls)))
  }

  function Loop(env: Env, provider: Provider, input: TurnInput, rounds: seq<Round>): TurnResult
    requires |rounds| < Limit(input)
    decreases Limit(input) - |rounds|
  {
    match Pass(env, provider, input, rounds)
    case Ends(result) => result
    case Goes(round) => Loop(env, provider, input, rounds + [round])
  }

  function Fallback(input: TurnInput): string
  {
    if TrimSpace(input.userMessage) == "" then "No input provided." else "Echo: " + TrimSpace(input.userMessage)
  }

  function Turn(env: Env, input: TurnInput): TurnResult
  {
    if env.cancelled(0) then Cancelled(CancelledOutput(input, []))
    else if env.provider.None? then
      Done(TurnOutput(Fallback(input), Opened(input) + [Say(ROLE_ASSISTANT, Fallback(input))], [], [], STOP_COMPLETE, 0))
    else if env.listTools.Some? then Failed(env.listTools.value)
    else Loop(env, env.provider.value, input, [])
  }

  // ---- the loop as it runs ----

  method DispatchToolCalls(env: Env, dispatched: nat, calls: seq<ToolCall>, checks: nat)
    returns (r: Result<seq<ToolResult>>, checks': nat)
    ensures r.Ok? ==> env.dispatcher.Some? && r.value == ResultsOf(env.dispatcher.value, dispatched, calls) && checks' == checks + |calls|
    ensures r.Err? <==> env.dispatcher.None? || CancelledWithin(env, checks, checks + |calls|)
    ensures r.Err? ==> r.error == if env.dispatcher.None? then NO_DISPATCHER else CANCELLED
  {
    checks' := checks;
    if env.dispatcher.None? {
      return Err(NO_DISPATCHER), checks';
    }
    var results: seq<ToolResult> := [];
    for i := 0 to |calls|
      invariant |results| == i && checks' == checks + i
      invariant forall k :: 0 <= k < i ==> results[k] == ResultsOf(env.dispatcher.value, dispatched, calls)[k]
      invariant forall k :: checks <= k < checks + i ==> !env.cancelled(k)
    {
      if env.cancelled(checks') {
        return Err(CANCELLED), checks';
      }
      checks' := checks' + 1;
      var d := env.dispatcher.value(dispatched + i, calls[i]);
      results := results + [NormalizedResult(d, calls[i])];
    }
    return Ok(results), checks';
  }

  method AppendToolMessages(conversation: seq<Message>, results: seq<ToolResult>) returns (all: seq<Message>)
    ensures all == conversation + ToolMessages(results)
  {
    all := conversation;
    for i := 0 to |results|
      invariant all == conversation + ToolMessages(results[..i])
    {
      assert ToolMessages(results[..i + 1]) == ToolMessages(results[..i]) + [ToolMessage(results[i])];
      all := all + [ToolMessage(results[i])];
    }
    assert results[..|results|] == results;
  }

  /** completeTurn */
  method CompleteTurn(env: Env, provider: Provider, k: nat, conversation: seq<Message>) returns (r: Result<ProviderResponse>, called: bool)
    ensures r == Complete(env, provider, k, conversation)
    ensures called <==> Shown(env, k, conversation).Ok?
  {
    var shown := Shown(env, k, conversation);
    if shown.Err? {
      return Err(shown.error), false;
    }
    var response := provider(k, shown.value);
    if response.Err? {
      return Err(response.error), true;
    }
    return Ok(Completed(response.value)), true;
  }

  /** The variables of the loop when these rounds are completed. */
  datatype LoopState = LoopState(conversation: seq<Message>, output: TurnOutput, checks: nat)

  function StateAt(input: TurnInput, rounds: seq<Round>): LoopState
  {
    LoopState(Conversation(input, rounds), OutputAfter(input, rounds), ChecksAt(rounds))
  }

  lemma {:induction false} OutputLists(input: TurnInput, rounds: seq<Round>)
    ensures OutputAfter(input, rounds).toolCalls == AllCalls(rounds) && OutputAfter(input, rounds).toolResults == AllResults(rounds)
  {
  }

  lemma Regroup(a: seq<Message>, b: seq<Message>, m: Message, c: seq<Message>)
    ensures a + (b + ([m] + c)) == a + b + [m] + c
  {
  }

  lemma NextState(input: TurnInput, rounds: seq<Round>, round: Round)
    ensures
      var s, m := StateAt(input, rounds), round.response.message;
      var conversation := s.conversation + [m] + ToolMessages(round.results);
      StateAt(input, rounds + [round]) == LoopState(
        conversation,
        TurnOutput(m.content, conversation, s.output.toolCalls + round.response.toolCalls, s.output.toolResults + round.results,
                   round.response.stopReason, round.response.usage),
        s.checks + 1 + |round.results|)
  {
    RoundsSnoc(rounds, round);
    OutputLists(input, rounds);
    Regroup(Opened(input), Rendered(rounds), round.response.message, ToolMessages(round.results));
  }

  /** One pass through the loop: a provider call and, unless the turn ends, its tool calls. */
  method OneRound(env: Env, provider: Provider, input: TurnInput, ghost rounds: seq<Round>, s: LoopState, iteration: nat)
    returns (result: Option<TurnResult>, next: LoopState, called: bool)
    requires iteration == |rounds| && s == StateAt(input, rounds)
    ensures result.Some? ==> Pass(env, provider, input, rounds) == Ends(result.value)
    ensures result.None? ==> called
    ensures result.None? ==>
      Pass(env, provider, input, rounds).Goes? && next == StateAt(input, rounds + [Pass(env, provider, input, rounds).round])
    ensures result.Some? && result.value.Done? ==> called
  {
    OutputLists(input, rounds);
    if env.cancelled(s.checks) {
      return Some(Cancelled(s.output.(messages := s.conversation, stopReason := STOP_CANCELLED))), s, false;
    }
    var completed;
    completed, called := CompleteTurn(env, provider, iteration, s.conversation);
    if completed.Err? {
      return Some(Failed(completed.error)), s, called;
    }
    var response := completed.value;
    var conversation := s.conversation + [response.message];
    var output := TurnOutput(response.message.content, conversation, s.output.toolCalls + response.toolCalls, s.output.toolResults,
                             response.stopReason, response.usage);
    if response.toolCalls == [] {
      return Some(Done(output)), s, called;
    }
    if iteration + 1 >= Limit(input) {
      return Some(Done(output.(stopReason := STOP_MAX_TURNS))), s, called;
    }
    var dispatched, checks := DispatchToolCalls(env, |output.toolResults|, response.toolCalls, s.checks + 1);
    if dispatched.Err? {
      return Some(Failed(dispatched.error)), s, called;
    }
    NextState(input, rounds, Round(response, dispatched.value));
    var all := AppendToolMessages(conversation, dispatched.value);
    return None, LoopState(all, output.(toolResults := output.toolResults + dispatched.value, messages := all), checks), called;
  }

  /** The loop of a turn. */
  method Iterate(env: Env, provider: Provider, input: TurnInput, start: seq<Message>)
    returns (r: TurnResult, providerCalls: nat, ghost rounds: seq<Round>)
    requires start == Opened(input)
    ensures r == Loop(env, provider, input, [])
    ensures providerCalls <= Limit(input) && Reached(env, provider, input, rounds)
    ensures |rounds| < Limit(input) && Pass(env, provider, input, rounds) == Ends(r)
    ensures r.Done? ==> providerCalls == |rounds| + 1
  {
    var s, iteration := LoopState(start, NOTHING, 1), 0;
    providerCalls, rounds := 0, [];
    assert s == StateAt(input, rounds);
    while true
      invariant iteration == providerCalls == |rounds| < Limit(input)
      invariant s == StateAt(input, rounds) && Reached(env, provider, input, rounds)
      invariant Loop(env, provider, input, rounds) == Loop(env, provider, input, [])
      decreases Limit(input) - iteration
    {
      var result, next, called := OneRound(env, provider, input, rounds, s, iteration);
      providerCalls := if called then providerCalls + 1 else providerCalls;
      if result.Some? {
        return result.value, providerCalls, rounds;
      }
      ReachedSnoc(env, provider, input, rounds);
      rounds := rounds + [Pass(env, provider, input, rounds).round];
      s, iteration := next, iteration + 1;
    }
  }

  /** The turn's result is the specified one; at most max(1, limit) provider calls are made, and a result of the loop
      comes from the rounds that were reached. */
  method RunTurn(env: Env, input: TurnInput) returns (r: TurnResult, providerCalls: nat, ghost rounds: seq<Round>)
    ensures r == Turn(env, input)
    ensures providerCalls <= (if input.maxToolIterations > 0 then input.maxToolIterations else 1)
    ensures r.Done? ==> providerCalls == if env.provider.None? then 0 else |rounds| + 1
    ensures Looped(env) ==>
      Reached(env, env.provider.value, input, rounds) && |rounds| < Limit(input) && Pass(env, env.provider.value, input, rounds) == Ends(r)
  {
    providerCalls, rounds := 0, [];
    var conversation := AppendConversation(input);
    if env.cancelled(0) {
      assert conversation == Conversation(input, []);
      return Cancelled(NOTHING.(messages := conversation, stopReason := STOP_CANCELLED)), providerCalls, rounds;
    }
    if env.provider.None? {
      var text := Fallback(input);
      r := Done(TurnOutput(text, conversation + [Say(ROLE_ASSISTANT, text)], [], [], STOP_COMPLETE, 0));
      return r, providerCalls, rounds;
    }
    if env.listTools.Some? {
      return Failed(env.listTools.value), providerCalls, rounds;
    }
    r, providerCalls, rounds := Iterate(env, env.provider.value, input, conversation);
  }

  // ---- when a turn succeeds, fails or is cancelled ----

  /** The loop is entered. */
  predicate Looped(env: Env)
  {
    !env.cancelled(0) && env.provider.Some? && env.listTools.None?
  }

  /** The loop completes these rounds. */
  ghost predicate Reached(env: Env, provider: Provider, input: TurnInput, rounds: seq<Round>)
  {
    rounds == [] ||
    var before, last := rounds[..|rounds| - 1], rounds[|rounds| - 1];
    Reached(env, provider, input, before) && Pass(env, provider, input, before) == Goes(last)
  }

  lemma {:induction false} ReachedSnoc(env: Env, provider: Provider, input: TurnInput, rounds: seq<Round>)
    requires Reached(env, provider, input, rounds) && Pass(env, provider, input, rounds).Goes?
    ensures Reached(env, provider, input, rounds + [Pass(env, provider, input, rounds).round])
  {
    var round := Pass(env, provider, input, rounds).round;
    assert (rounds + [round])[..|rounds|] == rounds;
  }

  lemma {:induction false} LoopStep(env: Env, provider: Provider, input: TurnInput, before: seq<Round>, last: Round)
    requires |before| + 1 < Limit(input) && Pass(env, provider, input, before) == Goes(last)
    ensures Loop(env, provider, input, before) == Loop(env, provider, input, before + [last])
  {
  }

  lemma {:induction false} ReachedLoops(env: Env, provider: Provider, input: TurnInput, rounds: seq<Round>)
    requires Reached(env, provider, input, rounds) && |rounds| < Limit(input)
    ensures Loop(env, provider, input, rounds) == Loop(env, provider, input, [])
  {
    if rounds != [] {
      var before, last := rounds[..|rounds| - 1], rounds[|rounds| - 1];
      assert rounds == before + [last];
      ReachedLoops(env, provider, input, before);
      LoopStep(env, provider, input, before, last);
    }
  }

  lemma {:induction false} LoopEnds(env: Env, provider: Provider, input: TurnInput, rounds: seq<Round>) returns (all: seq<Round>)
    requires Reached(env, provider, input, rounds) && |rounds| < Limit(input)
    ensures Reached(env, provider, input, all) && |all| < Limit(input)
    ensures Pass(env, provider, input, all) == Ends(Loop(env, provider, input, rounds))
    decreases Limit(input) - |rounds|
  {
    if Pass(env, provider, input, rounds).Ends? {
      all := rounds;
    } else {
      ReachedSnoc(env, provider, input, rounds);
      all := LoopEnds(env, provider, input, rounds + [Pass(env, provider, input, rounds).round]);
    }
  }

  /** The turn ends here with this result. */
  ghost predicate EndsAt(env: Env, input: TurnInput, rounds: seq<Round>, r: TurnResult)
  {
    && Looped(env) && |rounds| < Limit(input) && Reached(env, env.provider.value, input, rounds)
    && Pass(env, env.provider.value, input, rounds) == Ends(r)
  }

  /** A turn that enters the loop has a result if and only if it ends with it after some completed rounds. */
  lemma TurnEnds(env: Env, input: TurnInput, r: TurnResult)
    requires Looped(env)
    ensures Turn(env, input) == r <==> exists rounds :: EndsAt(env, input, rounds, r)
  {
    var all := LoopEnds(env, env.provider.value, input, []);
    assert EndsAt(env, input, all, Turn(env, input));
    forall rounds | EndsAt(env, input, rounds, r)
      ensures Turn(env, input) == r
    {
      ReachedLoops(env, env.provider.value, input, rounds);
    }
  }

  /** Why the loop fails after these rounds: retrieval or the provider fails, or the response has tool calls to
      dispatch and there is no dispatcher or the context is cancelled while they are dispatched. */
  ghost predicate FailsAfter(env: Env, provider: Provider, input: TurnInput, rounds: seq<Round>)
  {
    && |rounds| < Limit(input) && Reached(env, provider, input, rounds) && !env.cancelled(ChecksAt(rounds))
    && var completed := Complete(env, provider, |rounds|, Conversation(input, rounds));
    || completed.Err?
    || (&& completed.value.toolCalls != [] && |rounds| + 1 < Limit(input)
        && (|| env.dispatcher.None?
            || CancelledWithin(env, ChecksAt(rounds) + 1, ChecksAt(rounds) + 1 + |completed.value.toolCalls|)))
  }

  /** A turn fails if and only if its tools cannot be listed or the loop fails after some completed rounds. */
  lemma FailsIff(env: Env, input: TurnInput)
    ensures Turn(env, input).Failed? <==>
      && !env.cancelled(0) && env.provider.Some?
      && (env.listTools.Some? || exists rounds :: FailsAfter(env, env.provider.value, input, rounds))
  {
    if Looped(env) {
      if Turn(env, input).Failed? {
        var rounds := LoopEnds(env, env.provider.value, input, []);
        assert FailsAfter(env, env.provider.value, input, rounds);
      }
      forall rounds | FailsAfter(env, env.provider.value, input, rounds)
        ensures Turn(env, input).Failed?
      {
        ReachedLoops(env, env.provider.value, input, rounds);
      }
    }
  }

  /** The context is cancelled when these rounds have led back to the top of the loop. */
  ghost predicate CancelledAfter(env: Env, provider: Provider, input: TurnInput, rounds: seq<Round>)
  {
    |rounds| < Limit(input) && Reached(env, provider, input, rounds) && env.cancelled(ChecksAt(rounds))
  }

  /** A turn is cancelled if and only if the context is at the start or at the top of the loop. */
  lemma CancelledIff(env: Env, input: TurnInput)
    ensures Turn(env, input).Cancelled? <==>
      env.cancelled(0) || (Looped(env) && exists rounds :: CancelledAfter(env, env.provider.value, input, rounds))
  {
    if Looped(env) {
      if Turn(env, input).Cancelled? {
        var rounds := LoopEnds(env, env.provider.value, input, []);
        assert CancelledAfter(env, env.provider.value, input, rounds);
      }
      forall rounds | CancelledAfter(env, env.provider.value, input, rounds)
        ensures Turn(env, input).Cancelled?
      {
        ReachedLoops(env, env.provider.value, input, rounds);
      }
    }
  }

  // ---- what every transcript looks like ----

  lemma {:induction false} ReachedAreFull(env: Env, provider: Provider, input: TurnInput, rounds: seq<Round>)
    requires Reached(env, provider, input, rounds)
    ensures FullRounds(env, provider, Opened(input), rounds)
  {
    if rounds != [] {
      ReachedAreFull(env, provider, input, rounds[..|rounds| - 1]);
    }
  }

  lemma LastRound(env: Env, provider: Provider, input: TurnInput, before: seq<Round>, out: TurnOutput) returns (rounds: seq<Round>)
    requires FullRounds(env, provider, Opened(input), before) && |before| < Limit(input)
    requires Pass(env, provider, input, before) == Ends(Done(out))
    ensures Transcript(env, provider, input, rounds, out) && |rounds| == |before| + 1
  {
    var response := Complete(env, provider, |before|, Conversation(input, before)).value;
    rounds := before + [Round(response, [])];
    assert rounds[..|rounds| - 1] == before;
  }

  /** A turn of the loop that succeeds has a transcript. */
  lemma DoneHasTranscript(env: Env, input: TurnInput) returns (rounds: seq<Round>)
    requires Looped(env) && Turn(env, input).Done?
    ensures Transcript(env, env.provider.value, input, rounds, Turn(env, input).output)
  {
    var before := LoopEnds(env, env.provider.value, input, []);
    ReachedAreFull(env, env.provider.value, input, before);
    rounds := LastRound(env, env.provider.value, input, before, Turn(env, input).output);
  }

  lemma FinalMessages(input: TurnInput, rounds: seq<Round>)
    requires rounds != [] && rounds[|rounds| - 1].results == []
    ensures FinalOutput(input, rounds[..|rounds| - 1], rounds[|rounds| - 1].response).messages == Conversation(input, rounds)
  {
    var before, last := rounds[..|rounds| - 1], rounds[|rounds| - 1];
    assert ToolMessages(last.results) == [];
    Regroup(Opened(input), Rendered(before), last.response.message, []);
  }

  /** Where round k starts in the rendered messages. */
  function StartOf(rounds: seq<Round>, k: nat): nat
    requires k <= |rounds|
  {
    |Rendered(rounds[..k])|
  }

  lemma {:induction false} RenderedPrefix(rounds: seq<Round>, k: nat)
    requires k <= |rounds|
    ensures Rendered(rounds[..k]) <= Rendered(rounds)
    decreases |rounds|
  {
    if k == |rounds| {
      assert rounds[..k] == rounds;
    } else {
      var front := rounds[..|rounds| - 1];
      assert front[..k] == rounds[..k];
      RenderedPrefix(front, k);
    }
  }

  lemma Within(front: seq<Message>, round: Round, all: seq<Message>)
    requires front + ([round.response.message] + ToolMessages(round.results)) <= all
    ensures |front| + |round.results| < |all| && all[|front|] == round.response.message
    ensures forall i :: 0 <= i < |round.results| ==> all[|front| + 1 + i] == ToolMessage(round.results[i])
  {
    var part := front + ([round.response.message] + ToolMessages(round.results));
    assert forall i :: 0 <= i < |part| ==> part[i] == all[i];
  }

  /** Every added assistant message is followed by one tool message per dispatched call, in order. */
  lemma {:induction false} RoundAt(rounds: seq<Round>, k: nat)
    requires k < |rounds|
    ensures StartOf(rounds, k) + |rounds[k].results| < |Rendered(rounds)|
    ensures StartOf(rounds, k + 1) == StartOf(rounds, k) + 1 + |rounds[k].results|
    ensures Rendered(rounds)[StartOf(rounds, k)] == rounds[k].response.message
    ensures forall i :: 0 <= i < |rounds[k].results| ==>
      Rendered(rounds)[StartOf(rounds, k) + 1 + i] == ToolMessage(rounds[k].results[i])
  {
    RenderedStep(rounds, k);
    RenderedPrefix(rounds, k + 1);
    Within(Rendered(rounds[..k]), rounds[k], Rendered(rounds));
  }

  lemma RenderedStep(rounds: seq<Round>, k: nat)
    requires k < |rounds|
    ensures Rendered(rounds[..k + 1]) == Rendered(rounds[..k]) + ([rounds[k].response.message] + ToolMessages(rounds[k].results))
  {
    assert rounds[..k + 1] == rounds[..k] + [rounds[k]];
    RoundsSnoc(rounds[..k], rounds[k]);
  }

  lemma {:induction false} FullRoundAt(env: Env, provider: Provider, base: seq<Message>, rounds: seq<Round>, k: nat)
    requires FullRounds(env, provider, base, rounds) && k < |rounds|
    ensures Answers(env, provider, base, rounds[..k], rounds[k]) && Dispatches(env, rounds[..k], rounds[k])
    decreases |rounds|
  {
    var front := rounds[..|rounds| - 1];
    if k < |front| {
      assert front[..k] == rounds[..k];
      FullRoundAt(env, provider, base, front, k);
    }
  }

  /** Round k, where it stands in the output. */
  ghost predicate Placed(input: TurnInput, rounds: seq<Round>, out: TurnOutput, k: nat)
    requires k < |rounds|
  {
    var at := |Opened(input)| + StartOf(rounds, k);
    && at + |rounds[k].results| < |out.messages| && out.messages[at] == rounds[k].response.message
    && forall i :: 0 <= i < |rounds[k].results| ==> out.messages[at + 1 + i] == ToolMessage(rounds[k].results[i])
  }

  lemma RoundPlaced(input: TurnInput, rounds: seq<Round>, out: TurnOutput, k: nat)
    requires k < |rounds| && out.messages == Conversation(input, rounds)
    ensures Placed(input, rounds, out, k)
  {
    RoundAt(rounds, k);
    var base := |Opened(input)|;
    assert forall i :: 0 <= i < |Rendered(rounds)| ==> out.messages[base + i] == Rendered(rounds)[i];
  }

  lemma {:induction false} LaterStart(rounds: seq<Round>, j: nat, k: nat)
    requires j < k < |rounds|
    ensures StartOf(rounds, j) < StartOf(rounds, k)
    decreases k
  {
    RoundAt(rounds, k - 1);
    if j < k - 1 {
      LaterStart(rounds, j, k - 1);
    }
  }

  /** The last round's message is the last message, and no other round's is. */
  lemma LastPlace(input: TurnInput, rounds: seq<Round>, out: TurnOutput, k: nat)
    requires k < |rounds| && out.messages == Conversation(input, rounds) && rounds[|rounds| - 1].results == []
    ensures k == |rounds| - 1 <==> |Opened(input)| + StartOf(rounds, k) == |out.messages| - 1
  {
    var n := |rounds| - 1;
    RoundAt(rounds, n);
    assert rounds[..n + 1] == rounds;
    if k < n {
      LaterStart(rounds, k, n);
    }
  }

  /** The dispatcher's answer to call i of a round. */
  function AnswerTo(dispatcher: Dispatcher, rounds: seq<Round>, k: nat, i: nat): Dispatched
    requires k < |rounds| && i < |rounds[k].response.toolCalls|
  {
    dispatcher(|AllResults(rounds[..k])| + i, rounds[k].response.toolCalls[i])
  }

  /** The tool message for a call: id and name are the dispatcher's, or the call's where it left them out; the content is
      its output, otherwise the text of its error, otherwise a fixed text for failures, otherwise empty. So the message
      carries the call's own id exactly when the dispatcher returned no id or that one. */
  predicate Reports(m: Message, call: ToolCall, d: Dispatched)
  {
    && m.role == "tool" && m.toolCalls == None
    && m.toolCallID == (if d.result.callID != "" then d.result.callID else call.id)
    && m.toolName == (if d.result.name != "" then d.result.name else call.name)
    && (d.result.output != "" ==> m.content == d.result.output)
    && (d.result.output == "" && d.error.Some? && d.error.value != "" ==> m.content == d.error.value)
    && (d.result.output == "" && (d.error.None? || d.error.value == "") ==>
          m.content == if d.error.Some? || d.result.isError then "tool execution failed" else "")
    && (m.toolCallID == call.id <==> d.result.callID == "" || d.result.callID == call.id)
  }

  lemma ReportsAnswer(call: ToolCall, d: Dispatched)
    ensures Reports(ToolMessage(NormalizedResult(d, call)), call, d)
  {
  }

  /** Every call of a full round is reported once, in order. */
  lemma CallsReported(env: Env, input: TurnInput, rounds: seq<Round>, out: TurnOutput, k: nat)
    requires k < |rounds| && Placed(input, rounds, out, k) && Dispatches(env, rounds[..k], rounds[k])
    ensures |rounds[k].results| == |rounds[k].response.toolCalls| > 0
    ensures forall i :: 0 <= i < |rounds[k].response.toolCalls| ==>
      Reports(out.messages[|Opened(input)| + StartOf(rounds, k) + 1 + i], rounds[k].response.toolCalls[i],
              AnswerTo(env.dispatcher.value, rounds, k, i))
  {
    var at, calls, results := |Opened(input)| + StartOf(rounds, k), rounds[k].response.toolCalls, rounds[k].results;
    forall i | 0 <= i < |calls|
      ensures Reports(out.messages[at + 1 + i], calls[i], AnswerTo(env.dispatcher.value, rounds, k, i))
    {
      var d := AnswerTo(env.dispatcher.value, rounds, k, i);
      assert results[i] == NormalizedResult(d, calls[i]);
      assert out.messages[at + 1 + i] == ToolMessage(results[i]);
      ReportsAnswer(calls[i], d);
    }
  }

  lemma FullBefore(env: Env, provider: Provider, input: TurnInput, rounds: seq<Round>, out: TurnOutput, k: nat)
    requires Transcript(env, provider, input, rounds, out) && k < |rounds| - 1
    ensures Dispatches(env, rounds[..k], rounds[k])
  {
    var before := rounds[..|rounds| - 1];
    assert before[..k] == rounds[..k];
    FullRoundAt(env, provider, Opened(input), before, k);
  }

  /** A successful turn keeps the input conversation as a prefix; each added assistant message but the last has
      tool calls and is followed by exactly one tool message per call, in order, reporting that call. */
  lemma WellFormedTurn(env: Env, provider: Provider, input: TurnInput, rounds: seq<Round>, out: TurnOutput, k: nat)
    requires Transcript(env, provider, input, rounds, out) && k < |rounds|
    ensures input.conversation <= Opened(input) <= out.messages && out.messages == Conversation(input, rounds)
    ensures Placed(input, rounds, out, k)
    ensures k == |rounds| - 1 <==> |Opened(input)| + StartOf(rounds, k) == |out.messages| - 1
    ensures k < |rounds| - 1 ==> env.dispatcher.Some? && |rounds[k].results| == |rounds[k].response.toolCalls| > 0
    ensures k < |rounds| - 1 ==> forall i :: 0 <= i < |rounds[k].response.toolCalls| ==>
      Reports(out.messages[|Opened(input)| + StartOf(rounds, k) + 1 + i], rounds[k].response.toolCalls[i],
              AnswerTo(env.dispatcher.value, rounds, k, i))
  {
    FinalMessages(input, rounds);
    RoundPlaced(input, rounds, out, k);
    LastPlace(input, rounds, out, k);
    if k < |rounds| - 1 {
      FullBefore(env, provider, input, rounds, out, k);
      CallsReported(env, input, rounds, out, k);
    }
  }

  // ---- retrieval ----

  /** The message is the provider's or reports a tool result. */
  ghost predicate FromRound(round: Round, m: Message)
  {
    m == round.response.message || exists i :: 0 <= i < |round.results| && m == ToolMessage(round.results[i])
  }

  lemma {:induction false} RenderedFrom(rounds: seq<Round>, m: Message)
    requires m in Rendered(rounds)
    ensures exists k :: 0 <= k < |rounds| && FromRound(rounds[k], m)
  {
    var n := |rounds| - 1;
    var tail := [rounds[n].response.message] + ToolMessages(rounds[n].results);
    if m in tail {
      var i :| 0 <= i < |tail| && tail[i] == m;
      assert i > 0 ==> m == ToolMessage(rounds[n].results[i - 1]);
      assert FromRound(rounds[n], m);
    } else {
      RenderedFrom(rounds[..n], m);
      var k :| 0 <= k < n && FromRound(rounds[..n][k], m);
      assert FromRound(rounds[k], m);
    }
  }

  /** Retrieval context is shown to the provider on the first call only, directly before the user's message. It never
      enters the output: every message there is one of the opened conversation, the provider's, or a tool result. */
  lemma RetrievalIsTransient(env: Env, provider: Provider, input: TurnInput, rounds: seq<Round>, out: TurnOutput, retrieval: string)
    requires Transcript(env, provider, input, rounds, out)
    ensures forall k :: 0 <= k < |rounds| ==>
      Injected(Conversation(input, rounds[..k]), retrieval) ==
      if k == 0 then Opened(input)[..|Opened(input)| - 1] + [Say(ROLE_SYSTEM, retrieval), Say(ROLE_USER, input.userMessage)]
      else Conversation(input, rounds[..k])
    ensures forall m :: m in out.messages ==> m in Opened(input) || exists k :: 0 <= k < |rounds| && FromRound(rounds[k], m)
  {
    FinalMessages(input, rounds);
    forall k | 0 <= k < |rounds|
      ensures Injected(Conversation(input, rounds[..k]), retrieval) ==
        if k == 0 then Opened(input)[..|Opened(input)| - 1] + [Say(ROLE_SYSTEM, retrieval), Say(ROLE_USER, input.userMessage)]
        else Conversation(input, rounds[..k])
    {
      ShownAt(env, provider, input, rounds, out, k, retrieval);
    }
    forall m | m in out.messages && m !in Opened(input)
      ensures exists k :: 0 <= k < |rounds| && FromRound(rounds[k], m)
    {
      RenderedFrom(rounds, m);
    }
  }

  lemma ShownAt(env: Env, provider: Provider, input: TurnInput, rounds: seq<Round>, out: TurnOutput, k: nat, retrieval: string)
    requires Transcript(env, provider, input, rounds, out) && k < |rounds|
    ensures Injected(Conversation(input, rounds[..k]), retrieval) ==
      if k == 0 then Opened(input)[..|Opened(input)| - 1] + [Say(ROLE_SYSTEM, retrieval), Say(ROLE_USER, input.userMessage)]
      else Conversation(input, rounds[..k])
  {
    if k == 0 {
      assert Conversation(input, rounds[..0]) == Opened(input);
    } else {
      FullBefore(env, provider, input, rounds, out, k - 1);
      LastIsTool(input, rounds[..k]);
    }
  }

  lemma LastIsTool(input: TurnInput, rounds: seq<Round>)
    requires rounds != [] && rounds[|rounds| - 1].results != []
    ensures var shown := Conversation(input, rounds);
      |shown| > 0 && shown[|shown| - 1].role == ROLE_TOOL
  {
    var last := rounds[|rounds| - 1];
    Regroup(Opened(input), Rendered(rounds[..|rounds| - 1]), last.response.message, ToolMessages(last.results));
    LastOfAll(Opened(input) + Rendered(rounds[..|rounds| - 1]) + [last.response.message], last.results);
  }

  lemma LastOfAll(front: seq<Message>, results: seq<ToolResult>)
    requires results != []
    ensures var all := front + ToolMessages(results);
      |all| > 0 && all[|all| - 1].role == ROLE_TOOL
  {
  }
}
