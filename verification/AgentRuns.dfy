/** What a session of the agent comes to (internal/agent/agent.go, internal/agent/toolcall.go),
    for any replies of the model and any results of the tools. */
module AgentRuns {
  import opened Results
  import opened Strings
  import opened CallChecks
  import opened Context
  import opened Conversation
  import opened AgentLoops
  import MCP = ClientCalls

  datatype ToolResult = ToolResult(text: string, isError: bool)

  /** The bounds of a session; in the program 3, 5, 6 and 16384. */
  datatype Bounds = Bounds(rounds: nat, calls: nat, exposed: nat, resultBytes: nat, budget: Budget)

  /** Everything a session does not change. `complete(n)` is what the n-th request to the model
      brings, `run(n)` what the n-th tool call brings. */
  datatype World = World(
    json: Json,
    bounds: Bounds,
    complete: nat -> Result<Message, string>,
    run: nat -> Result<ToolResult, string>,
    servers: map<string, Server>)

  function ToolMessage(id: string, name: string, content: string): Message
  {
    Message("tool", content, [], id, name)
  }

  function Refusal(json: Json, id: string, name: string, why: Rejection): Message
  {
    ToolMessage(id, name, json.encodeError(why.category, why.message))
  }

  /** `normalizeResult`. */
  function Normalized(json: Json, result: ToolResult): string
  {
    if json.hasSuccess(result.text) then result.text
    else if result.isError then json.encodeError(TOOL_ERROR, "tool reported an error")
    else json.encodeOutput(result.text)
  }

  function ResultMessage(w: World, id: string, name: string, result: ToolResult): Message
  {
    if |result.text| > w.bounds.resultBytes then
      Refusal(w.json, id, name, Rejection(RESULT_TOO_LARGE, "tool result exceeded the result limit"))
    else ToolMessage(id, name, Normalized(w.json, result))
  }

  // ----- the spec of the code

  /** A call that passed the checks. The counter goes up before the client is looked up. */
  function Execute(w: World, st: State, id: string, tool: MCP.Tool, arguments: string): (State, Result<Message, Stop>)
  {
    var counted := st.(toolCalls := st.toolCalls + 1);
    if tool.name !in w.servers then (counted, Failure(NoClient(tool.name)))
    else
      var after := counted.(executed := st.executed + [Execution(w.servers[tool.name], tool, arguments)]);
      match w.run(|st.executed|)
      case Failure(e) => (after, Failure(SessionUnusable(e)))
      case Success(result) => (after, Success(ResultMessage(w, id, tool.name, result)))
  }

  /** `runToolCall`. */
  function RunCall(w: World, exposed: map<string, MCP.Tool>, st: State, call: ToolCall, round: nat, index: nat)
    : (State, Result<Message, Stop>)
  {
    var id := AnswerId(call, round, index);
    if TrimSpace(call.id) == "" then
      (st, Success(Refusal(w.json, id, call.name, Rejection(INVALID_ARGUMENTS, "tool call is missing an id"))))
    else match CheckCall(w.json, exposed, w.bounds.calls, st.toolCalls, call)
      case Panicked => (st, Failure(Panic))
      case Rejected(why) => (st, Success(Refusal(w.json, id, call.name, why)))
      case Valid(arguments, tool) => Execute(w, st, id, tool, arguments)
  }

  /** The loop of this session: with these tools exposed. */
  function TheEngine(w: World, exposed: map<string, MCP.Tool>, tools: seq<ModelTool>): Engine
  {
    Engine(
      w.bounds.rounds,
      messages => Pruned(messages, tools, w.bounds.budget),
      w.complete,
      (st: State, call: ToolCall, round: nat, index: nat) => RunCall(w, exposed, st, call, round, index))
  }

  // ----- limits

  ghost predicate IsAllowed(w: World, exposed: map<string, MCP.Tool>, e: Execution)
  {
    && e.tool.name in exposed && exposed[e.tool.name] == e.tool
    && e.tool.name in w.servers && w.servers[e.tool.name] == e.server
    && IsPermitted(w.json, e.tool, e.arguments)
  }

  ghost function Allowed(w: World, exposed: map<string, MCP.Tool>): Execution -> bool
  {
    e => IsAllowed(w, exposed, e)
  }

  /** Exposed tools are known under their own names, and each has a server. */
  ghost predicate AreBound(w: World, exposed: map<string, MCP.Tool>)
  {
    forall name :: name in exposed ==> exposed[name].name == name && name in w.servers
  }

  lemma {:induction false} ExecutionIsBounded(w: World, exposed: map<string, MCP.Tool>, st: State, id: string, tool: MCP.Tool,
      arguments: string, allowed: Execution -> bool)
    requires tool.name in w.servers && st.toolCalls < w.bounds.calls
    requires allowed(Execution(w.servers[tool.name], tool, arguments))
    ensures var (later, r) := Execute(w, st, id, tool, arguments);
      && IsBounded(w.bounds.calls, allowed, st, later) && IsQuiet(st, later, r)
      && (r.Success? ==> r.value.role == "tool" && r.value.toolCallId == id)
  {
  }

  /** One call runs at most one tool, and only if every check passed; its answer carries its id. */
  lemma {:induction false} CallIsBounded(w: World, exposed: map<string, MCP.Tool>, st: State, call: ToolCall, round: nat, index: nat)
    requires IsFaithful(w.json) && AreBound(w, exposed)
    ensures var (later, r) := RunCall(w, exposed, st, call, round, index);
      && IsBounded(w.bounds.calls, Allowed(w, exposed), st, later) && IsQuiet(st, later, r)
      && (r.Success? ==> IsAnswer(r.value, call, round, index))
  {
    var allowed := Allowed(w, exposed);
    var checked := CheckCall(w.json, exposed, w.bounds.calls, st.toolCalls, call);
    CheckAccepts(w.json, exposed, w.bounds.calls, st.toolCalls, call);
    if TrimSpace(call.id) != "" && checked.Valid? {
      assert IsAllowed(w, exposed, Execution(w.servers[call.name], checked.tool, checked.arguments));
      ExecutionIsBounded(w, exposed, st, AnswerId(call, round, index), checked.tool, checked.arguments, allowed);
    }
  }

  // ----- what a call brings about

  /** The call has an id and passes every check, when `used` tools have run. */
  ghost predicate Passes(w: World, exposed: map<string, MCP.Tool>, used: nat, call: ToolCall)
  {
    && TrimSpace(call.id) != "" && (call.kind == "" || call.kind == "function")
    && used < w.bounds.calls && call.name in exposed
    && IsPermitted(w.json, exposed[call.name], RawArguments(call.arguments))
  }

  /** The content of a tool message for a result: the text itself if it reports on itself, and
      otherwise wrapped as an output or an error; a text that is too long is not passed on. */
  ghost predicate IsContentOf(w: World, content: string, result: ToolResult)
  {
    if |result.text| > w.bounds.resultBytes then
      content == w.json.encodeError("result_too_large", "tool result exceeded the result limit")
    else if w.json.hasSuccess(result.text) then content == result.text
    else if result.isError then content == w.json.encodeError("tool_error", "tool reported an error")
    else content == w.json.encodeOutput(result.text)
  }

  /** Exactly a call that passes runs a tool: the one it names, with its trimmed arguments, on the
      server that is bound to it; its answer has the content that belongs to the result, and
      only a lost session keeps it back. Any other call changes nothing and is answered with
      an error, unless the validator panics. */
  lemma {:induction false} CallOutcome(w: World, exposed: map<string, MCP.Tool>, st: State, call: ToolCall, round: nat, index: nat)
    requires IsFaithful(w.json) && AreBound(w, exposed)
    ensures var (later, r) := RunCall(w, exposed, st, call, round, index);
      if Passes(w, exposed, st.toolCalls, call) then
        && later.toolCalls == st.toolCalls + 1 && later.requests == st.requests && later.printed == st.printed
        && later.executed == st.executed
             + [Execution(w.servers[call.name], exposed[call.name], if TrimSpace(call.arguments) == "" then "{}" else TrimSpace(call.arguments))]
        && match w.run(|st.executed|)
           case Failure(e) => r == Failure(SessionUnusable(e))
           case Success(result) => r.Success? && IsContentOf(w, r.value.content, result)
      else
        && later == st
        && (r == Failure(Panic) || (r.Success? && exists category, why :: r.value.content == w.json.encodeError(category, why)))
  {
    CheckAccepts(w.json, exposed, w.bounds.calls, st.toolCalls, call);
    hide CheckCall, IsPermitted;
    var checked := CheckCall(w.json, exposed, w.bounds.calls, st.toolCalls, call);
    var (later, r) := RunCall(w, exposed, st, call, round, index);
    if TrimSpace(call.id) == "" {
      assert r.value.content == w.json.encodeError(INVALID_ARGUMENTS, "tool call is missing an id");
    } else if checked.Rejected? {
      assert r.value.content == w.json.encodeError(checked.why.category, checked.why.message);
    }
  }

  /** The message reports on the call: for some number of tools that had run, it is the result of
      the run that this call made, or the call did not pass and it is an error. */
  ghost predicate IsReport(w: World, exposed: map<string, MCP.Tool>, executed: seq<Execution>, call: ToolCall, m: Message)
  {
    exists k: nat :: IsReportAt(w, exposed, executed, k, call, m)
  }

  ghost predicate IsReportAt(w: World, exposed: map<string, MCP.Tool>, executed: seq<Execution>, k: nat, call: ToolCall, m: Message)
  {
    if Passes(w, exposed, k, call) then
      && k < |executed| && executed[k].tool == exposed[call.name] && executed[k].arguments == RawArguments(call.arguments)
      && w.run(k).Success? && IsContentOf(w, m.content, w.run(k).value)
    else
      k <= |executed| && exists category, why :: m.content == w.json.encodeError(category, why)
  }

  ghost predicate AreReports(w: World, exposed: map<string, MCP.Tool>, executed: seq<Execution>, xs: seq<Exchange>)
  {
    forall r, i :: 0 <= r < |xs| && 0 <= i < |xs[r].results| && i < |xs[r].reply.toolCalls| ==>
      IsReport(w, exposed, executed, xs[r].reply.toolCalls[i], xs[r].results[i])
  }

  lemma {:induction false} AnswerIsReport(w: World, exposed: map<string, MCP.Tool>, tools: seq<ModelTool>, executed: seq<Execution>,
      call: ToolCall, round: nat, index: nat, m: Message)
    requires IsFaithful(w.json) && AreBound(w, exposed)
    requires IsAnswered(TheEngine(w, exposed, tools), executed, call, round, index, m)
    ensures IsReport(w, exposed, executed, call, m)
  {
    var st: State :| IsAnsweredIn(TheEngine(w, exposed, tools), st, executed, call, round, index, m);
    CallOutcome(w, exposed, st, call, round, index);
    hide RunCall, IsContentOf, Passes;
    var (later, r) := RunCall(w, exposed, st, call, round, index);
    if Passes(w, exposed, st.toolCalls, call) { assert executed[|st.executed|] == later.executed[|st.executed|]; }
    assert IsReportAt(w, exposed, executed, |st.executed|, call, m);
  }

  lemma {:induction false} AnswersAreReports(w: World, exposed: map<string, MCP.Tool>, tools: seq<ModelTool>, executed: seq<Execution>,
      xs: seq<Exchange>)
    requires IsFaithful(w.json) && AreBound(w, exposed) && AreAnswered(TheEngine(w, exposed, tools), executed, xs)
    ensures AreReports(w, exposed, executed, xs)
  {
    forall r, i | 0 <= r < |xs| && 0 <= i < |xs[r].results| && i < |xs[r].reply.toolCalls|
      ensures IsReport(w, exposed, executed, xs[r].reply.toolCalls[i], xs[r].results[i])
    {
      assert ResultsAreAnswers(TheEngine(w, exposed, tools), executed, xs[r].reply.toolCalls, r + 1, xs[r].results);
      AnswerIsReport(w, exposed, tools, executed, xs[r].reply.toolCalls[i], r + 1, i, xs[r].results[i]);
    }
  }

  /** A session makes at most `rounds` requests to the model and at most `calls` tool calls,
      each of an exposed tool with permitted arguments; it never misses the client of a tool;
      and it prints exactly once if it ends without an error, and not at all otherwise. */
  lemma {:induction false} SessionIsBounded(w: World, exposed: map<string, MCP.Tool>, tools: seq<ModelTool>, messages: seq<Message>)
    requires IsFaithful(w.json) && AreBound(w, exposed)
    ensures var (later, stop) := RunRounds(TheEngine(w, exposed, tools), State(0, [], [], []), messages, 1);
      && |later.requests| <= w.bounds.rounds
      && |later.executed| == later.toolCalls <= w.bounds.calls
      && (forall i :: 0 <= i < |later.executed| ==> IsAllowed(w, exposed, later.executed[i]))
      && (stop.Some? ==> !stop.value.NoClient? && later.printed == [])
      && (stop.None? ==> |later.printed| == 1)
  {
    TheEngineIsReliable(w, exposed, tools);
    RunIsBounded(TheEngine(w, exposed, tools), w.bounds.calls, Allowed(w, exposed), State(0, [], [], []), messages, 1);
  }

  lemma {:induction false} TheEngineIsReliable(w: World, exposed: map<string, MCP.Tool>, tools: seq<ModelTool>)
    requires IsFaithful(w.json) && AreBound(w, exposed)
    ensures IsReliable(TheEngine(w, exposed, tools), w.bounds.calls, Allowed(w, exposed))
  {
    var g, allowed := TheEngine(w, exposed, tools), Allowed(w, exposed);
    forall st, call, round, index ensures AnswersWell(g, w.bounds.calls, allowed, st, call, round, index) {
      CallIsBounded(w, exposed, st, call, round, index);
    }
  }

  /** What a session prints: the trimmed content of the first reply without tool calls, or the
      message on the limit when the replies of all rounds had some. */
  lemma {:induction false} SessionPrints(w: World, exposed: map<string, MCP.Tool>, tools: seq<ModelTool>, messages: seq<Message>)
    requires IsFaithful(w.json) && AreBound(w, exposed)
    ensures var (later, stop) := RunRounds(TheEngine(w, exposed, tools), State(0, [], [], []), messages, 1);
      var n := |later.requests|;
      stop.None? ==>
        || (&& 0 < n && AskedForTools(w.complete, 0, n - 1)
            && w.complete(n - 1).Success? && w.complete(n - 1).value.toolCalls == []
            && later.printed == [TrimSpace(w.complete(n - 1).value.content)])
        || (n == w.bounds.rounds && AskedForTools(w.complete, 0, n) && later.printed == [ROUND_LIMIT_MESSAGE])
  {
    hide RunRounds, AskedForTools;
    TheEngineIsReliable(w, exposed, tools);
    RunEndsAsTold(TheEngine(w, exposed, tools), w.bounds.calls, Allowed(w, exposed), State(0, [], [], []), messages, 1);
  }

  // ----- the requests

  /** The exchanges that are sent after the system prompt and the request: the longest run of
      the latest ones that fits, with long results cut. */
  function Sent(w: World, tools: seq<ModelTool>, system: Message, user: Message, exchanges: seq<Exchange>): seq<Exchange>
    requires TailBudget(w.bounds.budget, tools, system, user) > 0
  {
    Fitting(Clamped(exchanges, w.bounds.budget.resultBytes), TailBudget(w.bounds.budget, tools, system, user))
  }

  /** Every request is the system prompt, the request of the user and whole exchanges: replies
      of the model, each followed by exactly one result for each of its calls, in order and
      under its id, which reports on the call. The r-th request draws on the exchanges of all
      rounds before. */
  lemma {:induction false} RequestsAreConversations(w: World, exposed: map<string, MCP.Tool>, tools: seq<ModelTool>,
      system: Message, user: Message) returns (all: seq<Exchange>)
    requires IsFaithful(w.json) && AreBound(w, exposed) && user.role == "user" && RepliesAreAssistants(w.complete)
    ensures AreComplete(w.complete, all)
    ensures AreReports(w, exposed, RunRounds(TheEngine(w, exposed, tools), State(0, [], [], []), [system, user], 1).0.executed, all)
    ensures var requests := RunRounds(TheEngine(w, exposed, tools), State(0, [], [], []), [system, user], 1).0.requests;
      && |all| <= |requests| <= |all| + 1
      && (requests != [] ==> TailBudget(w.bounds.budget, tools, system, user) > 0)
      && forall r :: 0 <= r < |requests| ==> requests[r] == [system, user] + Flat(Sent(w, tools, system, user, all[..r]))
  {
    var g, start := TheEngine(w, exposed, tools), State(0, [], [], []);
    assert g.complete == w.complete && g.rounds == w.bounds.rounds;
    assert [system, user] + Flat([]) == [system, user];
    assert AreComplete(w.complete, []) && AreAnswered(g, start.executed, []);
    hide *;
    TheEngineIsReliable(w, exposed, tools);
    all := RunOfExchanges(g, w.bounds.calls, Allowed(w, exposed), [system, user], start, []);
    var later := RunRounds(g, start, [system, user], 1).0;
    AsksForAll(g, [system, user], all, later.requests);
    AnswersAreReports(w, exposed, tools, later.executed, all);
    RequestsAreSent(w, exposed, tools, system, user, all, later.requests);
  }

  lemma {:induction false} AsksForAll(g: Engine, start: seq<Message>, all: seq<Exchange>, requests: seq<seq<Message>>)
    requires AsksFor(g, start, all, requests, 0)
    ensures |all| <= |requests| <= |all| + 1
  {
  }

  lemma {:induction false} RequestsAreSent(w: World, exposed: map<string, MCP.Tool>, tools: seq<ModelTool>,
      system: Message, user: Message, all: seq<Exchange>, requests: seq<seq<Message>>)
    requires user.role == "user" && RepliesAreAssistants(w.complete) && AreComplete(w.complete, all)
    requires AsksFor(TheEngine(w, exposed, tools), [system, user], all, requests, 0)
    ensures requests != [] ==> TailBudget(w.bounds.budget, tools, system, user) > 0
    ensures forall r :: 0 <= r < |requests| ==> requests[r] == [system, user] + Flat(Sent(w, tools, system, user, all[..r]))
  {
    hide RepliesAreAssistants, Pruned, AreComplete, Sent;
    CompleteHaveRightRoles(w.complete, all);
    if requests != [] { RequestIsSent(w, tools, system, user, all[..0], requests[0]); }
    forall r | 0 <= r < |requests|
      ensures requests[r] == [system, user] + Flat(Sent(w, tools, system, user, all[..r]))
    {
      RequestIsSent(w, tools, system, user, all[..r], requests[r]);
    }
  }

  lemma {:induction false} RequestIsSent(w: World, tools: seq<ModelTool>, system: Message, user: Message, xs: seq<Exchange>,
      request: seq<Message>)
    requires user.role == "user" && HaveRightRoles(xs)
    requires Pruned([system, user] + Flat(xs), tools, w.bounds.budget) == Success(request)
    ensures TailBudget(w.bounds.budget, tools, system, user) > 0
    ensures request == [system, user] + Flat(Sent(w, tools, system, user, xs))
  {
    PruningIsByExchange(system, user, xs, tools, w.bounds.budget);
  }

  /** From request to request the first exchange that is sent never moves back: one that has
      been dropped never returns. */
  lemma {:induction false} DroppedExchangeNeverReturns(w: World, tools: seq<ModelTool>, system: Message, user: Message,
      all: seq<Exchange>, q: nat, r: nat)
    requires q <= r <= |all| && TailBudget(w.bounds.budget, tools, system, user) > 0
    ensures q - |Sent(w, tools, system, user, all[..q])| <= r - |Sent(w, tools, system, user, all[..r])|
  {
    var limit := w.bounds.budget.resultBytes;
    var left: nat := TailBudget(w.bounds.budget, tools, system, user);
    assert Clamped(all[..r], limit) == Clamped(all[..q], limit) + Clamped(all[..r], limit)[q..];
    DroppedStaysDropped(Clamped(all[..q], limit), Clamped(all[..r], limit)[q..], left);
  }
}
