/** The agent as it is written (internal/agent/agent.go, internal/agent/toolcall.go): which
    tools it takes up, which it exposes, and the session that runs the loop. */
module Agent {
  import opened Results
  import opened Strings
  import opened CallChecks
  import opened Context
  import opened Conversation
  import opened AgentLoops
  import opened AgentRuns
  import MCP = ClientCalls

  const ALLOWED_CORE_TOOLS := ["cat", "coreutils_run", "cp", "find", "grep", "head", "ls", "mkdir", "mv", "pwd", "rm",
                               "rmdir", "tail", "touch", "write_file"]
  const ALLOWED_WEB_TOOLS := ["browse_url", "search_web"]

  type Definitions = map<string, MCP.Tool>

  // ----- discovery

  /** The advertised tools that the policy allows, by name; a later one replaces an earlier. */
  function Kept(tools: seq<MCP.Tool>, allowlist: seq<string>): Definitions
  {
    if tools == [] then map[]
    else
      var before, last := Kept(tools[..|tools| - 1], allowlist), tools[|tools| - 1];
      if last.name in allowlist then before[last.name := last] else before
  }

  method FilterDiscovered(tools: seq<MCP.Tool>, allowlist: seq<string>) returns (kept: Definitions)
    ensures kept == Kept(tools, allowlist)
  {
    kept := map[];
    for i := 0 to |tools|
      invariant kept == Kept(tools[..i], allowlist)
    {
      var tool := tools[i];
      assert tools[..i + 1][..i] == tools[..i];
      if tool.name !in allowlist {
        continue;
      }
      kept := kept[tool.name := tool];
    }
    assert tools[..|tools|] == tools;
  }

  /** Only allowed tools are kept, none of those is lost, and each is kept under its own name. */
  lemma {:induction false} KeptAreTheAllowed(tools: seq<MCP.Tool>, allowlist: seq<string>, name: string)
    ensures name in Kept(tools, allowlist) <==>
      name in allowlist && exists i :: 0 <= i < |tools| && tools[i].name == name
    ensures name in Kept(tools, allowlist) ==> Kept(tools, allowlist)[name].name == name && Kept(tools, allowlist)[name] in tools
  {
    if tools != [] {
      var front, last := tools[..|tools| - 1], tools[|tools| - 1];
      KeptAreTheAllowed(front, allowlist, name);
      assert forall i :: 0 <= i < |front| ==> tools[i] == front[i];
      assert tools[|tools| - 1] == last;
    }
  }

  /** The definition kept is the last one of its name. */
  lemma {:induction false} KeptIsTheLast(tools: seq<MCP.Tool>, allowlist: seq<string>, name: string) returns (at: nat)
    requires name in Kept(tools, allowlist)
    ensures at < |tools| && tools[at].name == name && Kept(tools, allowlist)[name] == tools[at]
    ensures forall i :: at < i < |tools| ==> tools[i].name != name
  {
    var front, last := tools[..|tools| - 1], tools[|tools| - 1];
    if last.name == name && last.name in allowlist {
      at := |front|;
    } else {
      KeptAreTheAllowed(front, allowlist, name);
      at := KeptIsTheLast(front, allowlist, name);
    }
  }

  /** What `Run` takes up: the core tools, and those web tools that do not take a core name. */
  function Discovered(core: seq<MCP.Tool>, web: seq<MCP.Tool>): Definitions
  {
    Kept(web, ALLOWED_WEB_TOOLS) + Kept(core, ALLOWED_CORE_TOOLS)
  }

  /** Nothing that is advertised and allowed is lost. */
  lemma {:induction false} DiscoveredAreTheAllowed(core: seq<MCP.Tool>, web: seq<MCP.Tool>, name: string)
    ensures name in Discovered(core, web) <==>
      || (name in ALLOWED_CORE_TOOLS && exists i :: 0 <= i < |core| && core[i].name == name)
      || (name in ALLOWED_WEB_TOOLS && exists i :: 0 <= i < |web| && web[i].name == name)
    ensures name in Kept(core, ALLOWED_CORE_TOOLS) ==> Discovered(core, web)[name] in core
  {
    KeptAreTheAllowed(core, ALLOWED_CORE_TOOLS, name);
    KeptAreTheAllowed(web, ALLOWED_WEB_TOOLS, name);
  }

  /** The two maps that `Run` builds; without a web server `web` is empty. */
  method BindTools(core: seq<MCP.Tool>, web: seq<MCP.Tool>) returns (discovered: Definitions, servers: map<string, Server>)
    ensures discovered == Discovered(core, web) && servers.Keys == discovered.Keys
    ensures forall name :: name in servers ==>
      servers[name] == if name in Kept(core, ALLOWED_CORE_TOOLS) then Core else Web
  {
    var own := FilterDiscovered(core, ALLOWED_CORE_TOOLS);
    var others := FilterDiscovered(web, ALLOWED_WEB_TOOLS);
    discovered, servers := BindOwn(own);
    discovered, servers := BindOthers(own, others, servers);
  }

  /** The loop over the core tools. */
  method BindOwn(own: Definitions) returns (discovered: Definitions, servers: map<string, Server>)
    ensures discovered == own && servers.Keys == own.Keys
    ensures forall name :: name in servers ==> servers[name] == Core
  {
    discovered, servers := own, map[];
    var names := own.Keys;
    while names != {}
      invariant names + servers.Keys == own.Keys
      invariant forall name :: name in servers ==> servers[name] == Core
      decreases |names|
    {
      var name :| name in names;
      servers := servers[name := Core];
      names := names - {name};
    }
  }

  /** The loop over the web tools: a name that is taken is passed over. */
  method BindOthers(own: Definitions, others: Definitions, bound: map<string, Server>)
    returns (discovered: Definitions, servers: map<string, Server>)
    requires bound.Keys == own.Keys && forall name :: name in bound ==> bound[name] == Core
    ensures discovered == others + own && servers.Keys == discovered.Keys
    ensures forall name :: name in servers ==> servers[name] == if name in own then Core else Web
  {
    discovered, servers := own, bound;
    var names := others.Keys;
    assert IsMerged(own, others, names, discovered, servers);
    hide IsMerged;
    while names != {}
      invariant names <= others.Keys && IsMerged(own, others, names, discovered, servers)
      decreases |names|
    {
      var name :| name in names;
      MergeOne(own, others, names, discovered, servers, name);
      names := names - {name};
      if name !in discovered {
        discovered := discovered[name := others[name]];
        servers := servers[name := Web];
      }
    }
    EndMerged(own, others, discovered, servers);
  }

  /** Every name outside `names` has been taken up: own names as they were, others behind them. */
  ghost predicate IsMerged(own: Definitions, others: Definitions, names: set<string>, discovered: Definitions,
                           servers: map<string, Server>)
  {
    && (forall name :: name in discovered <==> name in own || (name in others && name !in names))
    && (forall name :: name in servers <==> name in discovered)
    && (forall name :: name in discovered ==> discovered[name] == if name in own then own[name] else others[name])
    && (forall name :: name in servers ==> servers[name] == if name in own then Core else Web)
  }

  lemma {:induction false} MergeOne(own: Definitions, others: Definitions, names: set<string>, discovered: Definitions,
      servers: map<string, Server>, name: string)
    requires names <= others.Keys && name in names && IsMerged(own, others, names, discovered, servers)
    ensures if name in discovered then IsMerged(own, others, names - {name}, discovered, servers)
            else IsMerged(own, others, names - {name}, discovered[name := others[name]], servers[name := Web])
  {
  }

  lemma {:induction false} EndMerged(own: Definitions, others: Definitions, discovered: Definitions, servers: map<string, Server>)
    requires IsMerged(own, others, {}, discovered, servers)
    ensures discovered == others + own && servers.Keys == discovered.Keys
    ensures forall name :: name in servers ==> servers[name] == if name in own then Core else Web
  {
  }

  // ----- exposure

  /** The names of a profile that were discovered with a usable schema, in order. */
  function Usable(json: Json, discovered: Definitions, names: seq<string>): (r: seq<string>)
    ensures forall i :: 0 <= i < |r| ==> r[i] in names && r[i] in discovered && json.decodeSchema(discovered[r[i]].schema).Some?
  {
    if names == [] then []
    else
      var before, last := Usable(json, discovered, names[..|names| - 1]), names[|names| - 1];
      if last in discovered && json.decodeSchema(discovered[last].schema).Some? then before + [last] else before
  }

  /** They are the names of the profile, in its order, at exactly the places where the name was
      discovered and its schema decodes. */
  lemma {:induction false} UsableAreInOrder(json: Json, discovered: Definitions, names: seq<string>) returns (at: seq<nat>)
    ensures |at| == |Usable(json, discovered, names)| && forall i, j :: 0 <= i < j < |at| ==> at[i] < at[j]
    ensures forall i :: 0 <= i < |at| ==> at[i] < |names| && Usable(json, discovered, names)[i] == names[at[i]]
    ensures forall k :: 0 <= k < |names| ==>
      (k in at <==> names[k] in discovered && json.decodeSchema(discovered[names[k]].schema).Some?)
  {
    at := [];
    if names != [] {
      var front, last := names[..|names| - 1], names[|names| - 1];
      at := UsableAreInOrder(json, discovered, front);
      assert forall k :: 0 <= k < |front| ==> names[k] == front[k];
      if last in discovered && json.decodeSchema(discovered[last].schema).Some? { at := at + [|front|]; }
    }
  }

  function Take<T>(s: seq<T>, n: nat): (r: seq<T>)
    ensures |r| == (if |s| < n then |s| else n) && r <= s
  {
    if |s| <= n then s else s[..n]
  }

  /** The names that are exposed: the first usable ones, up to the limit. */
  function ExposedNames(json: Json, discovered: Definitions, profile: seq<string>, limit: nat): (r: seq<string>)
    ensures |r| <= limit
    ensures forall i :: 0 <= i < |r| ==> r[i] in profile && r[i] in discovered && json.decodeSchema(discovered[r[i]].schema).Some?
  {
    Take(Usable(json, discovered, profile), limit)
  }

  function Adapted(json: Json, tool: MCP.Tool): (adapted: ModelTool)
    requires json.decodeSchema(tool.schema).Some?
    ensures adapted.name == tool.name && adapted.description == tool.description
    ensures adapted.keys == json.argumentOrder(json.decodeSchema(tool.schema).value)
  {
    ModelTool(tool.name, tool.description, json.argumentOrder(json.decodeSchema(tool.schema).value))
  }

  predicate AreUsable(json: Json, discovered: Definitions, names: seq<string>)
  {
    forall i :: 0 <= i < |names| ==> names[i] in discovered && json.decodeSchema(discovered[names[i]].schema).Some?
  }

  function ToolsFor(json: Json, discovered: Definitions, names: seq<string>): (r: seq<ModelTool>)
    requires AreUsable(json, discovered, names)
    ensures |r| == |names| && forall i :: 0 <= i < |r| ==> r[i] == Adapted(json, discovered[names[i]])
  {
    seq(|names|, i requires 0 <= i < |names| => Adapted(json, discovered[names[i]]))
  }

  function ExposedFor(discovered: Definitions, names: seq<string>): Definitions
  {
    map name | name in names && name in discovered :: discovered[name]
  }

  lemma {:induction false} UsableGrows(json: Json, discovered: Definitions, names: seq<string>, k: nat)
    requires k <= |names|
    ensures Usable(json, discovered, names[..k]) <= Usable(json, discovered, names)
    decreases |names|
  {
    if k < |names| {
      var front := names[..|names| - 1];
      UsableGrows(json, discovered, front, k);
      assert front[..k] == names[..k];
    } else {
      assert names[..k] == names;
    }
  }

  lemma {:induction false} UsableStep(json: Json, discovered: Definitions, names: seq<string>, i: nat)
    requires i < |names|
    ensures Usable(json, discovered, names[..i + 1]) == Usable(json, discovered, names[..i]) +
      if names[i] in discovered && json.decodeSchema(discovered[names[i]].schema).Some? then [names[i]] else []
  {
    assert names[..i + 1][..i] == names[..i];
  }

  /** Once the limit is reached, or all names have been seen, nothing more is exposed. */
  lemma {:induction false} ExposedSoFar(json: Json, discovered: Definitions, names: seq<string>, i: nat, limit: nat)
    requires i <= |names| && |Usable(json, discovered, names[..i])| <= limit
    requires i == |names| || |Usable(json, discovered, names[..i])| == limit
    ensures Usable(json, discovered, names[..i]) == ExposedNames(json, discovered, names, limit)
  {
    UsableGrows(json, discovered, names, i);
    if i == |names| { assert names[..i] == names; }
  }

  // ----- the session

  lemma {:induction false} FailureStays(g: Engine, st: State, calls: seq<ToolCall>, round: nat, m: nat, n: nat)
    requires m <= n <= |calls| && RunCalls(g, st, calls, round, m).1.Failure?
    ensures RunCalls(g, st, calls, round, n) == RunCalls(g, st, calls, round, m)
  {
    if m < n {
      FailureStays(g, st, calls, round, m, n - 1);
    }
  }

  class Session {
    const world: World
    const systemPrompt: string
    const prompt: string
    const discovered: Definitions
    var toolCalls: nat
    var requests: seq<seq<Message>>
    var executed: seq<Execution>
    var printed: seq<string>

    constructor (world: World, systemPrompt: string, prompt: string, discovered: Definitions)
      ensures this.world == world && this.systemPrompt == systemPrompt && this.prompt == prompt && this.discovered == discovered
      ensures Now() == State(0, [], [], [])
    {
      this.world, this.systemPrompt, this.prompt, this.discovered := world, systemPrompt, prompt, discovered;
      toolCalls, requests, executed, printed := 0, [], [], [];
    }

    function Now(): State
      reads this
    {
      State(toolCalls, requests, executed, printed)
    }

    function Start(): (messages: seq<Message>)
      ensures |messages| == 2 && messages[0].role == "system" && messages[1].role == "user"
      ensures messages[0].content == systemPrompt && messages[1].content == prompt
    {
      [Message("system", systemPrompt, [], "", ""), Message("user", prompt, [], "", "")]
    }

    method ExposeProfile(profile: seq<string>) returns (exposed: Definitions, tools: seq<ModelTool>)
      ensures var names := ExposedNames(world.json, discovered, profile, world.bounds.exposed);
        exposed == ExposedFor(discovered, names) && tools == ToolsFor(world.json, discovered, names)
    {
      hide Adapted, Take;
      exposed, tools := map[], [];
      ghost var names: seq<string> := [];
      var i := 0;
      while i < |profile|
        invariant 0 <= i <= |profile|
        invariant names == Usable(world.json, discovered, profile[..i]) && |names| <= world.bounds.exposed
        invariant exposed == ExposedFor(discovered, names) && tools == ToolsFor(world.json, discovered, names)
      {
        if |tools| >= world.bounds.exposed {
          break;
        }
        var name := profile[i];
        UsableStep(world.json, discovered, profile, i);
        hide Usable;
        i := i + 1;
        if name !in discovered {
          continue;
        }
        if world.json.decodeSchema(discovered[name].schema).None? {
          continue;
        }
        exposed := exposed[name := discovered[name]];
        tools := tools + [Adapted(world.json, discovered[name])];
        names := names + [name];
      }
      ExposedSoFar(world.json, discovered, profile, i, world.bounds.exposed);
    }

    method RunToolCall(exposed: Definitions, call: ToolCall, round: nat, index: nat) returns (r: Result<Message, Stop>)
      modifies this`toolCalls, this`executed
      ensures (Now(), r) == RunCall(world, exposed, old(Now()), call, round, index)
    {
      var id := TrimSpace(call.id);
      if id == "" {
        id := "call_" + Itoa(round) + "_" + Itoa(index);
        return Success(ToolMessage(id, call.name, world.json.encodeError(INVALID_ARGUMENTS, "tool call is missing an id")));
      }
      match CheckCall(world.json, exposed, world.bounds.calls, toolCalls, call) {
        case Panicked => { return Failure(Panic); }
        case Rejected(why) => { return Success(ToolMessage(id, call.name, world.json.encodeError(why.category, why.message))); }
        case Valid(arguments, tool) => { r := CallTool(id, tool, arguments); }
      }
    }

    /** The rest of `runToolCall`, for a call that passed the checks. */
    method CallTool(id: string, tool: MCP.Tool, arguments: string) returns (r: Result<Message, Stop>)
      modifies this`toolCalls, this`executed
      ensures (Now(), r) == Execute(world, old(Now()), id, tool, arguments)
    {
      toolCalls := toolCalls + 1;
      if tool.name !in world.servers {
        return Failure(NoClient(tool.name));
      }
      var result := world.run(|executed|);
      executed := executed + [Execution(world.servers[tool.name], tool, arguments)];
      if result.Failure? {
        return Failure(SessionUnusable(result.error));
      }
      var text := result.value.text;
      if |text| > world.bounds.resultBytes {
        return Success(ToolMessage(id, tool.name,
                                   world.json.encodeError(RESULT_TOO_LARGE, "tool result exceeded the result limit")));
      }
      return Success(ToolMessage(id, tool.name, Normalized(world.json, result.value)));
    }

    /** The inner loop of `Loop`. */
    method AnswerCalls(exposed: Definitions, calls: seq<ToolCall>, round: nat, ghost tools: seq<ModelTool>)
      returns (r: Result<seq<Message>, Stop>)
      modifies this`toolCalls, this`executed
      ensures (Now(), r) == RunCalls(TheEngine(world, exposed, tools), old(Now()), calls, round, |calls|)
    {
      hide CheckCall, Execute, RunCall;
      ghost var g := TheEngine(world, exposed, tools);
      var messages: seq<Message> := [];
      for index := 0 to |calls|
        invariant RunCalls(g, old(Now()), calls, round, index) == (Now(), Success(messages))
      {
        var message := RunToolCall(exposed, calls[index], round, index);
        if message.Failure? {
          FailureStays(g, old(Now()), calls, round, index + 1, |calls|);
          return Failure(message.error);
        }
        messages := messages + [message.value];
      }
      return Success(messages);
    }

    /** `Session.Loop` for the profile that the prompt has selected. */
    method Loop(profile: seq<string>) returns (stop: Option<Stop>)
      modifies this
      ensures var names := ExposedNames(world.json, discovered, profile, world.bounds.exposed);
        var exposed, tools := ExposedFor(discovered, names), ToolsFor(world.json, discovered, names);
        (Now(), stop) == if exposed == map[] then (old(Now()), Some(NoUsableTools))
                         else RunRounds(TheEngine(world, exposed, tools), old(Now()), Start(), 1)
    {
      hide Pruned, RunCalls, RunCall, ExposedNames, ExposedFor, ToolsFor;
      var exposed, tools := ExposeProfile(profile);
      if exposed == map[] {
        return Some(NoUsableTools);
      }
      ghost var g := TheEngine(world, exposed, tools);
      var messages := Start();
      for round := 1 to world.bounds.rounds + 1
        invariant RunRounds(g, Now(), messages, round) == RunRounds(g, old(Now()), Start(), 1)
      {
        var pruned := PruneMessages(messages, tools, world.bounds.budget);
        if pruned.Failure? {
          return Some(NotPruned(pruned.error));
        }
        var reply := world.complete(|requests|);
        requests := requests + [pruned.value];
        if reply.Failure? {
          return Some(ModelFailed(reply.error));
        }
        messages := messages + [reply.value];
        if |reply.value.toolCalls| == 0 {
          printed := printed + [TrimSpace(reply.value.content)];
          return None;
        }
        var answers := AnswerCalls(exposed, reply.value.toolCalls, round, tools);
        if answers.Failure? {
          return Some(answers.error);
        }
        messages := messages + answers.value;
      }
      printed := printed + [ROUND_LIMIT_MESSAGE];
      return None;
    }
  }

  // ----- what a session can do

  /** What may run on a server: what it advertised itself and the policy allows there. */
  predicate IsItsOwn(core: seq<MCP.Tool>, web: seq<MCP.Tool>, e: Execution)
  {
    match e.server
    case Core => e.tool in core && e.tool.name in ALLOWED_CORE_TOOLS
    case Web => e.tool in web && e.tool.name in ALLOWED_WEB_TOOLS
  }

  /** Whatever is advertised and whatever profile is selected, the tools that are exposed are
      bound to a server, at most the allowed number, and each is one that was advertised by
      that server and that the policy allows there. */
  lemma {:induction false} ExposedToolsAreAllowed(world: World, core: seq<MCP.Tool>, web: seq<MCP.Tool>, profile: seq<string>)
    requires world.servers.Keys == Discovered(core, web).Keys
    requires forall name :: name in world.servers ==>
      world.servers[name] == if name in Kept(core, ALLOWED_CORE_TOOLS) then Core else Web
    ensures var names := ExposedNames(world.json, Discovered(core, web), profile, world.bounds.exposed);
      var exposed := ExposedFor(Discovered(core, web), names);
      && AreBound(world, exposed) && |names| <= world.bounds.exposed
      && (forall name :: name in exposed <==> name in names)
      && forall e: Execution :: IsAllowed(world, exposed, e) ==> IsItsOwn(core, web, e)
  {
    var names := ExposedNames(world.json, Discovered(core, web), profile, world.bounds.exposed);
    forall name | name in names
      ensures name in world.servers && Discovered(core, web)[name].name == name
      ensures match world.servers[name]
              case Core => Discovered(core, web)[name] in core && name in ALLOWED_CORE_TOOLS
              case Web => Discovered(core, web)[name] in web && name in ALLOWED_WEB_TOOLS
    {
      KeptAreTheAllowed(core, ALLOWED_CORE_TOOLS, name);
      KeptAreTheAllowed(web, ALLOWED_WEB_TOOLS, name);
    }
  }

  /** From what is advertised to what is run: with the maps that `Run` builds, whatever the model
      replies and the tools answer, every session keeps to its limits, never misses a client, and
      runs on each server only tools that this server advertised and the policy allows there,
      with permitted arguments. */
  lemma {:induction false} RunIsSafe(world: World, core: seq<MCP.Tool>, web: seq<MCP.Tool>, profile: seq<string>, start: seq<Message>)
    requires IsFaithful(world.json) && world.servers.Keys == Discovered(core, web).Keys
    requires forall name :: name in world.servers ==>
      world.servers[name] == if name in Kept(core, ALLOWED_CORE_TOOLS) then Core else Web
    ensures var discovered := Discovered(core, web);
      var names := ExposedNames(world.json, discovered, profile, world.bounds.exposed);
      var exposed, tools := ExposedFor(discovered, names), ToolsFor(world.json, discovered, names);
      var (later, stop) := RunRounds(TheEngine(world, exposed, tools), State(0, [], [], []), start, 1);
      && |tools| <= world.bounds.exposed && |later.requests| <= world.bounds.rounds
      && |later.executed| == later.toolCalls <= world.bounds.calls
      && (forall i :: 0 <= i < |later.executed| ==>
            IsItsOwn(core, web, later.executed[i]) && later.executed[i].tool.name in profile
            && IsPermitted(world.json, later.executed[i].tool, later.executed[i].arguments))
      && (if stop.Some? then !stop.value.NoClient? && later.printed == [] else |later.printed| == 1)
  {
    hide RunRounds, RunCall, IsAllowed, AreBound, IsFaithful, IsItsOwn, IsPermitted, ExposedFor, ExposedNames, Kept, Discovered, TheEngine;
    var discovered := Discovered(core, web);
    var names := ExposedNames(world.json, discovered, profile, world.bounds.exposed);
    var exposed, tools := ExposedFor(discovered, names), ToolsFor(world.json, discovered, names);
    ExposedToolsAreAllowed(world, core, web, profile);
    SessionIsBounded(world, exposed, tools, start);
    var later := RunRounds(TheEngine(world, exposed, tools), State(0, [], [], []), start, 1).0;
    forall i | 0 <= i < |later.executed|
      ensures IsItsOwn(core, web, later.executed[i]) && later.executed[i].tool.name in profile
      ensures IsPermitted(world.json, later.executed[i].tool, later.executed[i].arguments)
    {
      AllowedIsExposed(world, exposed, later.executed[i]);
    }
  }

  /** What the model sees and what the user sees of a session: every request starts with the
      system prompt and the prompt of the user, followed by whole exchanges whose results report
      on their calls; and a session that ends without an error has printed the trimmed content of
      the first reply without tool calls, or the message on the limit after all rounds. */
  lemma {:induction false} SessionTells(session: Session, exposed: Definitions, tools: seq<ModelTool>) returns (all: seq<Exchange>)
    requires IsFaithful(session.world.json) && AreBound(session.world, exposed) && RepliesAreAssistants(session.world.complete)
    ensures var (later, stop) := RunRounds(TheEngine(session.world, exposed, tools), State(0, [], [], []), session.Start(), 1);
      var system, user := Message("system", session.systemPrompt, [], "", ""), Message("user", session.prompt, [], "", "");
      var n := |later.requests|;
      && AreComplete(session.world.complete, all) && AreReports(session.world, exposed, later.executed, all)
      && |all| <= n <= |all| + 1
      && (n > 0 ==> TailBudget(session.world.bounds.budget, tools, system, user) > 0)
      && (forall r :: 0 <= r < n ==>
            later.requests[r] == [system, user] + Flat(Sent(session.world, tools, system, user, all[..r])))
      && (stop.None? ==>
            || (&& n > 0 && session.world.complete(n - 1).Success? && session.world.complete(n - 1).value.toolCalls == []
                && AskedForTools(session.world.complete, 0, n - 1)
                && later.printed == [TrimSpace(session.world.complete(n - 1).value.content)])
            || (&& n == session.world.bounds.rounds && AskedForTools(session.world.complete, 0, n)
                && later.printed == [ROUND_LIMIT_MESSAGE]))
  {
    var system, user := Message("system", session.systemPrompt, [], "", ""), Message("user", session.prompt, [], "", "");
    assert session.Start() == [system, user];
    hide *;
    all := RequestsAreConversations(session.world, exposed, tools, system, user);
    SessionPrints(session.world, exposed, tools, [system, user]);
  }

  lemma {:induction false} AllowedIsExposed(world: World, exposed: Definitions, e: Execution)
    requires IsAllowed(world, exposed, e)
    ensures e.tool.name in exposed && IsPermitted(world.json, e.tool, e.arguments)
  {
  }
}
