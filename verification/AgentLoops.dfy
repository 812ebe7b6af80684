/** The bounded loop of the agent (internal/agent/agent.go), apart from what pruning, the model
    and a tool call do: those are functions of an engine. */
module AgentLoops {
  import opened Results
  import opened Strings
  import opened Context
  import opened Conversation
  import MCP = ClientCalls

  /** The server behind a tool. */
  datatype Server = Core | Web

  datatype Execution = Execution(server: Server, tool: MCP.Tool, arguments: string)

  /** What a session changes: the call counter, and what it has asked, run and printed. */
  datatype State = State(toolCalls: nat, requests: seq<seq<Message>>, executed: seq<Execution>, printed: seq<string>)

  /** Why a session ends with an error, or goes down with a panic. */
  datatype Stop = NotPruned(string) | ModelFailed(why: string) | NoClient(string) | SessionUnusable(string) | NoUsableTools | Panic

  /** `complete(n)` is what the n-th request to the model brings; `answer` is the tool message
      for one call of a reply, given its round and its place. */
  datatype Engine = Engine(
    rounds: nat,
    prune: seq<Message> -> Result<seq<Message>, string>,
    complete: nat -> Result<Message, string>,
    answer: (State, ToolCall, nat, nat) -> (State, Result<Message, Stop>))

  const ROUND_LIMIT_MESSAGE := "Agent stopped: maximum model rounds reached."

  // ----- the loop

  /** The first `n` calls of a reply, one after the other. */
  function RunCalls(g: Engine, st: State, calls: seq<ToolCall>, round: nat, n: nat): (State, Result<seq<Message>, Stop>)
    requires n <= |calls|
  {
    if n == 0 then (st, Success([]))
    else
      var before := RunCalls(g, st, calls, round, n - 1);
      if before.1.Failure? then before
      else
        var step := g.answer(before.0, calls[n - 1], round, n - 1);
        if step.1.Failure? then (step.0, Failure(step.1.error)) else (step.0, Success(before.1.value + [step.1.value]))
  }

  /** The loop from round `round` on; `None` is a run without an error. */
  function RunRounds(g: Engine, st: State, messages: seq<Message>, round: nat): (State, Option<Stop>)
    decreases g.rounds + 1 - round
  {
    if round > g.rounds then (st.(printed := st.printed + [ROUND_LIMIT_MESSAGE]), None)
    else match g.prune(messages)
      case Failure(e) => (st, Some(NotPruned(e)))
      case Success(pruned) =>
        var asked := st.(requests := st.requests + [pruned]);
        match g.complete(|st.requests|)
        case Failure(e) => (asked, Some(ModelFailed(e)))
        case Success(reply) => Respond(g, asked, messages, round, reply)
  }

  function Respond(g: Engine, st: State, messages: seq<Message>, round: nat, reply: Message): (State, Option<Stop>)
    requires round <= g.rounds
    decreases g.rounds + 1 - round, 0
  {
    if reply.toolCalls == [] then (st.(printed := st.printed + [TrimSpace(reply.content)]), None)
    else
      var answers := RunCalls(g, st, reply.toolCalls, round, |reply.toolCalls|);
      if answers.1.Failure? then (answers.0, Some(answers.1.error))
      else RunRounds(g, answers.0, messages + [reply] + answers.1.value, round + 1)
  }

  // ----- limits

  /** From `st` to `later` only allowed tools ran, each was counted, and the budget held. */
  ghost predicate IsBounded(limit: nat, allowed: Execution -> bool, st: State, later: State)
  {
    && st.executed <= later.executed
    && later.toolCalls - st.toolCalls == |later.executed| - |st.executed|
    && (st.toolCalls <= limit ==> later.toolCalls <= limit)
    && forall i :: |st.executed| <= i < |later.executed| ==> allowed(later.executed[i])
  }

  lemma {:induction false} BoundsAdd(limit: nat, allowed: Execution -> bool, a: State, b: State, c: State)
    requires IsBounded(limit, allowed, a, b) && IsBounded(limit, allowed, b, c)
    ensures IsBounded(limit, allowed, a, c)
  {
    forall i | |a.executed| <= i < |c.executed| ensures allowed(c.executed[i]) {
      if i < |b.executed| { assert c.executed[i] == b.executed[i]; }
    }
  }

  /** Nothing is asked or printed, and only a lost session or a panic ends the run. */
  ghost predicate IsQuiet<T>(st: State, later: State, r: Result<T, Stop>)
  {
    && later.requests == st.requests && later.printed == st.printed
    && (r.Failure? ==> r.error.SessionUnusable? || r.error.Panic?)
  }

  /** The message answers the call under its id. */
  predicate IsAnswer(m: Message, call: ToolCall, round: nat, index: nat)
  {
    m.role == "tool" && m.toolCallId == AnswerId(call, round, index)
  }

  ghost predicate AnswersWell(g: Engine, limit: nat, allowed: Execution -> bool, st: State, call: ToolCall, round: nat, index: nat)
  {
    var (later, r) := g.answer(st, call, round, index);
    && IsBounded(limit, allowed, st, later)
    && IsQuiet(st, later, r)
    && (r.Success? ==> IsAnswer(r.value, call, round, index))
  }

  /** What the loop needs of its engine. */
  ghost predicate IsReliable(g: Engine, limit: nat, allowed: Execution -> bool)
  {
    forall st, call, round, index {:trigger g.answer(st, call, round, index)} ::
      AnswersWell(g, limit, allowed, st, call, round, index)
  }

  ghost predicate AreAnswers(results: seq<Message>, calls: seq<ToolCall>, round: nat)
  {
    |results| <= |calls| && forall i :: 0 <= i < |results| ==> IsAnswer(results[i], calls[i], round, i)
  }

  lemma {:induction false} OneMoreAnswer(results: seq<Message>, calls: seq<ToolCall>, round: nat, m: Message)
    requires |results| < |calls| && AreAnswers(results, calls, round) && IsAnswer(m, calls[|results|], round, |results|)
    ensures AreAnswers(results + [m], calls, round)
  {
  }

  lemma {:induction false} CallsAnswer(g: Engine, limit: nat, allowed: Execution -> bool, st: State, calls: seq<ToolCall>,
      round: nat, n: nat)
    requires IsReliable(g, limit, allowed) && n <= |calls|
    ensures var (later, r) := RunCalls(g, st, calls, round, n);
      && IsBounded(limit, allowed, st, later)
      && IsQuiet(st, later, r)
      && (r.Success? ==> |r.value| == n && AreAnswers(r.value, calls, round))
  {
    if n > 0 {
      hide IsBounded, IsAnswer, AreAnswers;
      CallsAnswer(g, limit, allowed, st, calls, round, n - 1);
      var (mid, before) := RunCalls(g, st, calls, round, n - 1);
      if before.Success? {
        var (later, r) := g.answer(mid, calls[n - 1], round, n - 1);
        assert AnswersWell(g, limit, allowed, mid, calls[n - 1], round, n - 1);
        BoundsAdd(limit, allowed, st, mid, later);
        if r.Success? { OneMoreAnswer(before.value, calls, round, r.value); }
      }
    }
  }

  /** At most `left` requests were made, and exactly one text was printed if the run ended
      without an error, none otherwise. */
  ghost predicate EndsWell(left: int, st: State, later: State, stop: Option<Stop>)
  {
    && st.requests <= later.requests && |later.requests| - |st.requests| <= left
    && (stop.Some? ==> !stop.value.NoClient? && later.printed == st.printed)
    && (stop.None? ==> st.printed <= later.printed && |later.printed| == |st.printed| + 1)
  }

  /** A run makes at most one request a round, never more than the allowed tool calls, runs
      allowed tools only, always finds the client of a tool, and prints exactly once if it ends
      without an error and not at all otherwise. */
  lemma {:induction false} RunIsBounded(g: Engine, limit: nat, allowed: Execution -> bool, st: State, messages: seq<Message>, round: nat)
    requires IsReliable(g, limit, allowed) && round <= g.rounds + 1
    ensures var (later, stop) := RunRounds(g, st, messages, round);
      IsBounded(limit, allowed, st, later) && EndsWell(g.rounds + 1 - round, st, later, stop)
    decreases g.rounds + 1 - round
  {
    hide Respond;
    if round <= g.rounds && g.prune(messages).Success? && g.complete(|st.requests|).Success? {
      var asked := st.(requests := st.requests + [g.prune(messages).value]);
      ResponseIsBounded(g, limit, allowed, asked, messages, round, g.complete(|st.requests|).value);
    }
  }

  lemma {:induction false} ResponseIsBounded(g: Engine, limit: nat, allowed: Execution -> bool, st: State, messages: seq<Message>,
      round: nat, reply: Message)
    requires IsReliable(g, limit, allowed) && round <= g.rounds
    ensures var (later, stop) := Respond(g, st, messages, round, reply);
      IsBounded(limit, allowed, st, later) && EndsWell(g.rounds - round, st, later, stop)
    decreases g.rounds + 1 - round, 0
  {
    hide RunCalls, RunRounds;
    if reply.toolCalls != [] {
      CallsAnswer(g, limit, allowed, st, reply.toolCalls, round, |reply.toolCalls|);
      var (mid, results) := RunCalls(g, st, reply.toolCalls, round, |reply.toolCalls|);
      if results.Success? {
        var more := messages + [reply] + results.value;
        RunIsBounded(g, limit, allowed, mid, more, round + 1);
        BoundsAdd(limit, allowed, st, mid, RunRounds(g, mid, more, round + 1).0);
      }
    }
  }

  // ----- how a run ends

  /** All replies from the `first` to the one before the `last` request asked for tools. */
  ghost predicate AskedForTools(complete: nat -> Result<Message, string>, first: nat, last: nat)
  {
    forall n: nat :: first <= n < last ==> complete(n).Success? && complete(n).value.toolCalls != []
  }

  /** A run that ends without an error has printed either the trimmed content of the last reply,
      the first without tool calls, or, when all rounds asked for tools, the message on the
      limit; a failure of the model is that of the last request. */
  ghost predicate EndsAsTold(g: Engine, st: State, later: State, stop: Option<Stop>, left: int)
  {
    var first, last := |st.requests|, |later.requests|;
    && first <= last
    && (stop.None? ==>
          || (&& first < last && AskedForTools(g.complete, first, last - 1)
              && g.complete(last - 1).Success? && g.complete(last - 1).value.toolCalls == []
              && later.printed == st.printed + [TrimSpace(g.complete(last - 1).value.content)])
          || (&& last - first == left && AskedForTools(g.complete, first, last)
              && later.printed == st.printed + ["Agent stopped: maximum model rounds reached."]))
    && (stop.Some? && stop.value.ModelFailed? ==>
          first < last && AskedForTools(g.complete, first, last - 1) && g.complete(last - 1) == Failure(stop.value.why))
  }

  lemma {:induction false} RunEndsAsTold(g: Engine, limit: nat, allowed: Execution -> bool, st: State, messages: seq<Message>, round: nat)
    requires IsReliable(g, limit, allowed) && round <= g.rounds + 1
    ensures var (later, stop) := RunRounds(g, st, messages, round); EndsAsTold(g, st, later, stop, g.rounds + 1 - round)
    decreases g.rounds + 1 - round
  {
    hide Respond, IsReliable;
    if round <= g.rounds && g.prune(messages).Success? && g.complete(|st.requests|).Success? {
      var asked := st.(requests := st.requests + [g.prune(messages).value]);
      ResponseEndsAsTold(g, limit, allowed, st, asked, messages, round);
    }
  }

  lemma {:induction false} ResponseEndsAsTold(g: Engine, limit: nat, allowed: Execution -> bool, before: State, st: State,
      messages: seq<Message>, round: nat)
    requires IsReliable(g, limit, allowed) && round <= g.rounds
    requires |st.requests| == |before.requests| + 1 && st.printed == before.printed && g.complete(|before.requests|).Success?
    ensures var (later, stop) := Respond(g, st, messages, round, g.complete(|before.requests|).value);
      EndsAsTold(g, before, later, stop, g.rounds + 1 - round)
    decreases g.rounds + 1 - round, 0
  {
    hide RunCalls, RunRounds, IsReliable;
    var reply := g.complete(|before.requests|).value;
    if reply.toolCalls != [] {
      CallsAnswer(g, limit, allowed, st, reply.toolCalls, round, |reply.toolCalls|);
      var (mid, results) := RunCalls(g, st, reply.toolCalls, round, |reply.toolCalls|);
      if results.Success? {
        RunEndsAsTold(g, limit, allowed, mid, messages + [reply] + results.value, round + 1);
      }
    }
  }

  // ----- the messages

  /** What the chat protocol asks of replies. */
  ghost predicate RepliesAreAssistants(complete: nat -> Result<Message, string>)
  {
    forall n :: complete(n).Success? ==> complete(n).value.role == "assistant"
  }

  /** The i-th exchange is the i-th reply of the model with its results. */
  ghost predicate AreComplete(complete: nat -> Result<Message, string>, xs: seq<Exchange>)
  {
    forall i :: 0 <= i < |xs| ==> complete(i) == Success(xs[i].reply) && IsComplete(xs[i], i + 1)
  }

  lemma {:induction false} CompleteHaveRightRoles(complete: nat -> Result<Message, string>, xs: seq<Exchange>)
    requires RepliesAreAssistants(complete) && AreComplete(complete, xs)
    ensures forall n :: 0 <= n <= |xs| ==> HaveRightRoles(xs[..n])
  {
    forall i | 0 <= i < |xs| ensures HasRightRoles(xs[i]) {
      assert complete(i) == Success(xs[i].reply);
    }
  }

  /** The message is what the engine answers to the call in some state on the way to having run
      `executed`. */
  ghost predicate IsAnswered(g: Engine, executed: seq<Execution>, call: ToolCall, round: nat, index: nat, m: Message)
  {
    exists st: State :: IsAnsweredIn(g, st, executed, call, round, index, m)
  }

  ghost predicate IsAnsweredIn(g: Engine, st: State, executed: seq<Execution>, call: ToolCall, round: nat, index: nat, m: Message)
  {
    var (later, r) := g.answer(st, call, round, index);
    && st.toolCalls == |st.executed| && st.executed <= executed && later.executed <= executed
    && r == Success(m)
  }

  ghost predicate ResultsAreAnswers(g: Engine, executed: seq<Execution>, calls: seq<ToolCall>, round: nat, results: seq<Message>)
  {
    |results| <= |calls| && forall i :: 0 <= i < |results| ==> IsAnswered(g, executed, calls[i], round, i, results[i])
  }

  /** Every result of the exchanges is such an answer. */
  ghost predicate AreAnswered(g: Engine, executed: seq<Execution>, xs: seq<Exchange>)
  {
    forall r :: 0 <= r < |xs| ==> ResultsAreAnswers(g, executed, xs[r].reply.toolCalls, r + 1, xs[r].results)
  }

  lemma {:induction false} AnsweredMore(g: Engine, executed: seq<Execution>, more: seq<Execution>, call: ToolCall, round: nat, index: nat,
      m: Message)
    requires IsAnswered(g, executed, call, round, index, m) && executed <= more
    ensures IsAnswered(g, more, call, round, index, m)
  {
    var st: State :| IsAnsweredIn(g, st, executed, call, round, index, m);
    assert IsAnsweredIn(g, st, more, call, round, index, m);
  }

  lemma {:induction false} ResultsStayAnswers(g: Engine, executed: seq<Execution>, more: seq<Execution>, calls: seq<ToolCall>, round: nat,
      results: seq<Message>)
    requires ResultsAreAnswers(g, executed, calls, round, results) && executed <= more
    ensures ResultsAreAnswers(g, more, calls, round, results)
  {
    forall i | 0 <= i < |results| ensures IsAnswered(g, more, calls[i], round, i, results[i]) {
      AnsweredMore(g, executed, more, calls[i], round, i, results[i]);
    }
  }

  lemma {:induction false} CallsAreAnswered(g: Engine, limit: nat, allowed: Execution -> bool, st: State, calls: seq<ToolCall>,
      round: nat, n: nat)
    requires IsReliable(g, limit, allowed) && n <= |calls| && st.toolCalls == |st.executed|
    ensures var (later, r) := RunCalls(g, st, calls, round, n);
      r.Success? ==> ResultsAreAnswers(g, later.executed, calls, round, r.value)
  {
    if n > 0 {
      hide *;
      CallsAreAnswered(g, limit, allowed, st, calls, round, n - 1);
      CallsAreCounted(g, limit, allowed, st, calls, round, n - 1);
      RunCallsStep(g, st, calls, round, n);
      var (mid, before) := RunCalls(g, st, calls, round, n - 1);
      if before.Success? {
        AnswersGrow(g, limit, allowed, mid, calls[n - 1], round, n - 1);
        OneMoreAnswered(g, mid, calls, round, before.value);
      }
    }
  }

  lemma {:induction false} CallsAreCounted(g: Engine, limit: nat, allowed: Execution -> bool, st: State, calls: seq<ToolCall>,
      round: nat, n: nat)
    requires IsReliable(g, limit, allowed) && n <= |calls| && st.toolCalls == |st.executed|
    ensures var (later, r) := RunCalls(g, st, calls, round, n);
      later.toolCalls == |later.executed| && (r.Success? ==> |r.value| == n)
  {
    CallsAnswer(g, limit, allowed, st, calls, round, n);
  }

  lemma {:induction false} AnswersGrow(g: Engine, limit: nat, allowed: Execution -> bool, st: State, call: ToolCall, round: nat,
      index: nat)
    requires IsReliable(g, limit, allowed)
    ensures st.executed <= g.answer(st, call, round, index).0.executed
  {
    assert AnswersWell(g, limit, allowed, st, call, round, index);
  }

  lemma {:induction false} RunCallsStep(g: Engine, st: State, calls: seq<ToolCall>, round: nat, n: nat)
    requires 0 < n <= |calls|
    ensures var (mid, before) := RunCalls(g, st, calls, round, n - 1);
      before.Success? ==>
        var (later, r) := g.answer(mid, calls[n - 1], round, n - 1);
        RunCalls(g, st, calls, round, n) == (later, if r.Failure? then Failure(r.error) else Success(before.value + [r.value]))
    ensures RunCalls(g, st, calls, round, n - 1).1.Failure? ==> RunCalls(g, st, calls, round, n).1.Failure?
  {
  }

  lemma {:induction false} OneMoreAnswered(g: Engine, mid: State, calls: seq<ToolCall>, round: nat, results: seq<Message>)
    requires |results| < |calls| && ResultsAreAnswers(g, mid.executed, calls, round, results)
    requires mid.toolCalls == |mid.executed|
    ensures var (later, r) := g.answer(mid, calls[|results|], round, |results|);
      mid.executed <= later.executed && r.Success? ==>
        ResultsAreAnswers(g, later.executed, calls, round, results + [r.value])
  {
    var (later, r) := g.answer(mid, calls[|results|], round, |results|);
    if mid.executed <= later.executed && r.Success? {
      ResultsStayAnswers(g, mid.executed, later.executed, calls, round, results);
      assert IsAnsweredIn(g, mid, later.executed, calls[|results|], round, |results|, r.value);
    }
  }

  lemma {:induction false} MoreAreAnswered(g: Engine, executed: seq<Execution>, more: seq<Execution>, xs: seq<Exchange>, x: Exchange)
    requires AreAnswered(g, executed, xs) && executed <= more
    requires ResultsAreAnswers(g, more, x.reply.toolCalls, |xs| + 1, x.results)
    ensures AreAnswered(g, more, xs + [x])
  {
    forall r | 0 <= r < |xs| ensures ResultsAreAnswers(g, more, xs[r].reply.toolCalls, r + 1, xs[r].results) {
      ResultsStayAnswers(g, executed, more, xs[r].reply.toolCalls, r + 1, xs[r].results);
    }
  }

  lemma {:induction false} StayAnswered(g: Engine, executed: seq<Execution>, more: seq<Execution>, xs: seq<Exchange>)
    requires AreAnswered(g, executed, xs) && executed <= more
    ensures AreAnswered(g, more, xs)
  {
    forall r | 0 <= r < |xs| ensures ResultsAreAnswers(g, more, xs[r].reply.toolCalls, r + 1, xs[r].results) {
      ResultsStayAnswers(g, executed, more, xs[r].reply.toolCalls, r + 1, xs[r].results);
    }
  }

  /** The requests of rounds `first` and later prune the start and all exchanges before them. */
  ghost predicate AsksFor(g: Engine, start: seq<Message>, all: seq<Exchange>, requests: seq<seq<Message>>, first: nat)
  {
    && |all| <= |requests| <= |all| + 1
    && forall r :: first <= r < |requests| ==> g.prune(start + Flat(all[..r])) == Success(requests[r])
  }

  /** A run builds up complete exchanges, whose results are the answers of the engine, and each
      request prunes what has been built so far. */
  lemma {:induction false} RunOfExchanges(g: Engine, limit: nat, allowed: Execution -> bool, start: seq<Message>, st: State,
      xs: seq<Exchange>)
    returns (all: seq<Exchange>)
    requires IsReliable(g, limit, allowed) && AreComplete(g.complete, xs) && |xs| == |st.requests| <= g.rounds
    requires AreAnswered(g, st.executed, xs) && st.toolCalls == |st.executed|
    ensures xs <= all && AreComplete(g.complete, all)
    ensures AreAnswered(g, RunRounds(g, st, start + Flat(xs), |xs| + 1).0.executed, all)
    ensures AsksFor(g, start, all, RunRounds(g, st, start + Flat(xs), |xs| + 1).0.requests, |xs|)
    ensures st.requests <= RunRounds(g, st, start + Flat(xs), |xs| + 1).0.requests
    decreases g.rounds - |xs|, 1
  {
    hide IsReliable, AreComplete, Flat, AreAnswered;
    all := xs;
    var messages, n := start + Flat(xs), |xs|;
    assert xs[..n] == xs;
    if n < g.rounds && g.prune(messages).Success? {
      var asked := st.(requests := st.requests + [g.prune(messages).value]);
      if g.complete(n).Success? {
        all := ResponseOfExchanges(g, limit, allowed, start, asked, xs, g.complete(n).value);
        assert all[..n] == xs;
      }
    }
  }

  lemma {:induction false} ResponseOfExchanges(g: Engine, limit: nat, allowed: Execution -> bool, start: seq<Message>, st: State,
      xs: seq<Exchange>, reply: Message) returns (all: seq<Exchange>)
    requires IsReliable(g, limit, allowed) && AreComplete(g.complete, xs) && |xs| + 1 == |st.requests| <= g.rounds
    requires g.complete(|xs|) == Success(reply) && AreAnswered(g, st.executed, xs)
    requires st.toolCalls == |st.executed|
    ensures xs <= all && AreComplete(g.complete, all)
    ensures AreAnswered(g, Respond(g, st, start + Flat(xs), |xs| + 1, reply).0.executed, all)
    ensures AsksFor(g, start, all, Respond(g, st, start + Flat(xs), |xs| + 1, reply).0.requests, |xs| + 1)
    ensures st.requests <= Respond(g, st, start + Flat(xs), |xs| + 1, reply).0.requests
    decreases g.rounds - |xs|, 0, 1
  {
    hide AreAnswered, IsReliable, RunCalls, RunRounds, Flat;
    all := xs;
    var n := |xs|;
    CallsAnswer(g, limit, allowed, st, reply.toolCalls, n + 1, |reply.toolCalls|);
    CallsAreAnswered(g, limit, allowed, st, reply.toolCalls, n + 1, |reply.toolCalls|);
    var (mid, results) := RunCalls(g, st, reply.toolCalls, n + 1, |reply.toolCalls|);
    StayAnswered(g, st.executed, mid.executed, xs);
    if reply.toolCalls != [] && results.Success? {
      MoreAreAnswered(g, st.executed, mid.executed, xs, Exchange(reply, results.value));
      all := NextExchange(g, limit, allowed, start, mid, xs, Exchange(reply, results.value));
    }
  }

  /** The rounds that follow once a reply has been answered in full. */
  lemma {:induction false} NextExchange(g: Engine, limit: nat, allowed: Execution -> bool, start: seq<Message>, mid: State,
      xs: seq<Exchange>, x: Exchange) returns (all: seq<Exchange>)
    requires IsReliable(g, limit, allowed) && AreComplete(g.complete, xs) && |xs| + 1 == |mid.requests| <= g.rounds
    requires g.complete(|xs|) == Success(x.reply) && IsComplete(x, |xs| + 1) && AreAnswered(g, mid.executed, xs + [x])
    requires mid.toolCalls == |mid.executed|
    ensures xs <= all && AreComplete(g.complete, all)
    ensures AreAnswered(g, RunRounds(g, mid, start + Flat(xs) + [x.reply] + x.results, |xs| + 2).0.executed, all)
    ensures var later := RunRounds(g, mid, start + Flat(xs) + [x.reply] + x.results, |xs| + 2).0;
      AsksFor(g, start, all, later.requests, |xs| + 1) && mid.requests <= later.requests
    decreases g.rounds - |xs|, 0, 0
  {
    FlatOfMore(start, xs, x);
    ExtendsComplete(g.complete, xs, x);
    all := RunOfExchanges(g, limit, allowed, start, mid, xs + [x]);
  }

  lemma {:induction false} ExtendsComplete(complete: nat -> Result<Message, string>, xs: seq<Exchange>, x: Exchange)
    requires AreComplete(complete, xs) && complete(|xs|) == Success(x.reply) && IsComplete(x, |xs| + 1)
    ensures AreComplete(complete, xs + [x])
  {
  }

  lemma {:induction false} FlatOfMore(start: seq<Message>, xs: seq<Exchange>, x: Exchange)
    ensures start + Flat(xs) + [x.reply] + x.results == start + Flat(xs + [x])
  {
    FlatOfConcat(xs, [x]);
    FlatOfOne(x);
  }
}
