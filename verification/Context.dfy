/** Pruning the conversation to the context of the model (internal/agent/context.go).
    Every character of a string stands for one byte. */
module Context {
  import opened Results

  datatype ToolCall = ToolCall(id: string, kind: string, name: string, arguments: string)
  datatype Message = Message(role: string, content: string, toolCalls: seq<ToolCall>, toolCallId: string, name: string)

  /** A tool as the model sees it; `keys` are the keywords of its parameter schema. */
  datatype ModelTool = ModelTool(name: string, description: string, keys: seq<string>)

  /** `ContextTokens`, `ReservedTokens` and `maxToolResultBytes`; in the program 4096, 256 and 4096. */
  datatype Budget = Budget(context: nat, reserved: nat, resultBytes: nat)

  const TRUNCATED := "\U{e2}\U{80}\U{a6}[truncated]"

  /** Four bytes a token, rounded up: the least number of tokens that has room for the text. */
  function EstimateTokens(text: string): (n: nat)
    ensures |text| <= 4 * n < |text| + 4
  {
    (|text| + 3) / 4
  }

  function CallTokens(calls: seq<ToolCall>): nat
  {
    if calls == [] then 0
    else
      var last := calls[|calls| - 1];
      CallTokens(calls[..|calls| - 1]) + EstimateTokens(last.name) + EstimateTokens(last.arguments) + 8
  }

  function MessageTokens(m: Message): nat
  {
    EstimateTokens(m.content) + 8 + CallTokens(m.toolCalls)
  }

  function TailTokens(tail: seq<Message>): nat
  {
    if tail == [] then 0 else TailTokens(tail[..|tail| - 1]) + MessageTokens(tail[|tail| - 1])
  }

  function KeyTokens(keys: seq<string>): nat
  {
    if keys == [] then 0 else KeyTokens(keys[..|keys| - 1]) + EstimateTokens(keys[|keys| - 1]) + 4
  }

  function ToolsTokens(tools: seq<ModelTool>): nat
  {
    if tools == [] then 0
    else
      var last := tools[|tools| - 1];
      ToolsTokens(tools[..|tools| - 1])
      + EstimateTokens(last.name) + EstimateTokens(last.description) + 16 + KeyTokens(last.keys) + 48
  }

  /** A long text is its first `limit` bytes and the marker. */
  function ClampText(text: string, limit: nat): (r: string)
    ensures |text| <= limit ==> r == text
    ensures |text| > limit ==> |r| == limit + |TRUNCATED| && r[..limit] == text[..limit] && r[limit..] == TRUNCATED
  {
    if |text| <= limit then text else text[..limit] + TRUNCATED
  }

  /** A tool result as it is kept; other messages are kept as they are. */
  function ClampMessage(m: Message, limit: nat): Message
  {
    if m.role == "tool" then m.(content := ClampText(m.content, limit)) else m
  }

  function ClampAll(messages: seq<Message>, limit: nat): (r: seq<Message>)
    ensures |r| == |messages| && forall i :: 0 <= i < |r| ==> r[i] == ClampMessage(messages[i], limit)
  {
    seq(|messages|, i requires 0 <= i < |messages| => ClampMessage(messages[i], limit))
  }

  /** The last message of the user, or -1. */
  function LastUser(messages: seq<Message>): (i: int)
    ensures -1 <= i < |messages|
    ensures i >= 0 ==> messages[i].role == "user"
    ensures forall j :: i < j < |messages| ==> messages[j].role != "user"
  {
    if messages == [] then -1
    else if messages[|messages| - 1].role == "user" then |messages| - 1
    else LastUser(messages[..|messages| - 1])
  }

  // ----- whole exchanges

  /** Where a tail may be cut: in front of anything but a tool result, or at its very start. */
  predicate IsCut(tail: seq<Message>, k: nat)
  {
    k <= |tail| && (k == 0 || k == |tail| || tail[k].role != "tool")
  }

  /** The first cut after the start: where `dropOldestExchange` cuts. */
  function NextCut(tail: seq<Message>, k: nat): (c: nat)
    requires 0 < k <= |tail|
    ensures k <= c <= |tail| && IsCut(tail, c)
    ensures forall j :: k <= j < c ==> !IsCut(tail, j)
    decreases |tail| - k
  {
    if k < |tail| && tail[k].role == "tool" then NextCut(tail, k + 1) else k
  }

  /** The start of the longest suffix of whole exchanges whose tokens fit. */
  ghost predicate IsLongestFit(tail: seq<Message>, left: int, k: nat)
  {
    && IsCut(tail, k) && TailTokens(tail[k..]) <= left
    && forall j :: 0 <= j < k && IsCut(tail, j) ==> TailTokens(tail[j..]) > left
  }

  /** The cut the drop loop ends at when it stands at cut `k`. */
  function FirstFit(tail: seq<Message>, left: nat, k: nat): (r: nat)
    requires IsCut(tail, k)
    ensures k <= r <= |tail|
    decreases |tail| - k
  {
    if k == |tail| || TailTokens(tail[k..]) <= left then k else FirstFit(tail, left, NextCut(tail, k + 1))
  }

  /** It is the first cut from `k` on behind which everything fits. */
  lemma {:induction false} FirstFitIsFirst(tail: seq<Message>, left: nat, k: nat)
    requires IsCut(tail, k)
    ensures IsCut(tail, FirstFit(tail, left, k)) && TailTokens(tail[FirstFit(tail, left, k)..]) <= left
    ensures forall j :: k <= j < FirstFit(tail, left, k) && IsCut(tail, j) ==> TailTokens(tail[j..]) > left
    decreases |tail| - k
  {
    FirstFitStep(tail, left, k);
    NothingFits();
    hide FirstFit, NextCut, TailTokens;
    if k < |tail| && TailTokens(tail[k..]) > left {
      FirstFitIsFirst(tail, left, NextCut(tail, k + 1));
    } else {
      assert k == |tail| ==> tail[k..] == [];
    }
  }

  lemma {:induction false} LongestFitIsUnique(tail: seq<Message>, left: int, j: nat, k: nat)
    requires IsLongestFit(tail, left, j) && IsLongestFit(tail, left, k)
    ensures j == k
  {
  }

  /** What is left for the tail. */
  function TailBudget(budget: Budget, tools: seq<ModelTool>, system: Message, user: Message): int
  {
    budget.context - budget.reserved - ToolsTokens(tools) - MessageTokens(system) - MessageTokens(user)
  }

  /** The tail of a conversation: what follows the current user request, results clamped. */
  function TailOf(messages: seq<Message>, limit: nat): seq<Message>
    requires LastUser(messages) >= 0
  {
    ClampAll(messages[LastUser(messages) + 1..], limit)
  }

  const EMPTY := "conversation is empty"
  const NO_REQUEST := "conversation has no user request"
  const TOO_LARGE := "the request does not fit into the model context"

  /** What `pruneMessages` returns. */
  function Pruned(messages: seq<Message>, tools: seq<ModelTool>, budget: Budget): Result<seq<Message>, string>
  {
    if messages == [] then Failure(EMPTY)
    else if LastUser(messages) < 0 then Failure(NO_REQUEST)
    else
      var system, user := messages[0], messages[LastUser(messages)];
      var left := TailBudget(budget, tools, system, user);
      var tail := TailOf(messages, budget.resultBytes);
      if left <= 0 then Failure(TOO_LARGE) else Success([system, user] + tail[FirstFit(tail, left, 0)..])
  }

  lemma {:induction false} PrunedStart(messages: seq<Message>, tools: seq<ModelTool>, budget: Budget) returns (start: nat)
    ensures Pruned(messages, tools, budget).Success? <==>
      && messages != [] && LastUser(messages) >= 0
      && TailBudget(budget, tools, messages[0], messages[LastUser(messages)]) > 0
    ensures Pruned(messages, tools, budget).Success? ==>
      && var tail := TailOf(messages, budget.resultBytes);
      && var user := messages[LastUser(messages)];
      && IsLongestFit(tail, TailBudget(budget, tools, messages[0], user), start)
      && Pruned(messages, tools, budget).value == [messages[0], user] + tail[start..]
  {
    start := 0;
    if Pruned(messages, tools, budget).Success? {
      var left := TailBudget(budget, tools, messages[0], messages[LastUser(messages)]);
      start := FirstFit(TailOf(messages, budget.resultBytes), left, 0);
      FirstFitIsFirst(TailOf(messages, budget.resultBytes), left, 0);
    }
  }

  /** Pruning fails exactly when there is no request or the request does not fit by itself, that
      is, nothing is left of the context after the reserved tokens, the tools, the first message
      and the request; otherwise it returns the first message, the current request and the
      longest suffix of whole exchanges that fits behind them. */
  lemma {:induction false} PruningKeepsTheLongestFit(messages: seq<Message>, tools: seq<ModelTool>, budget: Budget)
    returns (start: nat)
    ensures messages == [] ==> Pruned(messages, tools, budget) == Failure("conversation is empty")
    ensures messages != [] && LastUser(messages) < 0 ==>
      Pruned(messages, tools, budget) == Failure("conversation has no user request")
    ensures LastUser(messages) >= 0 ==>
      var system, user := messages[0], messages[LastUser(messages)];
      var left := budget.context - budget.reserved - ToolsTokens(tools) - MessageTokens(system) - MessageTokens(user);
      var tail := ClampAll(messages[LastUser(messages) + 1..], budget.resultBytes);
      if left <= 0 then Pruned(messages, tools, budget) == Failure("the request does not fit into the model context")
      else IsLongestFit(tail, left, start) && Pruned(messages, tools, budget) == Success([system, user] + tail[start..])
  {
    start := PrunedStart(messages, tools, budget);
    hide ToolsTokens, MessageTokens, IsLongestFit, FirstFit, ClampAll;
  }

  // ----- the code

  method CountTail(tail: seq<Message>) returns (used: nat)
    ensures used == TailTokens(tail)
  {
    used := 0;
    for i := 0 to |tail|
      invariant used == TailTokens(tail[..i])
    {
      var message, total := tail[i], 0;
      total := EstimateTokens(message.content) + 8;
      for j := 0 to |message.toolCalls|
        invariant total == EstimateTokens(message.content) + 8 + CallTokens(message.toolCalls[..j])
      {
        var call := message.toolCalls[j];
        assert message.toolCalls[..j + 1][..j] == message.toolCalls[..j];
        total := total + EstimateTokens(call.name) + EstimateTokens(call.arguments) + 8;
      }
      assert message.toolCalls[..|message.toolCalls|] == message.toolCalls;
      assert tail[..i + 1][..i] == tail[..i];
      used := used + total;
    }
    assert tail[..|tail|] == tail;
  }

  /** One step of the drop loop goes from a cut to the next one. */
  method DropOldestExchange(tail: seq<Message>) returns (rest: seq<Message>)
    ensures rest == if tail == [] then [] else tail[NextCut(tail, 1)..]
  {
    if |tail| == 0 {
      return tail;
    }
    var index := 1;
    while index < |tail| && tail[index].role == "tool"
      invariant 1 <= index <= |tail| && NextCut(tail, index) == NextCut(tail, 1)
    {
      index := index + 1;
    }
    return tail[index..];
  }

  /** The drop loop of `pruneMessages`; the error it could return for an empty tail is never
      reached. */
  method DropUntilFit(whole: seq<Message>, left: nat) returns (r: Result<seq<Message>, string>)
    ensures r == Success(whole[FirstFit(whole, left, 0)..])
  {
    NothingFits();
    hide TailTokens, FirstFit;
    var tail := whole;
    ghost var start: nat := 0;
    while true
      invariant start <= |whole| && tail == whole[start..] && IsCut(whole, start)
      invariant FirstFit(whole, left, start) == FirstFit(whole, left, 0)
      decreases |tail|
    {
      var used := CountTail(tail);
      FirstFitStep(whole, left, start);
      if used <= left {
        break;
      }
      if |tail| == 0 {
        return Failure(TOO_LARGE);
      }
      NextCutOfSuffix(whole, start, 1);
      start := NextCut(whole, start + 1);
      tail := DropOldestExchange(tail);
    }
    return Success(tail);
  }

  lemma {:induction false} NothingFits()
    ensures TailTokens([]) == 0
  {
  }

  lemma {:induction false} FirstFitStep(tail: seq<Message>, left: nat, k: nat)
    requires IsCut(tail, k)
    ensures FirstFit(tail, left, k) ==
      if k == |tail| || TailTokens(tail[k..]) <= left then k else FirstFit(tail, left, NextCut(tail, k + 1))
  {
  }

  lemma {:induction false} NextCutOfSuffix(whole: seq<Message>, start: nat, k: nat)
    requires 0 < k && start + k <= |whole|
    ensures start + NextCut(whole[start..], k) == NextCut(whole, start + k)
    decreases |whole| - k
  {
    if start + k < |whole| && whole[start + k].role == "tool" { NextCutOfSuffix(whole, start, k + 1); }
  }

  method FindUser(messages: seq<Message>) returns (userIndex: int)
    ensures userIndex == LastUser(messages)
  {
    userIndex := |messages| - 1;
    while userIndex >= 0 && messages[userIndex].role != "user"
      invariant -1 <= userIndex < |messages|
      invariant forall j :: userIndex < j < |messages| ==> messages[j].role != "user"
    {
      userIndex := userIndex - 1;
    }
  }

  method CollectTail(after: seq<Message>, limit: nat) returns (tail: seq<Message>)
    ensures tail == ClampAll(after, limit)
  {
    tail := [];
    for i := 0 to |after|
      invariant tail == ClampAll(after[..i], limit)
    {
      var message := after[i];
      if message.role == "tool" {
        message := message.(content := ClampText(message.content, limit));
      }
      tail := tail + [message];
    }
    assert after[..|after|] == after;
  }

  /** `pruneMessages`; its four loops are the four methods above. */
  method PruneMessages(messages: seq<Message>, tools: seq<ModelTool>, budget: Budget)
    returns (r: Result<seq<Message>, string>)
    ensures r == Pruned(messages, tools, budget)
  {
    if |messages| == 0 {
      return Failure(EMPTY);
    }
    var system := messages[0];
    var userIndex := FindUser(messages);
    if userIndex < 0 {
      return Failure(NO_REQUEST);
    }
    var user := messages[userIndex];
    var tail := CollectTail(messages[userIndex + 1..], budget.resultBytes);
    var left := TailBudget(budget, tools, system, user);
    if left <= 0 {
      return Failure(TOO_LARGE);
    }
    var kept := DropUntilFit(tail, left);
    match kept {
      case Failure(e) => { return Failure(e); }
      case Success(rest) => { return Success([system, user] + rest); }
    }
  }

  // ----- what pruning guarantees

  lemma {:induction false} TokensOfConcat(a: seq<Message>, b: seq<Message>)
    ensures TailTokens(a + b) == TailTokens(a) + TailTokens(b)
  {
    if b == [] {
      assert a + b == a;
    } else {
      var c := a + b;
      assert c[..|c| - 1] == a + b[..|b| - 1];
      TokensOfConcat(a, b[..|b| - 1]);
    }
  }

  /** A pruned conversation, the tools and the reserved output fit the context together. */
  lemma {:induction false} PrunedFits(messages: seq<Message>, tools: seq<ModelTool>, budget: Budget)
    requires Pruned(messages, tools, budget).Success?
    ensures TailTokens(Pruned(messages, tools, budget).value) + ToolsTokens(tools) + budget.reserved <= budget.context
  {
    var start := PrunedStart(messages, tools, budget);
    var system, user := messages[0], messages[LastUser(messages)];
    TokensOfRequest(system, user, TailOf(messages, budget.resultBytes)[start..]);
  }

  /** The bytes of a message that the model reads. */
  function Bytes(m: Message): nat
  {
    |m.content| + CallBytes(m.toolCalls)
  }

  function CallBytes(calls: seq<ToolCall>): nat
  {
    if calls == [] then 0
    else CallBytes(calls[..|calls| - 1]) + |calls[|calls| - 1].name| + |calls[|calls| - 1].arguments|
  }

  function AllBytes(messages: seq<Message>): nat
  {
    if messages == [] then 0 else AllBytes(messages[..|messages| - 1]) + Bytes(messages[|messages| - 1])
  }

  lemma {:induction false} CallsHaveRoom(calls: seq<ToolCall>)
    ensures CallBytes(calls) + 32 * |calls| <= 4 * CallTokens(calls)
  {
    if calls != [] { CallsHaveRoom(calls[..|calls| - 1]); }
  }

  /** The estimate never falls short of four bytes a token, and counts eight tokens for every
      message and for every call. */
  lemma {:induction false} TokensHaveRoom(messages: seq<Message>)
    ensures AllBytes(messages) + 32 * |messages| <= 4 * TailTokens(messages)
  {
    if messages != [] {
      TokensHaveRoom(messages[..|messages| - 1]);
      CallsHaveRoom(messages[|messages| - 1].toolCalls);
    }
  }

  /** The parts of the estimate: the texts, and eight tokens for the message and for each call. */
  function TextTokens(calls: seq<ToolCall>): nat
  {
    if calls == [] then 0
    else EstimateTokens(calls[0].name) + EstimateTokens(calls[0].arguments) + TextTokens(calls[1..])
  }

  lemma {:induction false} CallsCost(calls: seq<ToolCall>, more: seq<ToolCall>)
    ensures CallTokens(calls + more) == CallTokens(calls) + TextTokens(more) + 8 * |more|
    decreases |more|
  {
    if more == [] {
      assert calls + more == calls;
    } else {
      assert calls + more == (calls + [more[0]]) + more[1..];
      CallsCost(calls + [more[0]], more[1..]);
      assert (calls + [more[0]])[..|calls|] == calls;
    }
  }

  lemma {:induction false} MessagesCost(m: Message)
    ensures MessageTokens(m) == EstimateTokens(m.content) + TextTokens(m.toolCalls) + 8 * (1 + |m.toolCalls|)
  {
    CallsCost([], m.toolCalls);
    assert [] + m.toolCalls == m.toolCalls;
  }

  function KeyTexts(keys: seq<string>): nat
  {
    if keys == [] then 0 else EstimateTokens(keys[0]) + KeyTexts(keys[1..])
  }

  lemma {:induction false} KeysCost(keys: seq<string>)
    ensures KeyTokens(keys) == KeyTexts(keys) + 4 * |keys|
  {
    if keys != [] {
      KeysCost(keys[1..]);
      KeyTokensWithout(keys, 0);
      assert keys[..0] + keys[1..] == keys[1..];
    }
  }

  function ToolTexts(tools: seq<ModelTool>): nat
  {
    if tools == [] then 0
    else
      var first := tools[0];
      EstimateTokens(first.name) + EstimateTokens(first.description) + KeyTexts(first.keys) + 4 * |first.keys| + ToolTexts(tools[1..])
  }

  /** A tool costs its texts, four tokens for each keyword of its schema, and 64. */
  lemma {:induction false} ToolsCost(tools: seq<ModelTool>, more: seq<ModelTool>)
    ensures ToolsTokens(tools + more) == ToolsTokens(tools) + ToolTexts(more) + 64 * |more|
    decreases |more|
  {
    if more == [] {
      assert tools + more == tools;
    } else {
      assert tools + more == (tools + [more[0]]) + more[1..];
      ToolsCost(tools + [more[0]], more[1..]);
      assert (tools + [more[0]])[..|tools|] == tools;
      KeysCost(more[0].keys);
    }
  }

  /** So what is sent has room in the context, at four bytes a token. */
  lemma {:induction false} PrunedHasRoom(messages: seq<Message>, tools: seq<ModelTool>, budget: Budget)
    requires Pruned(messages, tools, budget).Success?
    ensures var sent := Pruned(messages, tools, budget).value;
      AllBytes(sent) + 32 * |sent| + 4 * budget.reserved <= 4 * budget.context
  {
    PrunedFits(messages, tools, budget);
    TokensHaveRoom(Pruned(messages, tools, budget).value);
  }

  lemma {:induction false} TokensOfRequest(system: Message, user: Message, rest: seq<Message>)
    ensures TailTokens([system, user] + rest) == MessageTokens(system) + MessageTokens(user) + TailTokens(rest)
  {
    TokensOfConcat([system, user], rest);
    assert [system, user] == [system] + [user];
    TokensOfConcat([system], [user]);
    OneMessage(system);
    OneMessage(user);
  }

  lemma {:induction false} OneMessage(m: Message)
    ensures TailTokens([m]) == MessageTokens(m)
  {
    assert [m][..0] == [];
  }

  /** The code adds up the keywords of a schema in the order in which Go visits a map; the sum
      does not depend on it. */
  lemma {:induction false} KeyTokensIgnoreOrder(a: seq<string>, b: seq<string>)
    requires multiset(a) == multiset(b)
    ensures KeyTokens(a) == KeyTokens(b)
  {
    assert |a| == |multiset(a)| == |multiset(b)| == |b|;
    if a != [] {
      var front, last := a[..|a| - 1], a[|a| - 1];
      var k := LastOccurs(a, b);
      WithoutOne(a, |a| - 1);
      WithoutOne(b, k);
      assert a[..|a| - 1] + a[|a|..] == front;
      KeyTokensIgnoreOrder(front, b[..k] + b[k + 1..]);
      KeyTokensWithout(b, k);
    }
  }

  lemma {:induction false} LastOccurs(a: seq<string>, b: seq<string>) returns (k: nat)
    requires a != [] && multiset(a) == multiset(b)
    ensures k < |b| && b[k] == a[|a| - 1]
  {
    assert a[|a| - 1] in multiset(b);
    k :| 0 <= k < |b| && b[k] == a[|a| - 1];
  }

  lemma {:induction false} WithoutOne(keys: seq<string>, k: nat)
    requires k < |keys|
    ensures multiset(keys[..k] + keys[k + 1..]) == multiset(keys) - multiset{keys[k]}
  {
    assert keys == keys[..k] + [keys[k]] + keys[k + 1..];
  }

  lemma {:induction false} KeyTokensWithout(keys: seq<string>, k: nat)
    requires k < |keys|
    ensures KeyTokens(keys) == KeyTokens(keys[..k] + keys[k + 1..]) + EstimateTokens(keys[k]) + 4
  {
    var before, after := keys[..k], keys[k + 1..];
    assert keys == before + [keys[k]] + after;
    KeyTokensOfConcat(before + [keys[k]], after);
    KeyTokensOfConcat(before, [keys[k]]);
    KeyTokensOfConcat(before, after);
    assert [keys[k]][..0] == [];
  }

  lemma {:induction false} KeyTokensOfConcat(a: seq<string>, b: seq<string>)
    ensures KeyTokens(a + b) == KeyTokens(a) + KeyTokens(b)
  {
    if b == [] {
      assert a + b == a;
    } else {
      assert (a + b)[..|a + b| - 1] == a + b[..|b| - 1];
      KeyTokensOfConcat(a, b[..|b| - 1]);
    }
  }

  /** Clamping what is already clamped changes nothing, although the marker makes it longer
      than the limit. */
  lemma ClampIsIdempotent(text: string, limit: nat)
    ensures ClampText(ClampText(text, limit), limit) == ClampText(text, limit)
  {
    if |text| > limit { assert ClampText(text, limit)[..limit] == text[..limit]; }
  }

  /** Pruning its own result again changes nothing. */
  lemma {:induction false} PruningIsIdempotent(messages: seq<Message>, tools: seq<ModelTool>, budget: Budget)
    requires Pruned(messages, tools, budget).Success?
    ensures Pruned(Pruned(messages, tools, budget).value, tools, budget) == Pruned(messages, tools, budget)
  {
    var start := PrunedStart(messages, tools, budget);
    hide Pruned, FirstFit, TailTokens, TailBudget, ClampText;
    var tail := TailOf(messages, budget.resultBytes);
    var system, user := messages[0], messages[LastUser(messages)];
    ClampedStaysClamped(messages[LastUser(messages) + 1..], budget.resultBytes, start);
    assert forall m :: m in tail[start..] ==> m.role != "user";
    PrunedStaysPruned(system, user, tail[start..], tools, budget);
  }

  lemma {:induction false} ClampedStaysClamped(after: seq<Message>, limit: nat, start: nat)
    requires start <= |after|
    ensures ClampAll(ClampAll(after, limit)[start..], limit) == ClampAll(after, limit)[start..]
  {
    forall i | 0 <= i < |after| ensures ClampMessage(ClampMessage(after[i], limit), limit) == ClampMessage(after[i], limit) {
      ClampIsIdempotent(after[i].content, limit);
    }
  }

  lemma {:induction false} PrunedStaysPruned(system: Message, user: Message, rest: seq<Message>, tools: seq<ModelTool>, budget: Budget)
    requires user.role == "user" && forall m :: m in rest ==> m.role != "user"
    requires ClampAll(rest, budget.resultBytes) == rest
    requires TailBudget(budget, tools, system, user) > 0
    requires TailTokens(rest) <= TailBudget(budget, tools, system, user)
    ensures Pruned([system, user] + rest, tools, budget) == Success([system, user] + rest)
  {
    hide TailBudget, TailTokens, LastUser, ClampAll;
    var again := [system, user] + rest;
    RequestIsSecond(system, user, rest);
    assert again[2..] == rest && rest[0..] == rest;
  }

  lemma {:induction false} RequestIsSecond(system: Message, user: Message, rest: seq<Message>)
    requires user.role == "user" && forall m :: m in rest ==> m.role != "user"
    ensures LastUser([system, user] + rest) == 1
  {
    var all := [system, user] + rest;
    assert all[1] == user && forall j :: 1 < j < |all| ==> all[j] in rest;
  }

  /** As a conversation grows without a new user request, the start of what is kept never moves
      backwards: an exchange that was dropped never returns. */
  lemma {:induction false} DroppedNeverReturns(messages: seq<Message>, more: seq<Message>, tools: seq<ModelTool>,
      budget: Budget, left: nat)
    requires LastUser(messages) >= 0 && forall m :: m in more ==> m.role != "user"
    requires left == TailBudget(budget, tools, messages[0], messages[LastUser(messages)])
    ensures LastUser(messages + more) == LastUser(messages)
    ensures FirstFit(TailOf(messages, budget.resultBytes), left, 0)
      <= FirstFit(TailOf(messages + more, budget.resultBytes), left, 0)
  {
    LastUserStays(messages, more);
    hide FirstFit, TailBudget, LastUser;
    var before, after := TailOf(messages, budget.resultBytes), TailOf(messages + more, budget.resultBytes);
    assert after == before + ClampAll(more, budget.resultBytes);
    LongerTailStartsLater(before, ClampAll(more, budget.resultBytes), left);
  }

  lemma {:induction false} LastUserStays(messages: seq<Message>, more: seq<Message>)
    requires LastUser(messages) >= 0 && forall m :: m in more ==> m.role != "user"
    ensures LastUser(messages + more) == LastUser(messages)
  {
    var was, now := LastUser(messages), LastUser(messages + more);
    forall j | was < j < |messages + more| ensures (messages + more)[j].role != "user" {
      assert (messages + more)[j] == if j < |messages| then messages[j] else more[j - |messages|];
    }
    assert (messages + more)[was] == messages[was];
  }

  lemma {:induction false} LongerTailStartsLater(tail: seq<Message>, more: seq<Message>, left: nat)
    ensures FirstFit(tail, left, 0) <= FirstFit(tail + more, left, 0)
  {
    hide FirstFit, TailTokens;
    var now := FirstFit(tail, left, 0);
    FirstFitIsFirst(tail, left, 0);
    FirstFitIsFirst(tail + more, left, 0);
    forall j | 0 <= j < now && IsCut(tail + more, j) ensures TailTokens((tail + more)[j..]) > left {
      assert (tail + more)[j..] == tail[j..] + more;
      TokensOfConcat(tail[j..], more);
      assert (tail + more)[j] == tail[j];
    }
  }
}
