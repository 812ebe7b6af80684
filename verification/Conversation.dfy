/** Conversations as exchanges: a reply of the model with the results that answer its tool
    calls. On them the token-driven pruning of internal/agent/context.go, which looks for the
    next message that is no tool result, drops whole exchanges from the front. */
module Conversation {
  import opened Results
  import opened Strings
  import opened Context

  datatype Exchange = Exchange(reply: Message, results: seq<Message>)

  function Flat(exchanges: seq<Exchange>): seq<Message>
  {
    if exchanges == [] then [] else [exchanges[0].reply] + exchanges[0].results + Flat(exchanges[1..])
  }

  predicate HasRightRoles(x: Exchange)
  {
    && x.reply.role != "tool" && x.reply.role != "user"
    && forall i :: 0 <= i < |x.results| ==> x.results[i].role == "tool"
  }

  predicate HaveRightRoles(exchanges: seq<Exchange>)
  {
    forall i :: 0 <= i < |exchanges| ==> HasRightRoles(exchanges[i])
  }

  /** The id under which a call is answered. */
  function AnswerId(call: ToolCall, round: nat, index: nat): string
  {
    if TrimSpace(call.id) != "" then TrimSpace(call.id) else "call_" + Itoa(round) + "_" + Itoa(index)
  }

  lemma {:induction false} NoUnderscore(n: nat)
    ensures '_' !in Itoa(n)
  {
    assert forall i :: 0 <= i < |Itoa(n)| ==> Itoa(n)[i] != '_';
  }

  /** A call keeps its id, trimmed; calls without one get different ids at different places. */
  lemma {:induction false} AnswerIdsTell(a: ToolCall, b: ToolCall, round: nat, index: nat, round': nat, index': nat)
    ensures TrimSpace(a.id) != "" ==> AnswerId(a, round, index) == TrimSpace(a.id)
    ensures TrimSpace(a.id) == TrimSpace(b.id) == "" && AnswerId(a, round, index) == AnswerId(b, round', index') ==>
      round == round' && index == index'
  {
    if TrimSpace(a.id) == TrimSpace(b.id) == "" && AnswerId(a, round, index) == AnswerId(b, round', index') {
      var x, y := Itoa(round) + ['_'] + Itoa(index), Itoa(round') + ['_'] + Itoa(index');
      assert AnswerId(a, round, index)[5..] == x && AnswerId(b, round', index')[5..] == y;
      NoUnderscore(round);
      NoUnderscore(round');
      IndexOfChar(Itoa(round), '_', Itoa(index));
      IndexOfChar(Itoa(round'), '_', Itoa(index'));
      assert x[..|Itoa(round)|] == Itoa(round) && y[..|Itoa(round')|] == Itoa(round');
      assert x[|Itoa(round)| + 1..] == Itoa(index) && y[|Itoa(round')| + 1..] == Itoa(index');
      ItoaInjective(round, round');
      ItoaInjective(index, index');
    }
  }

  /** At least one call, and exactly one result for each, in order and under its id. */
  predicate IsComplete(x: Exchange, round: nat)
  {
    && |x.results| == |x.reply.toolCalls| > 0
    && forall i :: 0 <= i < |x.results| ==>
         x.results[i].role == "tool" && x.results[i].toolCallId == AnswerId(x.reply.toolCalls[i], round, i)
  }

  function ClampExchange(x: Exchange, limit: nat): (r: Exchange)
    ensures r.reply == x.reply && (HasRightRoles(x) ==> HasRightRoles(r))
  {
    Exchange(x.reply, ClampAll(x.results, limit))
  }

  /** The exchanges as they are sent: only the content of long results is cut. */
  function Clamped(exchanges: seq<Exchange>, limit: nat): (r: seq<Exchange>)
    ensures |r| == |exchanges|
    ensures forall i :: 0 <= i < |r| ==> r[i] == ClampExchange(exchanges[i], limit)
  {
    if exchanges == [] then [] else [ClampExchange(exchanges[0], limit)] + Clamped(exchanges[1..], limit)
  }

  /** Pruning as it is meant: drop the oldest exchange until the rest fits. */
  function Fitting(exchanges: seq<Exchange>, left: nat): (rest: seq<Exchange>)
    ensures |rest| <= |exchanges| && rest == exchanges[|exchanges| - |rest|..]
    ensures TailTokens(Flat(rest)) <= left
  {
    if exchanges == [] || TailTokens(Flat(exchanges)) <= left then exchanges else Fitting(exchanges[1..], left)
  }

  lemma {:induction false} FlatOfConcat(a: seq<Exchange>, b: seq<Exchange>)
    ensures Flat(a + b) == Flat(a) + Flat(b)
  {
    if a == [] {
      assert a + b == b;
    } else {
      assert (a + b)[1..] == a[1..] + b;
      FlatOfConcat(a[1..], b);
    }
  }

  lemma {:induction false} FlatOfOne(x: Exchange)
    ensures Flat([x]) == [x.reply] + x.results
  {
  }

  lemma {:induction false} FlatHasNoUser(exchanges: seq<Exchange>)
    requires HaveRightRoles(exchanges)
    ensures forall m :: m in Flat(exchanges) ==> m.role != "user"
  {
    if exchanges != [] {
      FlatHasNoUser(exchanges[1..]);
    }
  }

  lemma {:induction false} ClampOfConcat(a: seq<Message>, b: seq<Message>, limit: nat)
    ensures ClampAll(a + b, limit) == ClampAll(a, limit) + ClampAll(b, limit)
  {
  }

  lemma {:induction false} ClampOfFlat(exchanges: seq<Exchange>, limit: nat)
    requires HaveRightRoles(exchanges)
    ensures ClampAll(Flat(exchanges), limit) == Flat(Clamped(exchanges, limit))
  {
    if exchanges != [] {
      var x, rest := exchanges[0], exchanges[1..];
      assert HasRightRoles(x);
      ClampOfConcat([x.reply] + x.results, Flat(rest), limit);
      ClampOfConcat([x.reply], x.results, limit);
      assert ClampAll([x.reply], limit) == [x.reply];
      ClampOfFlat(rest, limit);
    }
  }

  /** The next cut after the start of an exchange is the start of the next exchange. */
  lemma {:induction false} NextCutSkipsResults(x: Exchange, rest: seq<Exchange>, k: nat)
    requires HasRightRoles(x) && HaveRightRoles(rest) && 0 < k <= |x.results| + 1
    ensures k <= |Flat([x] + rest)| && NextCut(Flat([x] + rest), k) == |x.results| + 1
    decreases |x.results| - k
  {
    var whole := Flat([x] + rest);
    assert ([x] + rest)[1..] == rest;
    assert whole == [x.reply] + x.results + Flat(rest);
    if k <= |x.results| {
      assert whole[k] == x.results[k - 1];
      NextCutSkipsResults(x, rest, k + 1);
    } else if rest != [] {
      assert whole[k] == Flat(rest)[0] == rest[0].reply;
    }
  }

  /** What the drop loop does to messages, seen from cut `k`, is what it does to the messages
      from there on. */
  lemma {:induction false} FirstFitOfSuffix(whole: seq<Message>, left: nat, k: nat, j: nat)
    requires k <= |whole| && IsCut(whole, k) && IsCut(whole[k..], j)
    requires j == 0 || IsCut(whole, k + j)
    ensures IsCut(whole, k + j) && FirstFit(whole, left, k + j) == k + FirstFit(whole[k..], left, j)
    decreases |whole| - k - j
  {
    hide FirstFit, NextCut, TailTokens;
    var tail := whole[k..];
    assert tail[j..] == whole[k + j..];
    FirstFitStep(tail, left, j);
    if j == 0 { assert k + j == k; }
    FirstFitStep(whole, left, k + j);
    if k + j < |whole| && TailTokens(tail[j..]) > left {
      NextCutOfSuffix(whole, k, j + 1);
      FirstFitOfSuffix(whole, left, k, NextCut(tail, j + 1));
    }
  }

  /** The drop loop, which knows messages only, computes the pruning of whole exchanges. */
  lemma {:induction false} DroppingIsByExchange(exchanges: seq<Exchange>, left: nat)
    requires HaveRightRoles(exchanges)
    ensures Flat(exchanges)[FirstFit(Flat(exchanges), left, 0)..] == Flat(Fitting(exchanges, left))
  {
    var whole := Flat(exchanges);
    assert whole[0..] == whole;
    if exchanges != [] && TailTokens(whole) > left {
      var x, rest := exchanges[0], exchanges[1..];
      assert [x] + rest == exchanges;
      NextCutSkipsResults(x, rest, 1);
      DropStep(whole, Flat(rest), left);
      DroppingIsByExchange(rest, left);
    }
  }

  lemma {:induction false} DropStep(whole: seq<Message>, rest: seq<Message>, left: nat)
    requires whole != [] && TailTokens(whole) > left && whole[NextCut(whole, 1)..] == rest
    ensures whole[FirstFit(whole, left, 0)..] == rest[FirstFit(rest, left, 0)..]
  {
    hide FirstFit, NextCut, TailTokens;
    var c := NextCut(whole, 1);
    DropsOnce(whole, left);
    FirstFitAtCut(whole, left, c);
    DropDrop(whole, c, FirstFit(rest, left, 0));
  }

  lemma {:induction false} FirstFitAtCut(whole: seq<Message>, left: nat, c: nat)
    requires c <= |whole| && IsCut(whole, c)
    ensures FirstFit(whole, left, c) == c + FirstFit(whole[c..], left, 0)
  {
    hide FirstFit, TailTokens;
    FirstFitOfSuffix(whole, left, c, 0);
  }

  lemma {:induction false} DropsOnce(whole: seq<Message>, left: nat)
    requires whole != [] && TailTokens(whole) > left
    ensures FirstFit(whole, left, 0) == FirstFit(whole, left, NextCut(whole, 1))
  {
    assert whole[0..] == whole;
  }

  lemma {:induction false} DropDrop(whole: seq<Message>, c: nat, f: nat)
    requires c <= |whole| && f <= |whole| - c
    ensures whole[c + f..] == whole[c..][f..]
  {
  }

  /** `pruneMessages` on a conversation of exchanges. */
  lemma {:induction false} PruningIsByExchange(system: Message, user: Message, exchanges: seq<Exchange>,
      tools: seq<ModelTool>, budget: Budget)
    requires user.role == "user" && HaveRightRoles(exchanges)
    ensures Pruned([system, user] + Flat(exchanges), tools, budget) ==
      var left := TailBudget(budget, tools, system, user);
      if left <= 0 then Failure(TOO_LARGE)
      else Success([system, user] + Flat(Fitting(Clamped(exchanges, budget.resultBytes), left)))
  {
    var messages := [system, user] + Flat(exchanges);
    FlatHasNoUser(exchanges);
    LastUserStays([system, user], Flat(exchanges));
    assert messages[2..] == Flat(exchanges);
    ClampOfFlat(exchanges, budget.resultBytes);
    var left := TailBudget(budget, tools, system, user);
    if left > 0 {
      DroppingIsByExchange(Clamped(exchanges, budget.resultBytes), left);
    }
  }

  lemma {:induction false} MoreTokens(exchanges: seq<Exchange>, more: seq<Exchange>)
    ensures TailTokens(Flat(exchanges)) <= TailTokens(Flat(exchanges + more))
  {
    FlatOfConcat(exchanges, more);
    TokensOfConcat(Flat(exchanges), Flat(more));
  }

  /** When exchanges are added, those that no longer fitted still do not. */
  lemma {:induction false} DroppedStaysDropped(exchanges: seq<Exchange>, more: seq<Exchange>, left: nat)
    ensures |exchanges| - |Fitting(exchanges, left)| <= |exchanges + more| - |Fitting(exchanges + more, left)|
  {
    if exchanges != [] && TailTokens(Flat(exchanges)) > left {
      MoreTokens(exchanges, more);
      var all := exchanges + more;
      assert all[1..] == exchanges[1..] + more;
      assert Fitting(all, left) == Fitting(all[1..], left);
      DroppedStaysDropped(exchanges[1..], more, left);
    }
  }

  /** No longer suffix of exchanges fits. */
  lemma {:induction false} FittingIsLongest(exchanges: seq<Exchange>, left: nat, n: nat)
    requires n < |exchanges| - |Fitting(exchanges, left)|
    ensures TailTokens(Flat(exchanges[n..])) > left
  {
    if n == 0 {
      assert exchanges[0..] == exchanges;
    } else {
      FittingIsLongest(exchanges[1..], left, n - 1);
      assert exchanges[n..] == exchanges[1..][n - 1..];
    }
  }
}
