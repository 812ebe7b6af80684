/** The client's own loops (internal/mcpclient/client.go): waiting for one reply, and
    collecting the pages of the tool list. */
module ClientCalls {
  import opened Results
  import opened JsonRpc
  import opened Client

  /** One result of the `select` in `call`. */
  datatype Arrival = ContextDone | ReadFailed | Received(reply: Reply) | ChannelClosed

  /** Whether an arrival ends the wait for the reply with id `id`. */
  predicate IsDecisive(a: Arrival, id: string)
  {
    a.Received? ==> a.reply.id == id
  }

  function OutcomeOf(a: Arrival): (o: Outcome)
    ensures o == Cancelled <==> a.ContextDone?
    ensures o == Closed <==> a.ReadFailed? || a.ChannelClosed?
    ensures a.Received? ==> o == Replied(a.reply)
  {
    match a
    case ContextDone => Cancelled
    case ReadFailed => Closed
    case Received(reply) => Replied(reply)
    case ChannelClosed => Closed
  }

  class Caller {
    var nextId: nat
    var sent: seq<Message>

    constructor ()
      ensures nextId == 0 && sent == []
    {
      nextId, sent := 0, [];
    }

    /** `call`, given whether the write succeeds and what arrives afterwards. It takes a new
        id in any case, discards what is not decisive, and returns at the first arrival that is. */
    method Call(name: string, params: string, isWritten: bool, arrivals: seq<Arrival>)
      returns (outcome: Option<Outcome>, taken: nat)
      modifies this
      ensures nextId == old(nextId) + 1
      ensures sent == old(sent) + if isWritten then [Message(EncodedId(nextId), name, params)] else []
      ensures !isWritten ==> outcome == Some(NotWritten) && taken == 0
      ensures isWritten ==>
        && taken <= |arrivals|
        && (forall i :: 0 <= i < taken - 1 ==> !IsDecisive(arrivals[i], EncodedId(nextId)))
        && match outcome
           case None => taken == |arrivals| && (taken > 0 ==> !IsDecisive(arrivals[taken - 1], EncodedId(nextId)))
           case Some(o) =>
             taken > 0 && IsDecisive(arrivals[taken - 1], EncodedId(nextId)) && o == OutcomeOf(arrivals[taken - 1])
    {
      nextId := nextId + 1;
      var id := EncodedId(nextId);
      if !isWritten {
        return Some(NotWritten), 0;
      }
      sent := sent + [Message(id, name, params)];
      taken := 0;
      while taken < |arrivals|
        invariant taken <= |arrivals|
        invariant forall i :: 0 <= i < taken ==> !IsDecisive(arrivals[i], id)
      {
        var a := arrivals[taken];
        taken := taken + 1;
        if a == ContextDone {
          return Some(Cancelled), taken;
        }
        if a == ReadFailed || a == ChannelClosed {
          return Some(Closed), taken;
        }
        if a.reply.id != id {
          continue;
        }
        return Some(Replied(a.reply)), taken;
      }
      return None, taken;
    }
  }

  /** What a step of the whole system offers to a waiting call. */
  function ArrivalOf<S>(st: System<S>, e: Event): Option<Arrival>
    requires IsEnabled(st, e)
  {
    match e
    case Cancel => Some(ContextDone)
    case SeeReadError => Some(ReadFailed)
    case Receive => Some(Received(st.channel[0]))
    case SeeClosed => Some(ChannelClosed)
    case _ => None
  }

  /** A waiting call of the system behaves as the loop above: it returns at a decisive arrival,
      with the same outcome, and waits on at any other. */
  lemma {:induction false} SystemFollowsLoop<S>(ends: Ends<S>, st: System<S>, e: Event)
    requires IsEnabled(st, e) && ArrivalOf(st, e).Some?
    ensures var a := ArrivalOf(st, e).value;
      && Returned(ends, st, e) == (if IsDecisive(a, ends.idOf(st.nextId)) then Some(OutcomeOf(a)) else None)
      && (Next(ends, st, e).waiting <==> !IsDecisive(a, ends.idOf(st.nextId)))
  {
  }

  // ----- ListTools

  datatype Tool = Tool(name: string, description: string, schema: string)
  datatype Page = Page(tools: seq<Tool>, nextCursor: string)

  /** A definition with a name and a schema that decodes to a JSON object. */
  predicate IsUsable(isObject: string -> bool, tool: Tool)
  {
    tool.name != "" && tool.schema != "" && isObject(tool.schema)
  }

  predicate AreUsable(isObject: string -> bool, tools: seq<Tool>)
  {
    forall i :: 0 <= i < |tools| ==> tools[i].name != "" && tools[i].schema != "" && isObject(tools[i].schema)
  }

  predicate HaveDistinctNames(tools: seq<Tool>)
  {
    forall i, j :: 0 <= i < j < |tools| ==> tools[i].name != tools[j].name
  }

  /** The tools on the first `k` pages. */
  function ToolsOf(fetch: nat -> Result<Page, string>, k: nat): seq<Tool>
  {
    if k == 0 then []
    else ToolsOf(fetch, k - 1) + if fetch(k - 1).Success? then fetch(k - 1).value.tools else []
  }

  /** The listing ends after page `k`: every page arrives and only that one has no cursor. */
  ghost predicate EndsAt(fetch: nat -> Result<Page, string>, k: nat)
  {
    && (forall i :: 0 <= i < k ==> fetch(i).Success? && fetch(i).value.nextCursor != "")
    && fetch(k).Success? && fetch(k).value.nextCursor == ""
  }

  ghost predicate IsListing(fetch: nat -> Result<Page, string>, isObject: string -> bool, k: nat)
  {
    EndsAt(fetch, k) && AreUsable(isObject, ToolsOf(fetch, k + 1)) && HaveDistinctNames(ToolsOf(fetch, k + 1))
  }

  /** `ListTools` over the pages that successive requests bring. It succeeds exactly when the
      listing ends within `maxPages` pages, all definitions are usable and no name occurs
      twice, and then returns all tools in the order of the pages. */
  method ListTools(fetch: nat -> Result<Page, string>, isObject: string -> bool, maxPages: nat)
    returns (r: Result<seq<Tool>, string>)
    ensures r.Success? <==> exists k: nat :: k < maxPages && IsListing(fetch, isObject, k)
    ensures r.Success? ==> exists k: nat :: k < maxPages && IsListing(fetch, isObject, k) && r.value == ToolsOf(fetch, k + 1)
  {
    var tools: seq<Tool> := [];
    var seen: set<string> := {};
    for page := 0 to maxPages
      invariant tools == ToolsOf(fetch, page) && seen == set t | t in tools :: t.name
      invariant AreUsable(isObject, tools) && HaveDistinctNames(tools)
      invariant forall i :: 0 <= i < page ==> fetch(i).Success? && fetch(i).value.nextCursor != ""
    {
      hide AreUsable, HaveDistinctNames;
      var result := fetch(page);
      if result.Failure? {
        return Failure(result.error);
      }
      var failure;
      failure, tools, seen := AddPage(result.value.tools, isObject, tools, seen);
      if failure.Some? {
        assert ToolsOf(fetch, page + 1) == ToolsOf(fetch, page) + result.value.tools;
        BadPrefixStaysBad(fetch, isObject, page + 1);
        return Failure(failure.value);
      }
      if result.value.nextCursor == "" {
        assert IsListing(fetch, isObject, page);
        return Success(tools);
      }
    }
    return Failure("tool discovery exceeded the pagination limit");
  }

  /** The inner loop: adds the tools of one page, stopping at the first that is unusable or
      has a name already seen. */
  method AddPage(page: seq<Tool>, isObject: string -> bool, tools: seq<Tool>, seen: set<string>)
    returns (failure: Option<string>, tools': seq<Tool>, seen': set<string>)
    requires seen == set t | t in tools :: t.name
    requires AreUsable(isObject, tools) && HaveDistinctNames(tools)
    ensures failure.None? <==> AreUsable(isObject, tools + page) && HaveDistinctNames(tools + page)
    ensures failure.None? ==> tools' == tools + page && seen' == set t | t in tools' :: t.name
  {
    tools', seen' := tools, seen;
    for i := 0 to |page|
      invariant tools' == tools + page[..i] && seen' == set t | t in tools' :: t.name
      invariant AreUsable(isObject, tools') && HaveDistinctNames(tools')
    {
      var tool := page[i];
      assert (tools + page)[|tools| + i] == tool;
      if !IsUsable(isObject, tool) {
        return Some("malformed tool definition"), tools', seen';
      }
      if tool.name in seen' {
        var j :| 0 <= j < |tools'| && tools'[j].name == tool.name;
        assert (tools + page)[j] == tools'[j];
        return Some("duplicate tool definition"), tools', seen';
      }
      assert tools + page[..i + 1] == tools' + [tool];
      seen' := seen' + {tool.name};
      tools' := tools' + [tool];
    }
    assert page[..|page|] == page;
    return None, tools', seen';
  }

  lemma {:induction false} ToolsGrow(fetch: nat -> Result<Page, string>, k: nat, m: nat)
    requires k <= m
    ensures ToolsOf(fetch, k) <= ToolsOf(fetch, m)
  {
    if k < m {
      ToolsGrow(fetch, k, m - 1);
    }
  }

  /** Once a prefix of the listing holds a bad or repeated definition, no longer one is good. */
  lemma {:induction false} BadPrefixStaysBad(fetch: nat -> Result<Page, string>, isObject: string -> bool, k: nat)
    requires !(AreUsable(isObject, ToolsOf(fetch, k)) && HaveDistinctNames(ToolsOf(fetch, k)))
    ensures forall m: nat :: k <= m ==> !(AreUsable(isObject, ToolsOf(fetch, m)) && HaveDistinctNames(ToolsOf(fetch, m)))
  {
    forall m: nat | k <= m
      ensures !(AreUsable(isObject, ToolsOf(fetch, m)) && HaveDistinctNames(ToolsOf(fetch, m)))
    {
      ToolsGrow(fetch, k, m);
      var part, all := ToolsOf(fetch, k), ToolsOf(fetch, m);
      assert forall i :: 0 <= i < |part| ==> part[i] == all[i];
    }
  }
}
