/** The message loop of the MCP server (internal/mcpserver/server.go): JSON-RPC 2.0 over
    lines. Decoded messages stand for the JSON text of a line. */
module JsonRpc {
  import opened Results

  /** A request or notification. `id` is the raw JSON text of the id, "" if there is none. */
  datatype Message = Message(id: string, name: string, params: string)

  datatype Line = Empty | Malformed | Parsed(message: Message)

  datatype Body = InitializeResult | EmptyObject | ToolList | ToolResult(text: string)
  datatype Reply = Answer(id: string, body: Body) | Error(id: string, code: int, message: string)

  const PARSE_ERROR := -32700
  const METHOD_NOT_FOUND := -32601
  const INTERNAL_ERROR := -32603

  /** The tools behind the server, with a state of their own: `run` is one `tools/call`, and
      `encodes` says whether a result can be written as JSON. */
  datatype Tools<!S> = Tools(run: (S, string) -> (S, string), encodes: Body -> bool)

  predicate IsNotificationMethod(name: string)
  {
    name == "notifications/initialized" || name == "notifications/cancelled"
  }

  // ----- what a message brings about

  /** The state of the tools after a message: only a `tools/call` with an id runs a tool. */
  function StateAfter<S>(tools: Tools<S>, s: S, m: Message): S
  {
    if m.name == "tools/call" && m.id != "" then tools.run(s, m.params).0 else s
  }

  function Encoded<S>(tools: Tools<S>, id: string, body: Body): Reply
  {
    if tools.encodes(body) then Answer(id, body)
    else Error(id, INTERNAL_ERROR, "result could not be encoded")
  }

  /** The reply to a message, if it gets one. */
  function ReplyTo<S>(tools: Tools<S>, s: S, m: Message): (r: Option<Reply>)
    ensures r.Some? <==> m.id != "" && !IsNotificationMethod(m.name)
    ensures r.Some? ==> r.value.id == m.id
  {
    if m.id == "" || IsNotificationMethod(m.name) then None
    else if m.name == "initialize" then Some(Encoded(tools, m.id, InitializeResult))
    else if m.name == "ping" then Some(Encoded(tools, m.id, EmptyObject))
    else if m.name == "tools/list" then Some(Encoded(tools, m.id, ToolList))
    else if m.name == "tools/call" then Some(Encoded(tools, m.id, ToolResult(tools.run(s, m.params).1)))
    else Some(Error(m.id, METHOD_NOT_FOUND, "unsupported method"))
  }

  const PARSE_FAILURE := Error("null", PARSE_ERROR, "malformed JSON-RPC message")

  function StateAfterAll<S>(tools: Tools<S>, s: S, lines: seq<Line>): S
  {
    if lines == [] then s
    else
      var before, last := StateAfterAll(tools, s, lines[..|lines| - 1]), lines[|lines| - 1];
      if last.Parsed? then StateAfter(tools, before, last.message) else before
  }

  /** The replies to a stream, in order; each is computed in the state that the messages
      before it have left. */
  function RepliesTo<S>(tools: Tools<S>, s: S, lines: seq<Line>): seq<Reply>
  {
    if lines == [] then []
    else
      var front, last := lines[..|lines| - 1], lines[|lines| - 1];
      RepliesTo(tools, s, front) + match last
        case Empty => []
        case Malformed => [PARSE_FAILURE]
        case Parsed(m) =>
          match ReplyTo(tools, StateAfterAll(tools, s, front), m)
          case None => []
          case Some(r) => [r]
  }

  // ----- the loop

  class Server<!S> {
    const tools: Tools<S>
    var state: S
    var initialized: bool
    var output: seq<Reply>

    constructor (tools: Tools<S>, state: S)
      ensures this.tools == tools && this.state == state && !initialized && output == []
    {
      this.tools, this.state, initialized, output := tools, state, false, [];
    }

    method RespondError(id: string, code: int, message: string)
      modifies this`output
      ensures output == old(output) + [Error(if id == "" then "null" else id, code, message)]
    {
      output := output + [Error(if id == "" then "null" else id, code, message)];
    }

    method RespondResult(id: string, body: Body)
      modifies this`output
      ensures output == old(output) + if id == "" then [] else [Encoded(tools, id, body)]
    {
      if id == "" {
        return;
      }
      if !tools.encodes(body) {
        RespondError(id, INTERNAL_ERROR, "result could not be encoded");
        return;
      }
      output := output + [Answer(id, body)];
    }

    method Dispatch(request: Message)
      modifies this`output, this`state, this`initialized
      ensures state == StateAfter(tools, old(state), request)
      ensures initialized == (old(initialized) || request.name == "initialize")
      ensures output == old(output) + match ReplyTo(tools, old(state), request)
        case None => []
        case Some(r) => [r]
    {
      var isNotification := request.id == "";
      if request.name == "initialize" {
        initialized := true;
        RespondResult(request.id, InitializeResult);
      } else if IsNotificationMethod(request.name) {
        // no response
      } else if request.name == "ping" {
        RespondResult(request.id, EmptyObject);
      } else if request.name == "tools/list" {
        RespondResult(request.id, ToolList);
      } else if request.name == "tools/call" {
        if !isNotification {
          var result := tools.run(state, request.params);
          state := result.0;
          RespondResult(request.id, ToolResult(result.1));
        }
      } else if !isNotification {
        RespondError(request.id, METHOD_NOT_FOUND, "unsupported method");
      }
    }

    /** `Serve`; the context is found cancelled before line `cancelledAt`, if ever. */
    method Serve(lines: seq<Line>, cancelledAt: nat)
      modifies this`output, this`state, this`initialized
      ensures var seen := if cancelledAt < |lines| then lines[..cancelledAt] else lines;
        && output == old(output) + RepliesTo(tools, old(state), seen)
        && state == StateAfterAll(tools, old(state), seen)
    {
      var i := 0;
      assert lines[..0] == [];
      while i < |lines| && i < cancelledAt
        invariant i <= |lines| && i <= cancelledAt
        invariant output == old(output) + RepliesTo(tools, old(state), lines[..i])
        invariant state == StateAfterAll(tools, old(state), lines[..i])
        decreases |lines| - i
      {
        assert lines[..i + 1][..i] == lines[..i];
        match lines[i] {
          case Empty =>
          case Malformed => RespondError("", PARSE_ERROR, "malformed JSON-RPC message");
          case Parsed(message) => Dispatch(message);
        }
        i := i + 1;
      }
      assert lines[..|lines|] == lines;
    }
  }

  // ----- what a client can rely on

  /** The lines that get a reply: unreadable ones, and messages with an id except the two
      notification methods. */
  predicate IsAnswered(line: Line)
  {
    || line.Malformed?
    || (&& line.Parsed? && line.message.id != ""
        && line.message.name != "notifications/initialized" && line.message.name != "notifications/cancelled")
  }

  /** Which lines are answered. */
  function AnsweredLines(lines: seq<Line>): (at: seq<nat>)
    ensures forall i :: 0 <= i < |at| ==> at[i] < |lines| && IsAnswered(lines[at[i]])
    ensures forall i, j :: 0 <= i < j < |at| ==> at[i] < at[j]
    ensures forall k :: 0 <= k < |lines| && IsAnswered(lines[k]) ==> k in at
  {
    if lines == [] then []
    else
      var before, last := AnsweredLines(lines[..|lines| - 1]), lines[|lines| - 1];
      if IsAnswered(last) then before + [|lines| - 1] else before
  }

  const METHODS := {"initialize", "ping", "tools/list", "tools/call"}

  lemma {:induction false} MethodsAre(name: string)
    ensures name in METHODS <==> name == "initialize" || name == "ping" || name == "tools/list" || name == "tools/call"
  {
  }

  /** The result of a known method in a state of the tools. */
  function BodyFor<S>(tools: Tools<S>, s: S, m: Message): Body
    requires m.name in METHODS
  {
    if m.name == "initialize" then InitializeResult
    else if m.name == "ping" then EmptyObject
    else if m.name == "tools/list" then ToolList
    else ToolResult(tools.run(s, m.params).1)
  }

  /** A parse error with a null id for an unreadable line; for a message a reply with its id,
      which carries the result exactly if the method is known and the result can be encoded,
      and otherwise says which of the two went wrong. */
  predicate IsProperReply<S>(tools: Tools<S>, s: S, line: Line, reply: Reply)
  {
    match line
    case Empty => false
    case Malformed => reply == Error("null", -32700, "malformed JSON-RPC message")
    case Parsed(m) =>
      && reply.id == m.id
      && (reply.Answer? <==> m.name in METHODS && tools.encodes(BodyFor(tools, s, m)))
      && (reply.Answer? ==> reply.body == BodyFor(tools, s, m))
      && (reply.Error? ==> reply.code == if m.name in METHODS then -32603 else -32601)
  }

  lemma {:induction false} AnsweredReply<S>(tools: Tools<S>, s: S, m: Message)
    ensures ReplyTo(tools, s, m).Some? <==> IsAnswered(Parsed(m))
    ensures ReplyTo(tools, s, m).Some? ==> IsProperReply(tools, s, Parsed(m), ReplyTo(tools, s, m).value)
  {
    assert m.name in METHODS <==>
      m.name == "initialize" || m.name == "ping" || m.name == "tools/list" || m.name == "tools/call";
  }

  /** One reply, in the order of the input, for each line that is answered and for nothing
      else, and it is the proper one in the state that the lines before have left. */
  lemma {:induction false} OneReplyPerAnsweredLine<S>(tools: Tools<S>, s: S, lines: seq<Line>)
    ensures var replies, at := RepliesTo(tools, s, lines), AnsweredLines(lines);
      && |replies| == |at|
      && forall i :: 0 <= i < |replies| ==>
           IsProperReply(tools, StateAfterAll(tools, s, lines[..at[i]]), lines[at[i]], replies[i])
  {
    if lines != [] {
      var front, last := lines[..|lines| - 1], lines[|lines| - 1];
      OneReplyPerAnsweredLine(tools, s, front);
      if last.Parsed? { AnsweredReply(tools, StateAfterAll(tools, s, front), last.message); }
      hide ReplyTo, IsProperReply, IsAnswered, StateAfter;
      assert lines[..|front|] == front;
      var at := AnsweredLines(front);
      forall i | 0 <= i < |at| ensures lines[..at[i]] == front[..at[i]] && lines[at[i]] == front[at[i]] {
      }
    }
  }

  // ----- what the tools see

  /** Which lines run a tool: the `tools/call` messages that have an id. */
  function ToolLines(lines: seq<Line>): (at: seq<nat>)
    ensures forall i :: 0 <= i < |at| ==>
      at[i] < |lines| && lines[at[i]].Parsed? && lines[at[i]].message.name == "tools/call" && lines[at[i]].message.id != ""
    ensures forall i, j :: 0 <= i < j < |at| ==> at[i] < at[j]
    ensures forall k :: 0 <= k < |lines| ==>
      (lines[k].Parsed? && lines[k].message.name == "tools/call" && lines[k].message.id != "" ==> k in at)
  {
    if lines == [] then []
    else
      var before, last := ToolLines(lines[..|lines| - 1]), lines[|lines| - 1];
      if last.Parsed? && last.message.name == "tools/call" && last.message.id != "" then before + [|lines| - 1] else before
  }

  /** Their parameters, in order. */
  function ToolParams(lines: seq<Line>): (params: seq<string>)
    ensures |params| == |ToolLines(lines)|
    ensures forall i :: 0 <= i < |params| ==> params[i] == lines[ToolLines(lines)[i]].message.params
  {
    var at := ToolLines(lines);
    seq(|at|, i requires 0 <= i < |at| => lines[at[i]].message.params)
  }

  /** The state of the tools once they have run on these parameters, one after the other. */
  function RunAll<S>(tools: Tools<S>, s: S, params: seq<string>): S
  {
    if params == [] then s else RunAll(tools, tools.run(s, params[0]).0, params[1..])
  }

  lemma {:induction false} RunOneMore<S>(tools: Tools<S>, s: S, params: seq<string>, last: string)
    ensures RunAll(tools, s, params + [last]) == tools.run(RunAll(tools, s, params), last).0
  {
    if params == [] {
      assert (params + [last])[1..] == [];
    } else {
      assert (params + [last])[1..] == params[1..] + [last];
      RunOneMore(tools, tools.run(s, params[0]).0, params[1..], last);
    }
  }

  lemma {:induction false} ToolLinesStep(lines: seq<Line>)
    requires lines != []
    ensures var front := ToolLines(lines[..|lines| - 1]);
      front <= ToolLines(lines) && |ToolLines(lines)| <= |front| + 1
    ensures var front, at := ToolLines(lines[..|lines| - 1]), ToolLines(lines);
      |at| > |front| ==> at[|front|] == |lines| - 1
  {
  }

  lemma {:induction false} ToolLinesBefore(lines: seq<Line>, i: nat)
    requires i < |ToolLines(lines)|
    ensures var n := ToolLines(lines)[i]; n < |lines| && ToolLines(lines[..n]) == ToolLines(lines)[..i]
  {
    assert lines != [];
    var front := lines[..|lines| - 1];
    ToolLinesStep(lines);
    hide ToolLines;
    var n := ToolLines(lines)[i];
    if i < |ToolLines(front)| {
      ToolLinesBefore(front, i);
      assert lines[..n] == front[..n];
    } else {
      assert lines[..n] == front;
    }
  }

  lemma {:induction false} ToolParamsBefore(lines: seq<Line>, i: nat)
    requires i < |ToolLines(lines)|
    ensures ToolParams(lines[..ToolLines(lines)[i]]) == ToolParams(lines)[..i]
  {
    hide ToolLines;
    ToolLinesBefore(lines, i);
    var at := ToolLines(lines);
    forall k | 0 <= k < i ensures lines[..at[i]][at[k]] == lines[at[k]] {
    }
  }

  /** The state after any lines is what the tools make of the parameters of the `tools/call`
      messages with an id, in order; nothing else runs a tool. */
  lemma {:induction false} StateIsRunOfCalls<S>(tools: Tools<S>, s: S, lines: seq<Line>)
    ensures StateAfterAll(tools, s, lines) == RunAll(tools, s, ToolParams(lines))
  {
    if lines != [] {
      var front, last := lines[..|lines| - 1], lines[|lines| - 1];
      StateIsRunOfCalls(tools, s, front);
      if last.Parsed? && last.message.name == "tools/call" && last.message.id != "" {
        assert ToolParams(lines) == ToolParams(front) + [last.message.params];
        RunOneMore(tools, s, ToolParams(front), last.message.params);
      } else {
        assert ToolParams(lines) == ToolParams(front);
      }
    }
  }

  /** And each such message is answered, under its id, with the text that its tool gives after
      those before it, if that can be encoded. */
  lemma {:induction false} CallsRunInTurn<S>(tools: Tools<S>, s: S, lines: seq<Line>, i: nat) returns (j: nat)
    requires i < |ToolLines(lines)|
    ensures j < |RepliesTo(tools, s, lines)| == |AnsweredLines(lines)| && AnsweredLines(lines)[j] == ToolLines(lines)[i]
    ensures var params, reply := ToolParams(lines), RepliesTo(tools, s, lines)[j];
      var result := ToolResult(tools.run(RunAll(tools, s, params[..i]), params[i]).1);
      && ToolLines(lines)[i] < |lines| && lines[ToolLines(lines)[i]].Parsed?
      && reply.id == lines[ToolLines(lines)[i]].message.id
      && if tools.encodes(result) then reply.Answer? && reply.body == result else reply.Error? && reply.code == -32603
  {
    hide ToolLines, AnsweredLines, RepliesTo, StateAfterAll, RunAll;
    var n := ToolLines(lines)[i];
    assert IsAnswered(lines[n]);
    j :| 0 <= j < |AnsweredLines(lines)| && AnsweredLines(lines)[j] == n;
    OneReplyPerAnsweredLine(tools, s, lines);
    StateIsRunOfCalls(tools, s, lines[..n]);
    ToolParamsBefore(lines, i);
    assert "tools/call" in METHODS;
  }

  /** Replies already written never depend on what is still to come. */
  lemma {:induction false} RepliesGrow<S>(tools: Tools<S>, s: S, lines: seq<Line>, k: nat)
    requires k <= |lines|
    ensures RepliesTo(tools, s, lines[..k]) <= RepliesTo(tools, s, lines)
  {
    if k < |lines| {
      RepliesGrow(tools, s, lines[..|lines| - 1], k);
      assert lines[..|lines| - 1][..k] == lines[..k];
    } else {
      assert lines[..k] == lines;
    }
  }
}
