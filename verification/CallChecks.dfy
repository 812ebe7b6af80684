/** The checks on a tool call that the model asks for (internal/agent/toolcall.go). JSON
    decoding and the order in which Go visits a map are parameters. */
module CallChecks {
  import opened Results
  import opened Strings
  import opened Paths
  import opened JsonSchema
  import Context
  import MCP = ClientCalls
  import Workspace

  /** What the JSON library makes of texts, and map orders. */
  datatype Json = Json(
    decodeSchema: string -> Option<Object>,
    decodeArguments: string -> Option<Object>,
    argumentOrder: Object -> seq<string>,
    orders: Orders,
    describe: Verdict -> string,
    hasSuccess: string -> bool,
    encodeOutput: string -> string,
    encodeError: (string, string) -> string)

  ghost predicate IsFaithful(json: Json)
  {
    IsFair(json.orders) && forall fields, key :: key in json.argumentOrder(fields) <==> key in fields
  }

  datatype Rejection = Rejection(category: string, message: string)

  /** The outcome of `validateCall`; the schema validator can panic. */
  datatype Checked = Valid(arguments: string, tool: MCP.Tool) | Rejected(why: Rejection) | Panicked

  const INVALID_ARGUMENTS := "invalid_arguments"
  const WORKSPACE_VIOLATION := "workspace_violation"
  const UNKNOWN_TOOL := "unknown_tool"
  const TOOL_ERROR := "tool_error"
  const RESULT_TOO_LARGE := "result_too_large"

  /** `requestedLimits`. */
  const REQUESTED_LIMITS := map[
    "max_bytes" := 12288, "lines" := 200, "max_matches" := 20, "max_results" := 200, "max_text_chars" := 12288]

  /** `jsonschema.Number`. */
  function WholeNumber(v: Value): Option<int>
  {
    if NumberOf(v).Some? && IsInteger(NumberOf(v).value) then Some(NumberOf(v).value.Floor) else None
  }

  /** `validateWorkspacePath`. */
  function CheckPath(path: string): Option<Rejection>
  {
    var trimmed := TrimSpace(path);
    if trimmed == "" then Some(Rejection(INVALID_ARGUMENTS, "\"path\" must not be empty"))
    else if '\0' in trimmed then Some(Rejection(INVALID_ARGUMENTS, "\"path\" contains an invalid character"))
    else if IsAbs(trimmed) || "/" <= trimmed then
      Some(Rejection(WORKSPACE_VIOLATION, "absolute paths are not allowed; use workspace-relative paths"))
    else if Workspace.StartsWithDotDot(Clean(trimmed)) then
      Some(Rejection(WORKSPACE_VIOLATION, "path escapes the workspace"))
    else None
  }

  /** Tools that work on the text of a path and touch no file. */
  predicate WorksOnText(tool: string)
  {
    tool == "basename" || tool == "dirname"
  }

  /** One round of the loop over the arguments. */
  function CheckArgument(tool: string, key: string, value: Value): Option<Rejection>
  {
    if key in REQUESTED_LIMITS && (WholeNumber(value).None? || WholeNumber(value).value > REQUESTED_LIMITS[key]) then
      Some(Rejection(INVALID_ARGUMENTS, "\"" + key + "\" exceeds the configured limit"))
    else if key != "path" then None
    else if !value.Str? then Some(Rejection(INVALID_ARGUMENTS, "\"path\" must be a string"))
    else if WorksOnText(tool) then None
    else CheckPath(value.s)
  }

  function CheckArguments(tool: string, fields: Object, keys: seq<string>): Option<Rejection>
  {
    if keys == [] then None
    else
      var first := if keys[0] in fields then CheckArgument(tool, keys[0], fields[keys[0]]) else None;
      if first.Some? then first else CheckArguments(tool, fields, keys[1..])
  }

  /** The arguments as they are sent on. */
  function RawArguments(arguments: string): string
  {
    if TrimSpace(arguments) == "" then "{}" else TrimSpace(arguments)
  }

  function CheckSchema(json: Json, tool: MCP.Tool, raw: string): Checked
  {
    var schema := json.decodeSchema(tool.schema);
    var fields := json.decodeArguments(raw);
    if schema.None? then Rejected(Rejection(TOOL_ERROR, "tool schema is unusable"))
    else if fields.None? then Rejected(Rejection(INVALID_ARGUMENTS, "arguments must be a JSON object"))
    else match Validate(json.orders, schema.value, Obj(fields.value), "")
      case Panic => Panicked
      case Reject(place, reason) => Rejected(Rejection(INVALID_ARGUMENTS, json.describe(Reject(place, reason))))
      case Accept =>
        match CheckArguments(tool.name, fields.value, json.argumentOrder(fields.value))
        case Some(why) => Rejected(why)
        case None => Valid(raw, tool)
  }

  /** `validateCall`, when `used` of `budget` calls have been made. */
  function CheckCall(json: Json, exposed: map<string, MCP.Tool>, budget: nat, used: nat, call: Context.ToolCall): Checked
  {
    if call.kind != "" && call.kind != "function" then
      Rejected(Rejection(INVALID_ARGUMENTS, "unsupported tool call type"))
    else if used >= budget then Rejected(Rejection(TOOL_ERROR, "tool call budget is exhausted"))
    else if call.name !in exposed then Rejected(Rejection(UNKNOWN_TOOL, "tool is not available in this request"))
    else
      var raw := RawArguments(call.arguments);
      if !("{" <= raw) then Rejected(Rejection(INVALID_ARGUMENTS, "arguments must be a JSON object"))
      else CheckSchema(json, exposed[call.name], raw)
  }

  // ----- what a call that passes has

  /** A path that names something below the workspace whatever the disk holds. */
  predicate PathIsPermitted(path: string)
  {
    var trimmed := TrimSpace(path);
    trimmed != "" && '\0' !in trimmed && !IsAbs(trimmed) && ".." !in Parts(trimmed)
  }

  /** A whole number, in any form that decoding gives, of at most `most`. */
  predicate IsAtMost(value: Value, most: int)
  {
    NumberOf(value).Some? && IsInteger(NumberOf(value).value) && NumberOf(value).value <= most as real
  }

  /** A limit that is asked for stays within that of the agent, and a path names something below
      the workspace, except for two tools that work on its text alone. */
  predicate ArgumentIsPermitted(tool: string, key: string, value: Value)
  {
    && (key == "max_bytes" || key == "max_text_chars" ==> IsAtMost(value, 12288))
    && (key == "lines" || key == "max_results" ==> IsAtMost(value, 200))
    && (key == "max_matches" ==> IsAtMost(value, 20))
    && (key == "path" ==> value.Str? && (tool == "basename" || tool == "dirname" || PathIsPermitted(value.s)))
  }

  ghost predicate ArgumentsArePermitted(tool: string, fields: Object)
  {
    forall key :: key in fields ==> ArgumentIsPermitted(tool, key, fields[key])
  }

  /** A call the agent may make: a JSON object that conforms to the schema of the tool, with
      limits and paths in bounds. */
  ghost predicate IsPermitted(json: Json, tool: MCP.Tool, arguments: string)
  {
    && "{" <= arguments
    && json.decodeSchema(tool.schema).Some? && json.decodeArguments(arguments).Some?
    && Conforms(json.decodeSchema(tool.schema).value, Obj(json.decodeArguments(arguments).value))
    && ArgumentsArePermitted(tool.name, json.decodeArguments(arguments).value)
  }

  lemma {:induction false} PathCheckAccepts(path: string)
    ensures CheckPath(path).None? <==> PathIsPermitted(path)
  {
    var trimmed := TrimSpace(path);
    if trimmed != "" && !IsAbs(trimmed) {
      Workspace.DotDotTestIsComplete([], trimmed);
    }
  }

  lemma {:induction false} ArgumentAccepts(tool: string, key: string, value: Value)
    ensures CheckArgument(tool, key, value).None? <==> ArgumentIsPermitted(tool, key, value)
  {
    if value.Str? { PathCheckAccepts(value.s); }
    hide CheckPath, PathIsPermitted, NumberOf, IsInteger;
  }

  lemma {:induction false} ArgumentsAccept(tool: string, fields: Object, keys: seq<string>)
    ensures CheckArguments(tool, fields, keys).None? <==>
      forall key :: key in keys && key in fields ==> ArgumentIsPermitted(tool, key, fields[key])
  {
    if keys != [] {
      hide CheckArgument, ArgumentIsPermitted;
      ArgumentsAccept(tool, fields, keys[1..]);
      if keys[0] in fields { ArgumentAccepts(tool, keys[0], fields[keys[0]]); }
      assert forall key :: key in keys <==> key == keys[0] || key in keys[1..];
    }
  }

  lemma {:induction false} SchemaCheckAccepts(json: Json, tool: MCP.Tool, raw: string)
    requires IsFaithful(json) && "{" <= raw
    ensures CheckSchema(json, tool, raw).Valid? <==> IsPermitted(json, tool, raw)
    ensures CheckSchema(json, tool, raw).Valid? ==> CheckSchema(json, tool, raw) == Valid(raw, tool)
  {
    var schema, fields := json.decodeSchema(tool.schema), json.decodeArguments(raw);
    if schema.Some? && fields.Some? {
      ValidateAcceptsConforming(json.orders, schema.value, Obj(fields.value), "");
      ArgumentsAccept(tool.name, fields.value, json.argumentOrder(fields.value));
    }
  }

  /** Exactly the calls within the budget, of exposed tools, with permitted arguments pass,
      and they pass with the trimmed arguments; the order in which Go visits maps does not
      matter. */
  lemma {:induction false} CheckAccepts(json: Json, exposed: map<string, MCP.Tool>, budget: nat, used: nat, call: Context.ToolCall)
    requires IsFaithful(json)
    ensures CheckCall(json, exposed, budget, used, call).Valid? <==>
      && (call.kind == "" || call.kind == "function")
      && used < budget
      && call.name in exposed
      && IsPermitted(json, exposed[call.name], RawArguments(call.arguments))
    ensures CheckCall(json, exposed, budget, used, call).Valid? ==>
      CheckCall(json, exposed, budget, used, call) == Valid(RawArguments(call.arguments), exposed[call.name])
  {
    var raw := RawArguments(call.arguments);
    if call.name in exposed && "{" <= raw {
      SchemaCheckAccepts(json, exposed[call.name], raw);
    }
  }

  /** What a call is told that is refused before its arguments are looked at. */
  lemma {:induction false} CheckRefuses(json: Json, exposed: map<string, MCP.Tool>, budget: nat, used: nat, call: Context.ToolCall)
    ensures var checked := CheckCall(json, exposed, budget, used, call);
      if call.kind != "" && call.kind != "function" then checked.Rejected? && checked.why.category == "invalid_arguments"
      else if used >= budget then checked.Rejected? && checked.why.category == "tool_error"
      else if call.name !in exposed then checked.Rejected? && checked.why.category == "unknown_tool"
      else checked.Rejected? ==>
        || checked.why.category == "invalid_arguments" || checked.why.category == "workspace_violation"
        || (checked.why.category == "tool_error" && json.decodeSchema(exposed[call.name].schema).None?)
  {
    hide Validate;
    if call.name in exposed {
      var raw := RawArguments(call.arguments);
      if json.decodeArguments(raw).Some? {
        ArgumentRefusals(call.name, exposed[call.name].name, json.decodeArguments(raw).value, json.argumentOrder(json.decodeArguments(raw).value));
      }
    }
  }

  lemma {:induction false} ArgumentRefusals(name: string, tool: string, fields: Object, keys: seq<string>)
    ensures var r := CheckArguments(tool, fields, keys);
      r.Some? ==> r.value.category == "invalid_arguments" || r.value.category == "workspace_violation"
  {
    if keys != [] { ArgumentRefusals(name, tool, fields, keys[1..]); }
  }

  /** Without surrounding blanks and a leading backslash, the agent accepts the same paths as
      the text tests of the server; the server turns down a leading backslash as well. */
  lemma {:induction false} AgentAndServerAgree(root: Path, path: string)
    requires root != [] && TrimSpace(path) == path
    ensures Workspace.IsAcceptable(root, path) <==> CheckPath(path).None? && !("\\" <= path)
  {
    PathCheckAccepts(path);
    if path != "" {
      assert IsBlank(path) ==> TrimSpace(path) == "";
    }
  }
}
