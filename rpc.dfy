/** The JSON-RPC 2.0 envelopes and MCP parameter objects the three transport clients build, the
    outcome a caller's future ends with, and the policy that decides which calls are unwrapped. */
module Rpc {
  import opened Wrappers
  import opened Text
  import opened Json

  const ProtocolVersion: string := "2024-11-05"
  const ClientName: string := "mcp-tester"
  const ClientVersion: string := "0.1.0"

  /** How a caller's CompletableFuture ends: completed with a node, or completed exceptionally
      with an exception whose message is `reason`. */
  datatype Completion = Done(value: Json) | Fault(reason: string)

  /** A Java String that may be null, as Jackson's ObjectNode.put stores it. */
  function TextNode(s: Option<string>): (r: Json)
    ensures r == JNull <==> s.None?
  {
    if s.Some? then JStr(s.value) else JNull
  }

  /** The payload of request/requestRaw (with an id) and notify (without): "jsonrpc" is "2.0",
      "params" only for a non-null params node. */
  function Envelope(id: Option<int>, methodName: string, params: Option<Json>): (r: Json)
    ensures Get(r, "jsonrpc") == Some(JStr("2.0"))
    ensures Get(r, "method") == Some(JStr(methodName))
    ensures id.Some? ==> Get(r, "id") == Some(JNum(id.value))
    ensures Has(r, "id") <==> id.Some?
    ensures Get(r, "params") == params
    ensures r.fields.Keys <= {"jsonrpc", "id", "method", "params"}
  {
    var base := map["jsonrpc" := JStr("2.0"), "method" := JStr(methodName)];
    var withId := if id.Some? then base["id" := JNum(id.value)] else base;
    JObj(if params.Some? then withId["params" := params.value] else withId)
  }

  /** What a server echoes back as "id" is read by the client as the id it sent. */
  lemma EnvelopeIdReadBack(id: int, methodName: string, params: Option<Json>)
    requires Int32Min <= id <= Int32Max
    ensures AsInt(Get(Envelope(Some(id), methodName, params), "id").value) == id
  {
  }

  /** The operations of the McpClient contract, with their arguments. Java null arguments are
      None; a JSON null node is Some(JNull). */
  datatype Operation =
    | Initialize(configuration: Option<Json>)
    | ListTools
    | ListResources
    | ListPrompts
    | CallTool(name: Option<string>, arguments: Option<Json>, meta: Option<Json>)
    | ReadResource(uri: Option<string>)
    | GetPrompt(name: Option<string>, arguments: Option<Json>)

  /** The JSON-RPC method name each operation is sent under. */
  function MethodName(op: Operation): (m: string)
    ensures m == "tools/call" <==> op.CallTool?
  {
    match op
    case Initialize(_) => "initialize"
    case ListTools => "tools/list"
    case ListResources => "resources/list"
    case ListPrompts => "prompts/list"
    case CallTool(_, _, _) => "tools/call"
    case ReadResource(_) => "resources/read"
    case GetPrompt(_, _) => "prompts/get"
  }

  /** The completion policy: only `tools/call` is sent with requestRaw and hands the caller the
      whole response message; every other operation goes through request. */
  predicate IsRaw(op: Operation) {
    op.CallTool?
  }

  /** The params of `initialize`: a fixed protocol version, a capabilities object that holds
      experimental.configuration only for a present configuration, and the client info. */
  function InitializeParams(configuration: Option<Json>): (r: Json)
    ensures Get(r, "protocolVersion") == Some(JStr(ProtocolVersion))
    ensures Has(r, "capabilities") && r.fields["capabilities"].JObj?
    ensures Has(r.fields["capabilities"], "experimental") <==> Present(configuration)
    ensures Present(configuration) ==>
      Get(r.fields["capabilities"].fields["experimental"], "configuration") == configuration
    ensures Get(r, "clientInfo") == Some(JObj(map["name" := JStr(ClientName), "version" := JStr(ClientVersion)]))
    ensures r.fields.Keys == {"protocolVersion", "capabilities", "clientInfo"}
  {
    var capabilities :=
      if Present(configuration) then map["experimental" := JObj(map["configuration" := configuration.value])]
      else map[];
    JObj(map[
      "protocolVersion" := JStr(ProtocolVersion),
      "capabilities" := JObj(capabilities),
      "clientInfo" := JObj(map["name" := JStr(ClientName), "version" := JStr(ClientVersion)])])
  }

  /** The params of `tools/call`: the name, "arguments" for a non-null node and "_meta" for a
      present node. */
  function CallToolParams(name: Option<string>, arguments: Option<Json>, meta: Option<Json>): (r: Json)
    ensures Get(r, "name") == Some(TextNode(name))
    ensures Get(r, "arguments") == arguments
    ensures Has(r, "_meta") <==> Present(meta)
    ensures Present(meta) ==> Get(r, "_meta") == meta
    ensures r.fields.Keys <= {"name", "arguments", "_meta"}
  {
    var base := map["name" := TextNode(name)];
    var withArgs := if arguments.Some? then base["arguments" := arguments.value] else base;
    JObj(if Present(meta) then withArgs["_meta" := meta.value] else withArgs)
  }

  /** The params of `prompts/get`: the name and "arguments" for a non-null node. */
  function GetPromptParams(name: Option<string>, arguments: Option<Json>): (r: Json)
    ensures Get(r, "name") == Some(TextNode(name))
    ensures Get(r, "arguments") == arguments
    ensures r.fields.Keys <= {"name", "arguments"}
  {
    var base := map["name" := TextNode(name)];
    JObj(if arguments.Some? then base["arguments" := arguments.value] else base)
  }

  /** The params node of each operation; the three list operations send none. */
  function Params(op: Operation): (r: Option<Json>)
    ensures r.None? <==> (op.ListTools? || op.ListResources? || op.ListPrompts?)
  {
    match op
    case Initialize(configuration) => Some(InitializeParams(configuration))
    case ListTools => None
    case ListResources => None
    case ListPrompts => None
    case CallTool(name, arguments, meta) => Some(CallToolParams(name, arguments, meta))
    case ReadResource(uri) => Some(JObj(map["uri" := TextNode(uri)]))
    case GetPrompt(name, arguments) => Some(GetPromptParams(name, arguments))
  }

  /** What request (as opposed to requestRaw) makes of a response message on the HTTP
      transports: its "result" when it has one, a failure carrying the serialised "error" when
      it has that, and otherwise the message itself. */
  function Unwrap(message: Json, render: Json -> string): (c: Completion)
    ensures Has(message, "result") ==> c == Done(message.fields["result"])
    ensures !Has(message, "result") && Has(message, "error") ==> c == Fault(render(message.fields["error"]))
    ensures !Has(message, "result") && !Has(message, "error") ==> c == Done(message)
  {
    if Has(message, "result") then Done(message.fields["result"])
    else if Has(message, "error") then Fault(render(message.fields["error"]))
    else Done(message)
  }
}
