/** The stdio MCP client: each operation builds its params and goes over the JSON-RPC connection,
    `tools/call` through requestRaw and every other operation through request; the
    `initialized` notification follows the initialize result. */
module StdioClient {
  import opened Wrappers
  import opened Text
  import opened Json
  import opened Rpc
  import opened Wire
  import opened Connection

  class StdioMcpClient {
    const connection: JsonRpcConnection

    ghost predicate Valid()
      reads this, connection
    {
      connection.Valid()
    }

    constructor (framing: Framing, codec: Codec, input: Stream)
      ensures Valid() && fresh(connection)
      ensures connection.framing == framing && connection.input == input
      ensures connection.futures == 0 && connection.output == []
    {
      connection := new JsonRpcConnection(framing, codec, input);
    }

    /** One operation of the client: the call waits in the raw table for `tools/call` and in
        the unwrapped table otherwise, under the next id, and exactly its request is written. */
    method Invoke(op: Operation) returns (call: nat)
      requires Valid()
      modifies connection
      ensures Valid()
      ensures call == old(connection.futures) && call !in connection.outcomes
      ensures connection.nextId == Wrap32(old(connection.nextId) + 1)
      ensures IsRaw(op) ==>
        connection.pendingRaw == old(connection.pendingRaw)[old(connection.nextId) := call]
        && connection.pending == old(connection.pending)
      ensures !IsRaw(op) ==>
        connection.pending == old(connection.pending)[old(connection.nextId) := call]
        && connection.pendingRaw == old(connection.pendingRaw)
      ensures connection.outcomes == old(connection.outcomes)
      ensures connection.output
        == old(connection.output) + connection.Encoded(Envelope(Some(old(connection.nextId)), MethodName(op), Params(op)))
    {
      if IsRaw(op) {
        call := connection.RequestRaw(MethodName(op), Params(op));
      } else {
        call := connection.Request(MethodName(op), Params(op));
      }
    }

    /** The thenApply stage of initialize: once the call has completed with a result, the
        `initialized` notification is written and the caller gets that same result; a call that
        failed or has not completed writes nothing. */
    method AfterInitialize(call: nat) returns (r: Option<Completion>)
      requires Valid()
      modifies connection`output
      ensures Valid()
      ensures call in connection.outcomes <==> r.Some?
      ensures r.Some? ==> r.value == connection.outcomes[call]
      ensures r.Some? && r.value.Done? ==>
        connection.output == old(connection.output) + connection.Encoded(Envelope(None, "initialized", None))
      ensures !(r.Some? && r.value.Done?) ==> connection.output == old(connection.output)
    {
      if call !in connection.outcomes {
        return None;
      }
      r := Some(connection.outcomes[call]);
      if r.value.Done? {
        connection.Notify("initialized", None);
      }
    }
  }

  /** The initialize request on the wire: method "initialize" and params that always carry the
      protocol version, a capabilities object and the client info. */
  lemma InitializeRequestShape(id: int, configuration: Option<Json>)
    ensures var m := Envelope(Some(id), MethodName(Initialize(configuration)), Params(Initialize(configuration)));
      && Get(m, "method") == Some(JStr("initialize"))
      && Get(m, "params") == Some(InitializeParams(configuration))
      && Get(m.fields["params"], "protocolVersion") == Some(JStr(ProtocolVersion))
      && (Has(m.fields["params"].fields["capabilities"], "experimental") <==> Present(configuration))
  {
  }
}
