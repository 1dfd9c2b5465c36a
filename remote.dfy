/** The engine side as the pipeline sees it: a connection object, obtained by
    lookup, whose `send_command` either returns a value or raises. */
module Remote {
  import opened Values

  /** What one `send_command` call does: return a value (Python `None` is
      `Null`) or raise an exception with a message. */
  datatype Reply = Returned(value: Value) | Raised(message: string)

  /** One command as the engine received it. */
  datatype Call = Call(command: string, params: Value)

  /** The connection handed out by `get_unreal_connection`. The engine is a
      black box: `respond` gives its reply to a command, given every command it
      has received before, since the scene it edits is stateful. `received`
      records those commands in order, so that "no command was sent" can be
      stated. */
  class Connection {
    const respond: (seq<Call>, string, Value) -> Reply
    var received: seq<Call>

    constructor (respond: (seq<Call>, string, Value) -> Reply, received: seq<Call>)
      ensures this.respond == respond && this.received == received
    {
      this.respond := respond;
      this.received := received;
    }

    /** `send_command(command, params)`: the engine records the command and replies. */
    method SendCommand(command: string, params: Value) returns (r: Reply)
      modifies this
      ensures received == old(received) + [Call(command, params)]
      ensures r == respond(old(received), command, params)
    {
      r := respond(received, command, params);
      received := received + [Call(command, params)];
    }
  }
}
