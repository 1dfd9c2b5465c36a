/** `execute_mcp_command`: run one named command on the engine. It normalises
    the parameter argument, checks the required parameters of three command
    kinds, looks up the connection, sends the command and turns the reply or
    the exception into a status envelope. */
module Command {
  import opened Values
  import opened Remote

  /** The dictionaries `execute_mcp_command` serialises as its answer. */
  datatype Envelope =
    | BadParamsType                                // parameters neither text nor dict
    | BadParamsJson                                // parameter text that is not JSON
    | MissingParam(command: string, key: string)   // a required parameter missing or falsy
    | NoConnection                                 // the connection lookup found none
    | NoResponse                                   // the engine replied `None`
    | Unknown(raw: Value)                          // the engine replied with a non-dict
    | Response(body: map<string, Value>)           // the engine's own dict, unchanged
    | RemoteError(command: string, message: string) // `send_command` raised

  /** What a call of `execute_mcp_command` does: return an envelope, or raise
      (the required-parameter test on parameters that are not a dict can raise
      `TypeError`, and nothing catches it there). */
  datatype Outcome = Returns(envelope: Envelope) | Throws(message: string)

  function ErrorObject(message: string): Value
  {
    Map(map["status" := Str("error"), "error" := Str(message)])
  }

  /** The JSON object each envelope is written as. The wording of the messages
      is not the program's; which keys appear, and which status, is. */
  function ToJson(e: Envelope): Value
  {
    match e
    case BadParamsType => ErrorObject("invalid parameter format: expected a JSON string or a dict")
    case BadParamsJson => ErrorObject("could not parse the parameter JSON string")
    case MissingParam(command, key) =>
      ErrorObject("required parameter '" + key + "' not provided for command '" + command + "'")
    case NoConnection => ErrorObject("could not connect to Unreal Engine")
    case NoResponse => ErrorObject("no response received from the MCP server")
    case Unknown(raw) => Map(map["status" := Str("unknown"), "raw_response" := raw])
    case Response(body) => Map(body)
    case RemoteError(command, message) =>
      Map(map["status" := Str("error"), "command" := Str(command),
               "error" := Str("error executing MCP command '" + command + "': " + message),
               "details" := Str(message)])
  }

  // ---------------------------------------------------------------------
  // Parameter normalisation
  // ---------------------------------------------------------------------

  /** The parameters the command runs with, or the envelope returned before
      any connection is looked up. */
  function NormaliseParams(arg: Value, p: Parsers): Result<Value, Envelope>
  {
    if !Truthy(arg) then Ok(EmptyMap)
    else match arg
      case Str(s) =>
        if Strip(s) == [] then Ok(EmptyMap)
        else (match p.json(s)
              case Some(v) => Ok(v)
              case None => Err(BadParamsJson))
      case Map(_) => Ok(arg)
      case _ => Err(BadParamsType)
  }

  /** Absent, falsy or blank arguments mean `{}`; a dict is used unchanged; any
      other text is JSON-decoded, and text that does not decode is an error;
      every other kind of argument is an error. */
  lemma ParamsNormalisation(arg: Value, p: Parsers)
    ensures !Truthy(arg) ==> NormaliseParams(arg, p) == Ok(EmptyMap)
    ensures arg.Str? && (forall i :: 0 <= i < |arg.s| ==> IsSpace(arg.s[i])) ==>
              NormaliseParams(arg, p) == Ok(EmptyMap)
    ensures arg.Map? ==> NormaliseParams(arg, p) == Ok(arg)
    ensures arg.Str? && Strip(arg.s) != [] ==>
              (NormaliseParams(arg, p).Ok? <==> p.json(arg.s).Some?) &&
              (NormaliseParams(arg, p).Ok? ==> NormaliseParams(arg, p).value == p.json(arg.s).value) &&
              (NormaliseParams(arg, p).Err? ==> NormaliseParams(arg, p).error == BadParamsJson)
    ensures (arg.Bool? || arg.Num? || arg.List?) && Truthy(arg) ==>
              NormaliseParams(arg, p) == Err(BadParamsType)
  {
    if arg.Str? {
      StripEmptyIffBlank(arg.s);
    }
  }

  /** The normalisation step of `execute_mcp_command`. */
  method NormaliseArgument(arg: Value, p: Parsers) returns (r: Result<Value, Envelope>)
    ensures r == NormaliseParams(arg, p)
  {
    r := Ok(EmptyMap);
    if Truthy(arg) {
      match arg {
        case Str(s) =>
          if Strip(s) != [] {
            match p.json(s) {
              case Some(v) => r := Ok(v);
              case None => r := Err(BadParamsJson);
            }
          }
        case Map(_) => r := Ok(arg);
        case _ => r := Err(BadParamsType);
      }
    }
  }

  // ---------------------------------------------------------------------
  // Required parameters
  // ---------------------------------------------------------------------

  /** The fixed table of required parameters, in the order they are checked. */
  function RequiredParams(command: string): seq<string>
  {
    if command == "create_blueprint" then ["name", "parent_class"]
    else if command == "spawn_actor" then ["name", "type"]
    else if command == "add_component_to_blueprint" then ["blueprint_name", "component_type", "component_name"]
    else []
  }

  /** Exactly three command kinds have required parameters; every other name skips the check. */
  lemma RequiredParamsTable(command: string)
    ensures RequiredParams(command) != [] <==>
              command in {"create_blueprint", "spawn_actor", "add_component_to_blueprint"}
    ensures forall k :: k in RequiredParams(command) ==> k != ""
  {
  }

  /** What `param_name not in params or not params[param_name]` does for one key. */
  datatype KeyStatus = Present | Absent | Fault

  function KeyCheck(params: Value, key: string): KeyStatus
  {
    match params
    case Map(m) => if key !in m || !Truthy(m[key]) then Absent else Present
    // `in` on a list tests membership; indexing a list by a string raises
    case List(xs) => if Str(key) !in xs then Absent else Fault
    // `in` on a string tests for a substring; indexing a string by a string raises
    case Str(s) => if !Contains(s, key) then Absent else Fault
    // `in` on None, a bool or a number raises
    case _ => Fault
  }

  datatype Check = AllPresent | MissingKey(key: string) | TypeFault

  /** The result of the required-parameter loop: it stops at the first key
      that is missing or falsy. */
  function FirstMissing(params: Value, keys: seq<string>): Check
  {
    if keys == [] then AllPresent
    else match KeyCheck(params, keys[0])
      case Present => FirstMissing(params, keys[1..])
      case Absent => MissingKey(keys[0])
      case Fault => TypeFault
  }

  predicate PresentBefore(params: Value, keys: seq<string>, j: int)
    requires j <= |keys|
  {
    forall i :: 0 <= i < j ==> KeyCheck(params, keys[i]) == Present
  }

  /** The loop reports key `keys[j]` exactly when it is absent and every
      earlier key is present. */
  lemma {:induction false} FirstMissingIsFirstAbsent(params: Value, keys: seq<string>, j: int)
    requires 0 <= j < |keys|
    ensures (FirstMissing(params, keys) == MissingKey(keys[j]) && PresentBefore(params, keys, j))
              <==> (KeyCheck(params, keys[j]) == Absent && PresentBefore(params, keys, j))
  {
    if j > 0 && PresentBefore(params, keys, j) {
      assert KeyCheck(params, keys[0]) == Present;
      assert keys[1..][j - 1] == keys[j];
      assert PresentBefore(params, keys[1..], j - 1);
      FirstMissingIsFirstAbsent(params, keys[1..], j - 1);
    } else if j == 0 && KeyCheck(params, keys[0]) == Present && FirstMissing(params, keys[1..]).MissingKey? {
      // a key reported later is absent, so it cannot be keys[0]
      FirstMissingReportsRequiredKey(params, keys[1..]);
    }
  }

  /** Whatever key the loop reports was required, and is absent. */
  lemma {:induction false} FirstMissingReportsRequiredKey(params: Value, keys: seq<string>)
    requires FirstMissing(params, keys).MissingKey?
    ensures exists j :: 0 <= j < |keys| && keys[j] == FirstMissing(params, keys).key &&
              KeyCheck(params, keys[j]) == Absent && PresentBefore(params, keys, j)
  {
    if KeyCheck(params, keys[0]) == Present {
      FirstMissingReportsRequiredKey(params, keys[1..]);
      var j :| 0 <= j < |keys[1..]| && keys[1..][j] == FirstMissing(params, keys).key &&
                KeyCheck(params, keys[1..][j]) == Absent && PresentBefore(params, keys[1..], j);
      assert keys[j + 1] == keys[1..][j];
      assert PresentBefore(params, keys, j + 1);
    } else {
      assert PresentBefore(params, keys, 0);
    }
  }

  /** The loop passes exactly when every required key is present and truthy. */
  lemma {:induction false} AllPresentIffComplete(m: map<string, Value>, keys: seq<string>)
    ensures FirstMissing(Map(m), keys) == AllPresent <==>
              forall i :: 0 <= i < |keys| ==> keys[i] in m && Truthy(m[keys[i]])
  {
    if keys != [] {
      AllPresentIffComplete(m, keys[1..]);
      assert forall i :: 1 <= i < |keys| ==> keys[i] == keys[1..][i - 1];
    }
  }

  /** With dict parameters the check never raises. */
  lemma {:induction false} MapNeverFaults(m: map<string, Value>, keys: seq<string>)
    ensures FirstMissing(Map(m), keys) != TypeFault
  {
    if keys != [] {
      MapNeverFaults(m, keys[1..]);
    }
  }

  /** The required-parameter loop, with its early exit. */
  method CheckRequired(params: Value, keys: seq<string>) returns (c: Check)
    ensures c == FirstMissing(params, keys)
  {
    var i := 0;
    while i < |keys|
      invariant 0 <= i <= |keys|
      invariant FirstMissing(params, keys) == FirstMissing(params, keys[i..])
    {
      assert keys[i..][1..] == keys[i + 1..];
      var status := KeyCheck(params, keys[i]);
      if status == Absent {
        return MissingKey(keys[i]);
      } else if status == Fault {
        return TypeFault;
      }
      i := i + 1;
    }
    return AllPresent;
  }

  // ---------------------------------------------------------------------
  // Validation as a whole, and the remote call
  // ---------------------------------------------------------------------

  /** Either the call ends before the connection is looked up, or the command
      is ready to be sent with these parameters. */
  datatype Prep = Stop(outcome: Outcome) | Ready(params: Value)

  function Prepare(command: string, arg: Value, p: Parsers): Prep
  {
    match NormaliseParams(arg, p)
    case Err(e) => Stop(Returns(e))
    case Ok(params) =>
      match FirstMissing(params, RequiredParams(command))
      case AllPresent => Ready(params)
      case MissingKey(k) => Stop(Returns(MissingParam(command, k)))
      case TypeFault => Stop(Throws("TypeError"))
  }

  /** With dict parameters, a command with required parameters is refused
      naming `key` exactly when `key` is the first required key that is missing
      or falsy; it is ready exactly when all of them are present and truthy. */
  lemma RequiredParamsRefusal(command: string, m: map<string, Value>, p: Parsers, j: int)
    requires 0 <= j < |RequiredParams(command)|
    ensures var keys := RequiredParams(command);
            (Prepare(command, Map(m), p) == Stop(Returns(MissingParam(command, keys[j])))
               && PresentBefore(Map(m), keys, j))
            <==> ((keys[j] !in m || !Truthy(m[keys[j]])) && PresentBefore(Map(m), keys, j))
    ensures Prepare(command, Map(m), p).Ready? <==>
              forall k :: k in RequiredParams(command) ==> k in m && Truthy(m[k])
  {
    ParamsNormalisation(Map(m), p);
    FirstMissingIsFirstAbsent(Map(m), RequiredParams(command), j);
    AllPresentIffComplete(m, RequiredParams(command));
    MapNeverFaults(m, RequiredParams(command));
  }

  /** A command kind outside the table is never refused for its parameters:
      it is ready exactly when the argument normalises. */
  lemma UnlistedCommandSkipsValidation(command: string, arg: Value, p: Parsers)
    requires command !in {"create_blueprint", "spawn_actor", "add_component_to_blueprint"}
    ensures NormaliseParams(arg, p).Ok? ==> Prepare(command, arg, p) == Ready(NormaliseParams(arg, p).value)
    ensures NormaliseParams(arg, p).Err? ==> Prepare(command, arg, p) == Stop(Returns(NormaliseParams(arg, p).error))
  {
    RequiredParamsTable(command);
  }

  /** Parameter text that decodes to `null`, a bool or a number makes the
      check raise for a command with required parameters: `in` itself raises. */
  lemma NonDictParamsRaise(command: string, s: string, p: Parsers)
    requires RequiredParams(command) != [] && Strip(s) != []
    requires p.json(s).Some? && (p.json(s).value.Null? || p.json(s).value.Bool? || p.json(s).value.Num?)
    ensures Prepare(command, Str(s), p) == Stop(Throws("TypeError"))
  {
    ParamsNormalisation(Str(s), p);
    assert KeyCheck(p.json(s).value, RequiredParams(command)[0]) == Fault;
  }

  /** Parameter text that decodes to a list or a string: `in` tests list
      membership or a substring, so a command with required parameters is
      refused naming the first key when that test fails, and raises
      `TypeError` on the index when it passes. */
  lemma ContainerParams(command: string, s: string, p: Parsers)
    requires RequiredParams(command) != [] && Strip(s) != []
    requires p.json(s).Some? && (p.json(s).value.List? || p.json(s).value.Str?)
    ensures var key := RequiredParams(command)[0];
            p.json(s).value.List? ==>
              Prepare(command, Str(s), p) ==
                if Str(key) in p.json(s).value.items then Stop(Throws("TypeError"))
                else Stop(Returns(MissingParam(command, key)))
    ensures var key := RequiredParams(command)[0];
            p.json(s).value.Str? ==>
              Prepare(command, Str(s), p) ==
                if Contains(p.json(s).value.s, key) then Stop(Throws("TypeError"))
                else Stop(Returns(MissingParam(command, key)))
  {
    ParamsNormalisation(Str(s), p);
  }

  /** What `send_command`'s reply turns into. */
  function Wrap(command: string, reply: Reply): Envelope
  {
    match reply
    case Raised(message) => RemoteError(command, message)
    case Returned(Null) => NoResponse
    case Returned(Map(body)) => Response(body)
    case Returned(v) => Unknown(v)
  }

  /** A `None` reply is an error; a dict is returned exactly as the engine sent
      it, with no status added; any other value is wrapped with status
      `unknown`; an exception becomes an error that names the command. */
  lemma ResponseEnvelopes(command: string, reply: Reply)
    ensures reply == Returned(Null) ==> ToJson(Wrap(command, reply)).entries["status"] == Str("error")
    ensures reply.Returned? && reply.value.Map? ==> ToJson(Wrap(command, reply)) == reply.value
    ensures reply.Returned? && !reply.value.Map? && !reply.value.Null? ==>
              ToJson(Wrap(command, reply)) == Map(map["status" := Str("unknown"), "raw_response" := reply.value])
    ensures reply.Raised? ==>
              var j := ToJson(Wrap(command, reply)).entries;
              j.Keys == {"status", "command", "error", "details"} &&
              j["status"] == Str("error") && j["command"] == Str(command)
  {
  }

  /** What one call does and the commands it sends the engine (none or one),
      given the connection the lookup found and what the engine received before. */
  function CommandResult(command: string, arg: Value, p: Parsers, conn: Connection?, history: seq<Call>)
    : (Outcome, seq<Call>)
  {
    match Prepare(command, arg, p)
    case Stop(o) => (o, [])
    case Ready(params) =>
      if conn == null then (Returns(NoConnection), [])
      else (Returns(Wrap(command, conn.respond(history, command, params))), [Call(command, params)])
  }

  /** Nothing is sent when the parameters are refused or there is no
      connection; otherwise exactly the prepared command is sent, once. */
  lemma SendsOnlyWhenReady(command: string, arg: Value, p: Parsers, conn: Connection?, history: seq<Call>)
    ensures var (o, calls) := CommandResult(command, arg, p, conn, history);
            (Prepare(command, arg, p).Stop? ==> calls == [] && o == Prepare(command, arg, p).outcome) &&
            (conn == null ==> calls == [] && (Prepare(command, arg, p).Ready? ==> o == Returns(NoConnection))) &&
            (calls != [] <==> conn != null && Prepare(command, arg, p).Ready?) &&
            (calls != [] ==> calls == [Call(command, Prepare(command, arg, p).params)])
  {
  }

  /** With dict parameters the call never raises: every failure, including an
      exception from the engine, comes back as an envelope. */
  lemma {:induction false} DictParamsNeverRaise(command: string, m: map<string, Value>, p: Parsers,
                                                conn: Connection?, history: seq<Call>)
    ensures CommandResult(command, Map(m), p, conn, history).0.Returns?
  {
    MapNeverFaults(m, RequiredParams(command));
  }

  /** `execute_mcp_command`. */
  method ExecuteCommand(command: string, paramsArg: Value, conn: Connection?, p: Parsers) returns (out: Outcome)
    modifies conn
    ensures conn == null ==> out == CommandResult(command, paramsArg, p, null, []).0
    ensures conn != null ==>
              out == CommandResult(command, paramsArg, p, conn, old(conn.received)).0 &&
              conn.received == old(conn.received) + CommandResult(command, paramsArg, p, conn, old(conn.received)).1
  {
    var normalised := NormaliseArgument(paramsArg, p);
    if normalised.Err? {
      return Returns(normalised.error);
    }
    var params := normalised.value;

    var check := CheckRequired(params, RequiredParams(command));
    match check {
      case MissingKey(k) => return Returns(MissingParam(command, k));
      case TypeFault => return Throws("TypeError");
      case AllPresent =>
    }

    if conn == null {
      return Returns(NoConnection);
    }
    var reply := conn.SendCommand(command, params);
    out := Returns(Wrap(command, reply));
  }
}
