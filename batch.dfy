/** `execute_mcp_command_batch`: recover a command list from the input, then
    run every item in order through `execute_mcp_command`, one result entry
    per item; a malformed item becomes an error entry in its own place and
    does not stop the batch. */
module Batch {
  import opened Values
  import opened Remote
  import opened Command
  import opened Extract

  /** One entry of the result list. */
  datatype Entry =
    | Ran(envelope: Envelope)                      // the decoded answer of `execute_mcp_command`
    | BadItem(index: nat)                          // an item with no usable command name
    | ItemFault(command: string, message: string)  // `execute_mcp_command` itself raised

  /** What the tool answers. */
  datatype BatchOutput =
    | Results(entries: seq<Entry>)   // the list of result entries
    | EmptyWarning                   // a `warning` object: the recovered list was empty
    | Failed(reason: Failure)        // no command list could be recovered

  /** How the loop reads one item: a command name and parameters, or nothing usable. */
  datatype Item = Runnable(command: string, params: Value) | Malformed

  function ItemCommand(item: Value): Item
  {
    match item
    case Map(m) =>
      var command := if "command" in m then m["command"] else Null;
      var params := if "params" in m then m["params"] else EmptyMap;
      if !command.Str? || command.s == "" then Malformed
      else Runnable(command.s, if params.Map? then params else EmptyMap)
    case Str(s) => if s != "" then Runnable(s, EmptyMap) else Malformed
    case _ => Malformed
  }

  /** A dict item runs its non-empty string `command` with its `params` when
      those are a dict and with `{}` otherwise; a non-empty string runs as a
      command with `{}`; anything else is malformed. */
  lemma ItemShapes(item: Value)
    ensures item.Map? ==>
              (ItemCommand(item).Runnable? <==>
                 "command" in item.entries && item.entries["command"].Str? && item.entries["command"].s != "")
    ensures item.Map? && ItemCommand(item).Runnable? ==>
              ItemCommand(item).command == item.entries["command"].s &&
              ItemCommand(item).params ==
                (if "params" in item.entries && item.entries["params"].Map? then item.entries["params"] else EmptyMap)
    ensures item.Str? ==> ItemCommand(item) == if item.s != "" then Runnable(item.s, EmptyMap) else Malformed
    ensures !item.Map? && !item.Str? ==> ItemCommand(item) == Malformed
    ensures ItemCommand(item).Runnable? ==> ItemCommand(item).params.Map? && ItemCommand(item).command != ""
  {
  }

  /** The entry for item `i` and the commands it sends (none or one). */
  function ItemResult(i: nat, item: Value, p: Parsers, conn: Connection?, history: seq<Call>): (Entry, seq<Call>)
  {
    match ItemCommand(item)
    case Malformed => (BadItem(i), [])
    case Runnable(command, params) =>
      var r := CommandResult(command, params, p, conn, history);
      (match r.0
       case Returns(e) => Ran(e)
       case Throws(message) => ItemFault(command, message),
       r.1)
  }

  /** How one item is run: item `i`'s entry and the commands it sends, given
      every command sent before it. */
  type Step = (nat, Value, seq<Call>) -> (Entry, seq<Call>)

  /** The loop over the items: each runs after the commands the earlier
      items sent; the entries and all the commands sent, in order. */
  function RunAll(items: seq<Value>, step: Step, history: seq<Call>): (seq<Entry>, seq<Call>)
    decreases |items|
  {
    if items == [] then ([], [])
    else
      var n := |items| - 1;
      var before := RunAll(items[..n], step, history);
      var last := step(n, items[n], history + before.1);
      (before.0 + [last.0], before.1 + last.1)
  }

  /** Running one more item appends its entry and the commands it sends. */
  lemma RunOneMore(items: seq<Value>, step: Step, history: seq<Call>, i: int)
    requires 0 <= i < |items|
    ensures var before := RunAll(items[..i], step, history);
            var last := step(i, items[i], history + before.1);
            RunAll(items[..i + 1], step, history) == (before.0 + [last.0], before.1 + last.1)
  {
    assert items[..i + 1][..i] == items[..i];
  }

  /** The step of the batch tool. */
  function ItemStep(p: Parsers, conn: Connection?): Step
  {
    (i: nat, item: Value, sent: seq<Call>) => ItemResult(i, item, p, conn, sent)
  }

  /** The entries of the batch tool for a list of items, and every command sent. */
  function Entries(items: seq<Value>, p: Parsers, conn: Connection?, history: seq<Call>): (seq<Entry>, seq<Call>)
  {
    RunAll(items, ItemStep(p, conn), history)
  }

  /** The batch after one more item: that item's entry and commands are appended. */
  lemma EntriesOneMore(items: seq<Value>, p: Parsers, conn: Connection?, history: seq<Call>, i: int)
    requires 0 <= i < |items|
    ensures var before := Entries(items[..i], p, conn, history);
            var last := ItemResult(i, items[i], p, conn, history + before.1);
            Entries(items[..i + 1], p, conn, history) == (before.0 + [last.0], before.1 + last.1)
  {
    RunOneMore(items, ItemStep(p, conn), history, i);
  }

  /** The tool's answer and the commands it sends. */
  ghost function Batch(input: Value, p: Parsers, conn: Connection?, history: seq<Call>): (BatchOutput, seq<Call>)
  {
    if input.Null? then (Results([]), [])
    else match Recover(input, p)
      case Err(f) => (Failed(f), [])
      case Ok(items) =>
        if items == [] then (EmptyWarning, [])
        else
          var r := Entries(items, p, conn, history);
          (Results(r.0), r.1)
  }

  /** One pass of the loop body: classify the item, then run it through
      `execute_mcp_command`; `sent` is what the engine has received so far. */
  method RunItem(i: nat, item: Value, conn: Connection?, p: Parsers, ghost sent: seq<Call>) returns (e: Entry)
    requires conn != null ==> conn.received == sent
    modifies conn
    ensures e == ItemResult(i, item, p, conn, sent).0
    ensures conn != null ==> conn.received == sent + ItemResult(i, item, p, conn, sent).1
  {
    var command: string;
    var params: Value;
    match item {
      case Map(m) =>
        var name := if "command" in m then m["command"] else Null;
        params := if "params" in m then m["params"] else EmptyMap;
        if !name.Str? || name.s == "" {
          return BadItem(i);
        }
        command := name.s;
        if !params.Map? {
          params := EmptyMap;
        }
      case Str(s) =>
        if s == "" {
          return BadItem(i);
        }
        command, params := s, EmptyMap;
      case _ =>
        return BadItem(i);
    }
    var outcome := ExecuteCommand(command, params, conn, p);
    match outcome {
      case Returns(envelope) => e := Ran(envelope);
      case Throws(message) => e := ItemFault(command, message);
    }
  }

  /** The execution loop: every item in order, one entry each. */
  method RunItems(commands: seq<Value>, conn: Connection?, p: Parsers) returns (results: seq<Entry>)
    modifies conn
    ensures conn == null ==> results == Entries(commands, p, null, []).0
    ensures conn != null ==>
              results == Entries(commands, p, conn, old(conn.received)).0 &&
              conn.received == old(conn.received) + Entries(commands, p, conn, old(conn.received)).1
  {
    ghost var history := if conn == null then [] else conn.received;
    ghost var calls: seq<Call> := [];
    results := [];
    var i := 0;
    while i < |commands|
      invariant 0 <= i <= |commands|
      invariant Entries(commands[..i], p, conn, history) == (results, calls)
      invariant conn != null ==> conn.received == history + calls
    {
      ghost var sent := history + calls;
      var e := RunItem(i, commands[i], conn, p, sent);
      EntriesOneMore(commands, p, conn, history, i);
      calls := calls + ItemResult(i, commands[i], p, conn, sent).1;
      results := results + [e];
      i := i + 1;
    }
    assert commands[..|commands|] == commands;
  }

  /** `execute_mcp_command_batch`. */
  method ExecuteBatch(input: Value, conn: Connection?, p: Parsers) returns (out: BatchOutput)
    modifies conn
    ensures conn == null ==> out == Batch(input, p, null, []).0
    ensures conn != null ==>
              out == Batch(input, p, conn, old(conn.received)).0 &&
              conn.received == old(conn.received) + Batch(input, p, conn, old(conn.received)).1
  {
    if input.Null? {
      return Results([]);
    }
    var recovered := RecoverCommands(input, p);
    if recovered.Err? {
      return Failed(recovered.error);
    }
    var commands := recovered.value;
    if commands == [] {
      return EmptyWarning;
    }
    var results := RunItems(commands, conn, p);
    return Results(results);
  }

  // ---------------------------------------------------------------------
  // Properties of the loop, for any step
  // ---------------------------------------------------------------------

  /** One entry per item, in item order: entry `i` is the step's result for
      item `i`, run after every command the earlier items sent. */
  lemma {:induction false} RunAligned(items: seq<Value>, step: Step, history: seq<Call>)
    ensures |RunAll(items, step, history).0| == |items|
    ensures forall i :: 0 <= i < |items| ==>
              RunAll(items, step, history).0[i] ==
                step(i, items[i], history + RunAll(items[..i], step, history).1).0
    decreases |items|
  {
    if items != [] {
      var n := |items| - 1;
      var before := RunAll(items[..n], step, history);
      RunAligned(items[..n], step, history);
      assert RunAll(items, step, history).0 == before.0 + [step(n, items[n], history + before.1).0];
      assert RunAll(items[..n], step, history).1 == before.1;
      assert items[..n] == items[..n][..n];
      forall i | 0 <= i < |items|
        ensures RunAll(items, step, history).0[i] ==
                  step(i, items[i], history + RunAll(items[..i], step, history).1).0
      {
        if i < n {
          assert items[..n][..i] == items[..i];
          assert RunAll(items, step, history).0[i] == before.0[i];
        }
      }
    }
  }

  /** The commands sent are, in order, the ones each item's step sends; with
      at most one per step there are at most as many as items. */
  lemma {:induction false} RunCallsBounded(items: seq<Value>, step: Step, history: seq<Call>)
    requires forall i: nat, item: Value, sent: seq<Call> :: |step(i, item, sent).1| <= 1
    ensures |RunAll(items, step, history).1| <= |items|
    decreases |items|
  {
    if items != [] {
      RunCallsBounded(items[..|items| - 1], step, history);
    }
  }

  /** A step that never sends makes the whole loop send nothing. */
  lemma {:induction false} RunSilent(items: seq<Value>, step: Step, history: seq<Call>)
    requires forall i: nat, item: Value, sent: seq<Call> :: step(i, item, sent).1 == []
    ensures RunAll(items, step, history).1 == []
    decreases |items|
  {
    if items != [] {
      RunSilent(items[..|items| - 1], step, history);
    }
  }

  // ---------------------------------------------------------------------
  // Properties of the batch
  // ---------------------------------------------------------------------

  /** Entry `i` of the batch is item `i`'s own result, run after the commands
      the earlier items sent. */
  lemma EntriesAligned(items: seq<Value>, p: Parsers, conn: Connection?, history: seq<Call>)
    ensures |Entries(items, p, conn, history).0| == |items|
    ensures forall i :: 0 <= i < |items| ==>
              Entries(items, p, conn, history).0[i] ==
                ItemResult(i, items[i], p, conn, history + Entries(items[..i], p, conn, history).1).0
  {
    RunAligned(items, ItemStep(p, conn), history);
  }

  /** A malformed item gets an error entry carrying its own index and every
      other item still gets its own result; no entry ever records a raised
      exception, because items always run with dict parameters. */
  lemma ItemsIsolated(items: seq<Value>, p: Parsers, conn: Connection?, history: seq<Call>, i: int)
    requires 0 <= i < |items|
    ensures var e := Entries(items, p, conn, history).0;
            |e| == |items| &&
            (e[i].BadItem? <==> ItemCommand(items[i]).Malformed?) &&
            (e[i].BadItem? ==> e[i].index == i) &&
            !e[i].ItemFault?
  {
    EntriesAligned(items, p, conn, history);
    var sent := history + Entries(items[..i], p, conn, history).1;
    match ItemCommand(items[i])
    case Malformed =>
    case Runnable(command, params) =>
      DictParamsNeverRaise(command, params.entries, p, conn, sent);
  }

  /** An item sends a command exactly when it is runnable, passes the
      required-parameter check and there is a connection; what it sends is
      its own command with its own parameters. */
  lemma ItemSends(i: nat, item: Value, p: Parsers, conn: Connection?, sent: seq<Call>)
    ensures var calls := ItemResult(i, item, p, conn, sent).1;
            (calls != [] <==>
               ItemCommand(item).Runnable? && conn != null &&
               FirstMissing(ItemCommand(item).params, RequiredParams(ItemCommand(item).command)) == AllPresent) &&
            (calls != [] ==> calls == [Call(ItemCommand(item).command, ItemCommand(item).params)])
  {
    if ItemCommand(item).Runnable? {
      ParamsNormalisation(ItemCommand(item).params, p);
      MapNeverFaults(ItemCommand(item).params.entries, RequiredParams(ItemCommand(item).command));
    }
  }

  /** Items carry their parameters under `params`: a `create_blueprint` item
      whose parameters sit under `parameters` runs with `{}`, so it is refused
      for its first required key, `name`, and sends nothing. */
  lemma ParametersKeyIgnored(i: nat, v: Value, p: Parsers, conn: Connection?, sent: seq<Call>)
    ensures var item := Map(map["command" := Str("create_blueprint"), "parameters" := v]);
            ItemResult(i, item, p, conn, sent) == (Ran(MissingParam("create_blueprint", "name")), [])
  {
    var item := Map(map["command" := Str("create_blueprint"), "parameters" := v]);
    assert ItemCommand(item) == Runnable("create_blueprint", EmptyMap);
    assert FirstMissing(EmptyMap, RequiredParams("create_blueprint")) == MissingKey("name");
  }

  /** At most one command is sent per item. */
  lemma AtMostOneCallPerItem(items: seq<Value>, p: Parsers, conn: Connection?, history: seq<Call>)
    ensures |Entries(items, p, conn, history).1| <= |items|
  {
    forall i: nat, item: Value, sent: seq<Call> ensures |ItemStep(p, conn)(i, item, sent).1| <= 1 {
      ItemSends(i, item, p, conn, sent);
    }
    RunCallsBounded(items, ItemStep(p, conn), history);
  }

  /** Without a connection an item sends nothing, and a runnable item's entry
      is the missing-connection error or the error for a missing required
      parameter. */
  lemma ItemWithoutConnection(i: nat, item: Value, p: Parsers, sent: seq<Call>)
    ensures ItemResult(i, item, p, null, sent).1 == []
    ensures ItemCommand(item).Runnable? ==>
              var e := ItemResult(i, item, p, null, sent).0;
              e == Ran(NoConnection) || (e.Ran? && e.envelope.MissingParam?)
  {
    if ItemCommand(item).Runnable? {
      var params := ItemCommand(item).params;
      ParamsNormalisation(params, p);
      MapNeverFaults(params.entries, RequiredParams(ItemCommand(item).command));
    }
  }

  /** Without a connection the batch sends nothing, and every runnable item's
      entry is the missing-connection error or the error for a missing
      required parameter. */
  lemma NoConnectionBatch(items: seq<Value>, p: Parsers, history: seq<Call>)
    ensures Entries(items, p, null, history).1 == []
    ensures |Entries(items, p, null, history).0| == |items|
    ensures forall i :: 0 <= i < |items| && ItemCommand(items[i]).Runnable? ==>
              Entries(items, p, null, history).0[i] == Ran(NoConnection) ||
              (Entries(items, p, null, history).0[i].Ran? &&
               Entries(items, p, null, history).0[i].envelope.MissingParam?)
  {
    forall i: nat, item: Value, sent: seq<Call> ensures ItemStep(p, null)(i, item, sent).1 == [] {
      ItemWithoutConnection(i, item, p, sent);
    }
    RunSilent(items, ItemStep(p, null), history);
    EntriesAligned(items, p, null, history);
    forall i | 0 <= i < |items|
      ensures ItemCommand(items[i]).Runnable? ==>
                Entries(items, p, null, history).0[i] == Ran(NoConnection) ||
                (Entries(items, p, null, history).0[i].Ran? &&
                 Entries(items, p, null, history).0[i].envelope.MissingParam?)
    {
      ItemWithoutConnection(i, items[i], p, history + Entries(items[..i], p, null, history).1);
    }
  }

  /** The degenerate answers: `None` gives an empty result list, an input
      with no recoverable list gives a failure, an empty list gives exactly one
      warning; none of them sends a command. Otherwise there is one entry per
      recovered item. */
  lemma BatchOutcomes(input: Value, p: Parsers, conn: Connection?, history: seq<Call>)
    ensures input.Null? ==> Batch(input, p, conn, history) == (Results([]), [])
    ensures !input.Null? && Recover(input, p).Err? ==>
              Batch(input, p, conn, history) == (Failed(Recover(input, p).error), [])
    ensures !input.Null? && Recover(input, p) == Ok([]) ==> Batch(input, p, conn, history) == (EmptyWarning, [])
    ensures !input.Null? && Recover(input, p).Ok? && Recover(input, p).value != [] ==>
              Batch(input, p, conn, history).0.Results? &&
              |Batch(input, p, conn, history).0.entries| == |Recover(input, p).value|
  {
    if !input.Null? && Recover(input, p).Ok? {
      EntriesAligned(Recover(input, p).value, p, conn, history);
    }
  }

  /** JSON text of a list, and a dict wrapping the list under `commands_list`,
      `commands` or `command_list`, give the same answer and send the same
      commands as the list itself. */
  lemma EquivalentInputs(xs: seq<Value>, s: string, key: string, p: Parsers, conn: Connection?, history: seq<Call>)
    requires p.json(s) == Some(List(xs))
    requires key in {"commands_list", "commands", "command_list"}
    ensures Batch(Str(s), p, conn, history) == Batch(List(xs), p, conn, history)
    ensures Batch(Map(map[key := List(xs)]), p, conn, history) == Batch(List(xs), p, conn, history)
  {
    JsonTextSameAsList(s, p, xs);
    WrappedSameAsList(key, xs, p);
  }
}
