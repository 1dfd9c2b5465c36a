/** The first half of `execute_mcp_command_batch`: recovering a list of
    commands from an input of unknown shape (a list, text holding JSON or a
    Python literal, or a dict wrapping the list). */
module Extract {
  import opened Values
  import opened Repair

  /** Keys searched, in order, in a JSON object decoded from the input text. */
  const TextWrapperKeys: seq<string> := ["commands_list", "commands", "command_list", "input", "data"]

  /** Keys searched, in order, in a JSON object decoded from repaired text. */
  const RepairedWrapperKeys: seq<string> := ["commands_list", "commands", "command_list"]

  /** Keys searched, in order, in a dict input. */
  const DictWrapperKeys: seq<string> := ["commands_list", "commands", "command_list", "batch", "input", "data"]

  /** Why no command list was recovered; each is a different answer of the tool. */
  datatype Failure =
    | UnrecognisedJson   // the text is JSON, but neither a list nor an object holding one
    | UnparseableText    // no decoding or repair of the text gave a list
    | UnrecognisedDict   // a dict input with no recognisable list
    | NotAList           // an input that is neither a list, text nor a dict

  // ---------------------------------------------------------------------
  // Scanning wrapper keys
  // ---------------------------------------------------------------------

  /** What a scan accepts under a key: only a list, or also text that decodes
      to a JSON list (the scan of a dict input). */
  datatype Pick = ListOnly | ListOrJsonText(p: Parsers)

  function Picked(pick: Pick, v: Value): Option<seq<Value>>
  {
    match v
    case List(xs) => Some(xs)
    case Str(s) =>
      if pick.ListOrJsonText? then
        (match pick.p.json(s)
         case Some(List(xs)) => Some(xs)
         case _ => None)
      else None
    case _ => None
  }

  /** The list under the first of `keys` whose value the scan accepts. */
  function FirstUnder(m: map<string, Value>, keys: seq<string>, pick: Pick): Option<seq<Value>>
  {
    if keys == [] then None
    else if keys[0] in m && Picked(pick, m[keys[0]]).Some? then Picked(pick, m[keys[0]])
    else FirstUnder(m, keys[1..], pick)
  }

  predicate NothingBefore(m: map<string, Value>, keys: seq<string>, pick: Pick, j: int)
    requires j <= |keys|
  {
    forall i :: 0 <= i < j ==> keys[i] !in m || Picked(pick, m[keys[i]]).None?
  }

  /** The scan answers the list under `keys[j]` when that is the first
      acceptable key, and finds nothing exactly when no key is acceptable. */
  lemma {:induction false} FirstUnderIsFirst(m: map<string, Value>, keys: seq<string>, pick: Pick, j: int)
    requires 0 <= j <= |keys|
    ensures j < |keys| && NothingBefore(m, keys, pick, j) && keys[j] in m && Picked(pick, m[keys[j]]).Some? ==>
              FirstUnder(m, keys, pick) == Picked(pick, m[keys[j]])
    ensures j == |keys| ==> (FirstUnder(m, keys, pick).None? <==> NothingBefore(m, keys, pick, j))
  {
    if keys != [] && (j == |keys| || NothingBefore(m, keys, pick, j)) {
      if j > 0 && NothingBefore(m, keys, pick, j) {
        assert NothingBefore(m, keys[1..], pick, j - 1);
        assert j < |keys| ==> keys[1..][j - 1] == keys[j];
      }
      if j > 0 {
        FirstUnderIsFirst(m, keys[1..], pick, j - 1);
        if FirstUnder(m, keys, pick).None? {
          assert NothingBefore(m, keys[1..], pick, j - 1) ==> NothingBefore(m, keys, pick, j);
        }
      }
    }
  }

  /** The wrapper-key loops: `for key in keys: ... break`. */
  method FindUnder(m: map<string, Value>, keys: seq<string>, pick: Pick) returns (found: Option<seq<Value>>)
    ensures found == FirstUnder(m, keys, pick)
  {
    var i := 0;
    while i < |keys|
      invariant 0 <= i <= |keys|
      invariant FirstUnder(m, keys, pick) == FirstUnder(m, keys[i..], pick)
    {
      assert keys[i..][1..] == keys[i + 1..];
      var key := keys[i];
      if key in m && m[key].List? {
        return Some(m[key].items);
      } else if pick.ListOrJsonText? && key in m && m[key].Str? {
        var decoded := pick.p.json(m[key].s);
        if decoded.Some? && decoded.value.List? {
          return Some(decoded.value.items);
        }
      }
      i := i + 1;
    }
    return None;
  }

  // ---------------------------------------------------------------------
  // Text input
  // ---------------------------------------------------------------------

  predicate IsCommandDict(v: Value)
  {
    v.Map? && "command" in v.entries
  }

  /** The check on an evaluated literal: every element is a dict with `command`. */
  method AllCommandDicts(xs: seq<Value>) returns (ok: bool)
    ensures ok <==> forall i :: 0 <= i < |xs| ==> IsCommandDict(xs[i])
  {
    ok := true;
    var i := 0;
    while i < |xs|
      invariant 0 <= i <= |xs|
      invariant ok <==> forall k :: 0 <= k < i ==> IsCommandDict(xs[k])
    {
      if !IsCommandDict(xs[i]) {
        ok := false;
        break;
      }
      i := i + 1;
    }
  }

  /** The test that sends text to `ast.literal_eval` first: `dict(`, `[` and
      `]` all occur, or the stripped text is bracketed. */
  predicate LooksLikeLiteral(s: string)
  {
    || (Contains(s, "dict(") && Contains(s, "[") && Contains(s, "]"))
    || (StartsWith(Strip(s), "[") && EndsWith(Strip(s), "]"))
  }

  /** What the JSON decoding of repaired text yields: a list, or the list
      under one of the three first wrapper keys of an object. */
  function FromRepaired(decoded: Option<Value>): Option<seq<Value>>
  {
    match decoded
    case Some(List(xs)) => Some(xs)
    case Some(Map(m)) => FirstUnder(m, RepairedWrapperKeys, ListOnly)
    case _ => None
  }

  function LiteralList(p: Parsers, s: string): Option<seq<Value>>
  {
    match p.literal(s)
    case Some(List(xs)) => Some(xs)
    case _ => None
  }

  /** The first attempt: text that looks like a literal and evaluates to a
      list whose items are all command dicts. */
  function LiteralCommands(s: string, p: Parsers): Option<seq<Value>>
  {
    var literal := LiteralList(p, s);
    if LooksLikeLiteral(s) && literal.Some? && forall i :: 0 <= i < |literal.value| ==> IsCommandDict(literal.value[i])
    then literal else None
  }

  /** The attempts made once the text is not JSON, in order: a literal list
      of command dicts, the `dict(` rewrite decoded as JSON, any literal list. */
  function AfterJsonFailure(s: string, p: Parsers): Result<seq<Value>, Failure>
  {
    var literal := LiteralList(p, s);
    var first := LiteralCommands(s, p);
    var second := if first.None? && Contains(s, "dict(") then FromRepaired(p.json(RepairDictText(s))) else first;
    var last := if second.None? then literal else second;
    if last.Some? then Ok(last.value) else Err(UnparseableText)
  }

  /** The list recovered from text input. */
  function FromText(s: string, p: Parsers): Result<seq<Value>, Failure>
  {
    match p.json(s)
    case Some(List(xs)) => Ok(xs)
    case Some(Map(m)) =>
      (match FirstUnder(m, TextWrapperKeys, ListOnly)
       case Some(xs) => Ok(xs)
       case None => if "command" in m then Ok([Map(m)]) else Err(UnrecognisedJson))
    case Some(_) => Err(UnrecognisedJson)
    case None => AfterJsonFailure(s, p)
  }

  /** The text branch of the tool, step by step. */
  method RecoverFromText(s: string, p: Parsers) returns (r: Result<seq<Value>, Failure>)
    ensures r == FromText(s, p)
  {
    var parsed := p.json(s);
    if parsed.Some? {
      var processed: Option<seq<Value>> := None;
      if parsed.value.List? {
        processed := Some(parsed.value.items);
      } else if parsed.value.Map? {
        processed := FindUnder(parsed.value.entries, TextWrapperKeys, ListOnly);
        if processed.None? && "command" in parsed.value.entries {
          processed := Some([parsed.value]);
        }
      }
      if processed.None? {
        return Err(UnrecognisedJson);
      }
      return Ok(processed.value);
    }
    r := RecoverAfterJsonFailure(s, p);
  }

  /** The first attempt of the text branch once `json.loads` has failed. */
  method TryLiteralCommands(s: string, p: Parsers) returns (r: Option<seq<Value>>)
    ensures r == LiteralCommands(s, p)
  {
    r := None;
    if LooksLikeLiteral(s) {
      var evaluated := LiteralList(p, s);
      if evaluated.Some? {
        var valid := AllCommandDicts(evaluated.value);
        if valid {
          r := evaluated;
        }
      }
    }
  }

  /** The second attempt: rewrite the `dict(` notation and decode it as JSON. */
  method TryRepaired(s: string, p: Parsers) returns (r: Option<seq<Value>>)
    ensures r == FromRepaired(p.json(RepairDictText(s)))
  {
    var reparsed := p.json(RepairDictText(s));
    r := None;
    if reparsed.Some? && reparsed.value.List? {
      r := Some(reparsed.value.items);
    } else if reparsed.Some? && reparsed.value.Map? {
      r := FindUnder(reparsed.value.entries, RepairedWrapperKeys, ListOnly);
    }
  }

  /** The repair attempts of the text branch, once `json.loads` has failed. */
  method RecoverAfterJsonFailure(s: string, p: Parsers) returns (r: Result<seq<Value>, Failure>)
    ensures r == AfterJsonFailure(s, p)
  {
    var processed := TryLiteralCommands(s, p);
    if processed.None? && Contains(s, "dict(") {
      processed := TryRepaired(s, p);
    }
    if processed.None? {
      var evaluated := p.literal(s);
      if evaluated.Some? && evaluated.value.List? {
        processed := Some(evaluated.value.items);
      }
    }
    if processed.None? {
      return Err(UnparseableText);
    }
    return Ok(processed.value);
  }

  // ---------------------------------------------------------------------
  // Dict input
  // ---------------------------------------------------------------------

  /** The value of a one-entry dict, `next(iter(d.values()))`. */
  ghost function OnlyValue(m: map<string, Value>): Value
    requires |m| == 1
  {
    var k :| k in m;
    m[k]
  }

  lemma OnlyValueAt(m: map<string, Value>, k: string)
    requires |m| == 1 && k in m
    ensures OnlyValue(m) == m[k]
  {
    assert m.Keys == {k} by {
      var rest := m.Keys - {k};
      assert |rest| == 0;
    }
  }

  /** The list recovered from a dict input, by the first rule that applies. */
  ghost function FromDict(m: map<string, Value>, p: Parsers): Result<seq<Value>, Failure>
  {
    match FirstUnder(m, DictWrapperKeys, ListOrJsonText(p))
    case Some(xs) => Ok(xs)
    case None =>
      if "command" in m && "params" in m then Ok([Map(m)])
      else if |m| == 1 && Picked(ListOrJsonText(p), OnlyValue(m)).Some? then
        Ok(Picked(ListOrJsonText(p), OnlyValue(m)).value)
      else Err(UnrecognisedDict)
  }

  /** The dict branch of the tool, step by step. */
  method RecoverFromDict(m: map<string, Value>, p: Parsers) returns (r: Result<seq<Value>, Failure>)
    ensures r == FromDict(m, p)
  {
    var found := FindUnder(m, DictWrapperKeys, ListOrJsonText(p));
    var processed: Option<seq<Value>> := None;
    if found.Some? {
      processed := found;
    } else if "command" in m && "params" in m {
      processed := Some([Map(m)]);
    } else if |m| == 1 {
      var k :| k in m;
      OnlyValueAt(m, k);
      var single := m[k];
      if single.List? {
        processed := Some(single.items);
      } else if single.Str? {
        var decoded := p.json(single.s);
        if decoded.Some? && decoded.value.List? {
          processed := Some(decoded.value.items);
        }
      }
    }
    if processed.None? {
      return Err(UnrecognisedDict);
    }
    return Ok(processed.value);
  }

  // ---------------------------------------------------------------------
  // Any input
  // ---------------------------------------------------------------------

  /** The command list recovered from an input other than `None`. */
  ghost function Recover(input: Value, p: Parsers): Result<seq<Value>, Failure>
    requires !input.Null?
  {
    match input
    case List(xs) => Ok(xs)
    case Str(s) => FromText(s, p)
    case Map(m) => FromDict(m, p)
    case _ => Err(NotAList)
  }

  method RecoverCommands(input: Value, p: Parsers) returns (r: Result<seq<Value>, Failure>)
    requires !input.Null?
    ensures r == Recover(input, p)
  {
    match input {
      case List(xs) => r := Ok(xs);
      case Str(s) => r := RecoverFromText(s, p);
      case Map(m) => r := RecoverFromDict(m, p);
      case _ => r := Err(NotAList);
    }
  }

  // ---------------------------------------------------------------------
  // Properties of the recovery
  // ---------------------------------------------------------------------

  /** JSON object text: the list under the first of `commands_list`,
      `commands`, `command_list`, `input`, `data` that holds a list; failing
      that, the object itself when it has `command`; failing both, an error. */
  lemma TextJsonObject(s: string, p: Parsers, m: map<string, Value>, j: int)
    requires p.json(s) == Some(Map(m)) && 0 <= j < |TextWrapperKeys|
    ensures NothingBefore(m, TextWrapperKeys, ListOnly, j) && TextWrapperKeys[j] in m && m[TextWrapperKeys[j]].List? ==>
              FromText(s, p) == Ok(m[TextWrapperKeys[j]].items)
    ensures NothingBefore(m, TextWrapperKeys, ListOnly, |TextWrapperKeys|) ==>
              (FromText(s, p).Ok? <==> "command" in m) &&
              (FromText(s, p).Ok? ==> FromText(s, p).value == [Map(m)]) &&
              (FromText(s, p).Err? ==> FromText(s, p).error == UnrecognisedJson)
  {
    FirstUnderIsFirst(m, TextWrapperKeys, ListOnly, j);
    FirstUnderIsFirst(m, TextWrapperKeys, ListOnly, |TextWrapperKeys|);
  }

  /** Text input never looks under `batch`, unlike dict input. */
  lemma TextIgnoresBatchKey(s: string, p: Parsers, xs: seq<Value>)
    requires p.json(s) == Some(Map(map["batch" := List(xs)]))
    ensures FromText(s, p) == Err(UnrecognisedJson)
  {
    FirstUnderIsFirst(map["batch" := List(xs)], TextWrapperKeys, ListOnly, |TextWrapperKeys|);
  }

  /** Text that is JSON but neither a list nor an object is an error. */
  lemma TextJsonScalar(s: string, p: Parsers)
    requires p.json(s).Some? && !p.json(s).value.List? && !p.json(s).value.Map?
    ensures FromText(s, p) == Err(UnrecognisedJson)
  {
  }

  /** Text that is not JSON but evaluates as a literal list of command dicts,
      and passes the bracket or `dict(` test, is accepted first. */
  lemma LiteralCommandListFirst(s: string, p: Parsers, xs: seq<Value>)
    requires p.json(s).None? && LooksLikeLiteral(s) && p.literal(s) == Some(List(xs))
    requires forall i :: 0 <= i < |xs| ==> IsCommandDict(xs[i])
    ensures FromText(s, p) == Ok(xs)
  {
    assert LiteralList(p, s) == Some(xs);
    assert LiteralCommands(s, p) == Some(xs);
  }

  /** Without `dict(` in the text, any literal list is accepted in the end,
      whatever its elements: the check that every element is a command dict
      only decides whether the `dict(` rewrite is tried first. */
  lemma LiteralListWithoutDictNotation(s: string, p: Parsers, xs: seq<Value>)
    requires p.json(s).None? && !Contains(s, "dict(") && p.literal(s) == Some(List(xs))
    ensures FromText(s, p) == Ok(xs)
  {
  }

  /** `dict(` text that is not accepted as a literal list of command dicts is
      rewritten and decoded as JSON; a list found there wins over the last
      literal attempt. */
  lemma DictNotationRepaired(s: string, p: Parsers, ys: seq<Value>)
    requires p.json(s).None? && Contains(s, "dict(") && p.json(RepairDictText(s)) == Some(List(ys))
    requires !(p.literal(s).Some? && p.literal(s).value.List? &&
               forall i :: 0 <= i < |p.literal(s).value.items| ==> IsCommandDict(p.literal(s).value.items[i]))
    ensures FromText(s, p) == Ok(ys)
  {
  }

  /** Text input fails to parse exactly when it is not JSON, does not
      evaluate to a literal list, and the `dict(` rewrite, when tried, yields
      no list either. */
  lemma TextFailure(s: string, p: Parsers)
    ensures FromText(s, p) == Err(UnparseableText) <==>
              p.json(s).None? && LiteralList(p, s).None? &&
              (!Contains(s, "dict(") || FromRepaired(p.json(RepairDictText(s))).None?)
  {
  }

  /** Every list recovered from text comes from one of the attempts: the JSON
      list, a wrapped list, the object itself, a literal list, or the rewrite. */
  lemma TextInventsNothing(s: string, p: Parsers)
    requires FromText(s, p).Ok?
    ensures var xs := FromText(s, p).value;
            || p.json(s) == Some(List(xs))
            || (p.json(s).Some? && p.json(s).value.Map? &&
                (FirstUnder(p.json(s).value.entries, TextWrapperKeys, ListOnly) == Some(xs) || xs == [p.json(s).value]))
            || (p.json(s).None? && (LiteralList(p, s) == Some(xs) || FromRepaired(p.json(RepairDictText(s))) == Some(xs)))
  {
  }

  /** Dict input: the first of `commands_list`, `commands`, `command_list`,
      `batch`, `input`, `data` that holds a list, or text that decodes to one, wins. */
  lemma DictWrapperKey(m: map<string, Value>, p: Parsers, j: int)
    requires 0 <= j < |DictWrapperKeys| && NothingBefore(m, DictWrapperKeys, ListOrJsonText(p), j)
    requires DictWrapperKeys[j] in m && Picked(ListOrJsonText(p), m[DictWrapperKeys[j]]).Some?
    ensures FromDict(m, p) == Ok(Picked(ListOrJsonText(p), m[DictWrapperKeys[j]]).value)
  {
    FirstUnderIsFirst(m, DictWrapperKeys, ListOrJsonText(p), j);
  }

  /** Dict input with no wrapper key: the dict itself when it has both
      `command` and `params`; otherwise the value of a one-entry dict when that
      is a list or decodes to one; otherwise an error, with no command run. */
  lemma DictFallbacks(m: map<string, Value>, p: Parsers, k: string)
    requires NothingBefore(m, DictWrapperKeys, ListOrJsonText(p), |DictWrapperKeys|)
    ensures "command" in m && "params" in m ==> FromDict(m, p) == Ok([Map(m)])
    ensures !("command" in m && "params" in m) && |m| == 1 && k in m ==>
              (FromDict(m, p).Ok? <==> Picked(ListOrJsonText(p), m[k]).Some?) &&
              (FromDict(m, p).Ok? ==> FromDict(m, p).value == Picked(ListOrJsonText(p), m[k]).value)
    ensures !("command" in m && "params" in m) && |m| != 1 ==> FromDict(m, p) == Err(UnrecognisedDict)
  {
    FirstUnderIsFirst(m, DictWrapperKeys, ListOrJsonText(p), |DictWrapperKeys|);
    if |m| == 1 && k in m {
      OnlyValueAt(m, k);
    }
  }

  /** A dict input does look under `batch`. */
  lemma DictUsesBatchKey(p: Parsers, xs: seq<Value>)
    ensures FromDict(map["batch" := List(xs)], p) == Ok(xs)
  {
    var m := map["batch" := List(xs)];
    assert DictWrapperKeys[3] == "batch";
    DictWrapperKey(m, p, 3);
  }

  /** A list input is used as it is: recovering again from a recovered list
      gives the same list. */
  lemma RecoverIdempotent(input: Value, p: Parsers)
    requires !input.Null? && Recover(input, p).Ok?
    ensures Recover(List(Recover(input, p).value), p) == Recover(input, p)
  {
  }

  /** JSON text of a list recovers the same commands as the list itself. */
  lemma JsonTextSameAsList(s: string, p: Parsers, xs: seq<Value>)
    requires p.json(s) == Some(List(xs))
    ensures Recover(Str(s), p) == Recover(List(xs), p)
  {
  }

  /** A dict wrapping the list under `commands_list`, `commands` or
      `command_list` recovers the same commands as the list itself. */
  lemma WrappedSameAsList(key: string, xs: seq<Value>, p: Parsers)
    requires key in {"commands_list", "commands", "command_list"}
    ensures Recover(Map(map[key := List(xs)]), p) == Recover(List(xs), p)
  {
    var j := if key == "commands_list" then 0 else if key == "commands" then 1 else 2;
    assert DictWrapperKeys[j] == key;
    DictWrapperKey(map[key := List(xs)], p, j);
  }

  /** An input that is neither a list, text nor a dict recovers nothing. */
  lemma OtherInputsRefused(input: Value, p: Parsers)
    requires input.Bool? || input.Num?
    ensures Recover(input, p) == Err(NotAList)
  {
  }
}
