# Command pipeline of the Unreal Engine crew tools, in Dafny

This project models the two tools in `Python/unreal_crew.py` that turn a language model's output into commands for the Unreal Engine MCP server.

- **`execute_mcp_command`** runs one named command:
  - it normalises the parameter argument (absent, dict, JSON text, or anything else);
  - it checks a fixed table of required parameters for `create_blueprint`, `spawn_actor` and `add_component_to_blueprint`;
  - it looks up the connection and calls `send_command`;
  - it turns the reply, or the exception, into a status dictionary.
- **`execute_mcp_command_batch`** runs a whole batch:
  - it recovers a command list from input of unknown shape (a list, JSON text, Python-literal or `dict(...)` text, or a dict that wraps the list);
  - it runs every item in order through `execute_mcp_command`;
  - it collects one result entry per item. A malformed item becomes an error entry in its own place and does not stop the batch.

Files and modules:

| file | module | contents |
|---|---|---|
| `values.dfy` | `Values` | Python values as they reach the pipeline, Python truthiness, `str.strip`, the `in` test on strings, and the two injected text parsers |
| `remote.dfy` | `Remote` | The engine connection: a class whose `SendCommand` appends to a log of received commands and answers through a reply function |
| `command.dfy` | `Command` | `execute_mcp_command` |
| `repair.dfy` | `Repair` | The textual rewrite of `dict(...)` notation at lines 316–322, and the same rewrite as evidently intended (see "## Findings") |
| `extract.dfy` | `Extract` | Recovering the command list (lines 185–440) |
| `batch.dfy` | `Batch` | The execution loop and `execute_mcp_command_batch` as a whole |

How the model is built:

- **Methods proved against functions.** Each step of the tools is a method written the way the source works: early returns, `for … break` scans over key lists, and the result list built by appending in an indexed loop. Each method is proved equal to a specification function:
  - `ExecuteCommand` is proved against `CommandResult`;
  - `RecoverCommands` against `Recover`;
  - `ExecuteBatch` against `Batch`.

  The lemmas state what those functions promise.
- **Injected parsers.** `json.loads` and `ast.literal_eval` are the two fields of `Parsers`. Each is a function from text to `Option<Value>`, and `None` stands for "raises".
- **The engine as a connection object.** The engine is a `Connection` with a reply function, `respond`, and a log of received commands, `received`. The reply may depend on every earlier command, because the scene is stateful. The log is what "no command was sent" is stated against.
- **Connection lookup.** `get_unreal_connection()` becomes the `conn` argument, and `null` stands for no connection.
- **Results as datatypes.** A single call ends in an `Outcome`: either an `Envelope`, which is the dictionary the tool serialises, or a raised exception. Each batch item yields an `Entry`.

Behaviour of the code worth noting:

- **Dict replies.** A dict reply from the engine is passed through unchanged, with no `status` key added (lines 134–138).
- **Item parameters.** Items carry their parameters under `params` (line 452). An item written with `parameters` runs with `{}` (`Batch.ParametersKeyIgnored`).
- **Wrapper keys for text.** JSON text looks under `commands_list`, `commands`, `command_list`, `input` and `data`, but not `batch` (line 254). Dict input does look under `batch` (line 382).
- **Text recovery.** Text is tried with `json.loads`, then with `ast.literal_eval`, then with `json.loads` on the textual `dict(` rewrite, and with nothing else. Text in a Markdown code fence or surrounded by prose is not recovered.
- **Single-command dicts.** A dict input is taken as a single command only when it has both `command` and `params` (line 405).
- **Exceptions from a single call.** `execute_mcp_command` can raise. When JSON parameter text decodes to something other than a dict, the required-parameter test (line 119) can raise `TypeError`, and nothing catches it there (`Command.NonDictParamsRaise`). Inside the batch this never happens, because items always run with dict parameters (`Batch.ItemsIsolated`).
- **Failure answers.** Failures are not one uniform envelope. Text that cannot be parsed yields an error object. Dict input that cannot be used yields a plain error string (line 428). Any other input yields a different plain string (line 437). `Extract.Failure` keeps these apart.
- **`None` input.** `None` input gives the empty result list `[]` (line 207).

## Model

| member | source | states |
|---|---|---|
| Values.StripEmptyIffBlank | Python/unreal_crew.py:87 | `str.strip()` is empty exactly when every character is Python whitespace |
| Values.ContainsIffOccurs | Python/unreal_crew.py:286 | The `in` test on strings holds exactly when the text has a copy of the pattern at some position |
| Command.ParamsNormalisation | Python/unreal_crew.py:83-102 | A falsy or blank argument means `{}`; a dict is used unchanged; other text is JSON-decoded, and text that does not decode is an error; a truthy list, bool or number is an error |
| Command.NormaliseArgument | Python/unreal_crew.py:83-102 | The step-by-step normalisation returns what `NormaliseParams` specifies |
| Command.KeyCheck | Python/unreal_crew.py:119 | One key's test: on a dict, absent exactly when the key is missing or its value falsy; on a list or a string, `in` tests membership or a substring and the index raises; on anything else `in` raises. Stated by `Command.MapNeverFaults` and `Command.AllPresentIffComplete` for dicts, `Command.ContainerParams` for lists and strings, and `Command.NonDictParamsRaise` for the rest |
| Command.Prepare | Python/unreal_crew.py:83-122 | Everything before the connection lookup: normalisation, then the required-parameter loop. Stated by `Command.RequiredParamsRefusal`, `Command.UnlistedCommandSkipsValidation` and `Command.NonDictParamsRaise` |
| Command.Wrap | Python/unreal_crew.py:131-146 | The envelope made of the engine's reply or exception. Stated by `Command.ResponseEnvelopes` |
| Command.RequiredParamsTable | Python/unreal_crew.py:105-115 | Exactly the three listed command kinds have required parameters, and no required key is empty |
| Command.FirstMissingIsFirstAbsent | Python/unreal_crew.py:117-122 | The check reports key `j` exactly when it is missing or falsy and every earlier required key passed |
| Command.FirstMissingReportsRequiredKey | Python/unreal_crew.py:117-122 | A reported key is one of the required keys, it is absent, and every key before it passed |
| Command.AllPresentIffComplete | Python/unreal_crew.py:117-122 | With dict parameters the check passes exactly when every required key is present and truthy |
| Command.MapNeverFaults | Python/unreal_crew.py:119 | The membership-and-index test never raises on dict parameters |
| Command.CheckRequired | Python/unreal_crew.py:117-122 | The loop that stops at the first missing key computes `FirstMissing` |
| Command.RequiredParamsRefusal | Python/unreal_crew.py:104-122 | With dict parameters, the call is refused naming key `j` exactly when that key is the first missing or falsy one; the call is ready exactly when all keys are present and truthy |
| Command.UnlistedCommandSkipsValidation | Python/unreal_crew.py:105-118 | Any other command name goes on once its argument normalises, whatever the parameters hold |
| Command.NonDictParamsRaise | Python/unreal_crew.py:86-88 | JSON parameter text that decodes to `null`, a bool or a number makes the check of a listed command raise `TypeError` (the check is at lines 117-119) |
| Command.ContainerParams | Python/unreal_crew.py:86-122 | Parameter text that decodes to a list or a string makes a listed command raise `TypeError` when the first required key is an element or a substring, and be refused naming that key otherwise |
| Command.ResponseEnvelopes | Python/unreal_crew.py:129-146 | A `None` reply gives `status: error`; a dict reply is returned unchanged; any other reply gives `{status: unknown, raw_response}`; an exception gives `{status, command, error, details}` with `status: error` |
| Command.SendsOnlyWhenReady | Python/unreal_crew.py:104-130 | A refused argument or parameter set, or a missing connection, sends nothing; otherwise exactly the prepared command is sent, once |
| Command.DictParamsNeverRaise | Python/unreal_crew.py:83-146 | With dict parameters the call never raises; every failure, an engine exception included, comes back as an envelope |
| Command.ExecuteCommand | Python/unreal_crew.py:45-150 | The tool returns what `CommandResult` specifies, and the engine's log grows by exactly the commands `CommandResult` sends |
| Remote.Connection.SendCommand | Python/unreal_crew.py:130 | `send_command` appends the command to the engine's log and answers what the reply function gives for the earlier log |
| Repair.ReplaceAll | Python/unreal_crew.py:316 | `str.replace`, left to right and non-overlapping. Stated by `Repair.ReplaceCharPointwise`, `Repair.ReplaceAllShrinks` and `Repair.ReplaceAllKeepsOut` |
| Repair.ReplaceCharPointwise | Python/unreal_crew.py:316 | Replacing one character by another rewrites each position on its own and keeps the length |
| Repair.ReplaceAllShrinks | Python/unreal_crew.py:316 | `str.replace` with a replacement no longer than the pattern never lengthens the text |
| Repair.ReplaceAllKeepsOut | Python/unreal_crew.py:321 | `str.replace` introduces no character that is in neither the text nor the replacement |
| Repair.CommaMatch | Python/unreal_crew.py:318 | The match of `,\\s*}` at the start of the text has length `n` exactly when the text starts with a comma, a backslash, `n - 3` letters `s` and a closing brace |
| Repair.SubCommaBrace | Python/unreal_crew.py:318 | `re.sub` of `,\\s*}` by `}`, left to right over the matches `Repair.CommaMatch` characterises. Stated by `Repair.SubCommaBraceNeedsBackslash` and `Repair.SubCommaBraceShrinks` |
| Repair.SubCommaBraceNeedsBackslash | Python/unreal_crew.py:318 | The substitution changes nothing in text without a backslash |
| Repair.TrailingCommaKept | Python/unreal_crew.py:318 | A trailing comma before `}` is not removed by the pattern as written |
| Repair.BackslashFormRemoved | Python/unreal_crew.py:318 | What the pattern does remove: comma, backslash, letters `s`, brace |
| Repair.SubCommaBraceShrinks | Python/unreal_crew.py:318 | The substitution never lengthens the text and adds no character other than `}` |
| Repair.RepairDictText | Python/unreal_crew.py:315-322 | The four rewrites in the source's order. Stated by `Repair.RepairDictTextShape` and `Repair.DictKeywordsStayBare` |
| Repair.RepairDictTextShape | Python/unreal_crew.py:315-322 | The rewritten text has no `)` and no `'`, and is no longer than the input |
| Repair.DictKeywordsStayBare | Python/unreal_crew.py:315-322 | The documented text form `[dict(K=V, E=dict())]` is rewritten to `[{K=V, E={}}]`: the keyword names stay bare before `=`, which is not JSON |
| Repair.RepairDictTextIntended | Python/unreal_crew.py:315-322 | The rewrite as evidently intended: the written steps with the keyword names quoted. Stated by `Repair.DictKeywordsQuoted` and `Repair.RepairIntendedWithoutEquals` |
| Repair.QuoteKeywordsWithoutEquals | Python/unreal_crew.py:315-322 | Quoting keyword names changes nothing in text without `=` |
| Repair.RepairIntendedWithoutEquals | Python/unreal_crew.py:315-322 | On text without `=` the intended rewrite is the written one |
| Repair.DictKeywordsQuoted | Python/unreal_crew.py:315-326 | The intended rewrite turns `[dict(K=V, E=dict())]` into the JSON text `[{"K": V, "E": {}}]` |
| Extract.LooksLikeLiteral | Python/unreal_crew.py:286-287 | The guard before `ast.literal_eval`: `dict(`, `[` and `]` all occur, or the stripped text starts with `[` and ends with `]`. Stated by `Extract.LiteralCommandListFirst` and `Extract.TextFailure` |
| Extract.FirstUnderIsFirst | Python/unreal_crew.py:383-400 | The key scan answers the value under the first acceptable key, and finds nothing exactly when no key is acceptable |
| Extract.FindUnder | Python/unreal_crew.py:254-258 | The `for key in keys … break` scan computes `FirstUnder` |
| Extract.AllCommandDicts | Python/unreal_crew.py:294-299 | The check loop answers true exactly when every element is a dict with `command` |
| Extract.TryLiteralCommands | Python/unreal_crew.py:286-310 | The first attempt on non-JSON text computes `LiteralCommands` |
| Extract.TryRepaired | Python/unreal_crew.py:313-349 | The `dict(` rewrite attempt computes `FromRepaired` of the repaired text's decoding |
| Extract.RecoverAfterJsonFailure | Python/unreal_crew.py:278-370 | The three repair attempts, in order, compute `AfterJsonFailure` |
| Extract.RecoverFromText | Python/unreal_crew.py:215-270 | The text branch computes `FromText` |
| Extract.OnlyValueAt | Python/unreal_crew.py:409-410 | The value of a one-entry dict is the value under its only key |
| Extract.RecoverFromDict | Python/unreal_crew.py:378-428 | The dict branch computes `FromDict` |
| Extract.RecoverCommands | Python/unreal_crew.py:209-216 | The input dispatch computes `Recover` (the other branches are at lines 378 and 432-437) |
| Extract.TextJsonObject | Python/unreal_crew.py:252-270 | JSON object text gives the list under the first wrapper key that holds one; failing that, the object itself exactly when it has `command`; failing both, an error |
| Extract.TextIgnoresBatchKey | Python/unreal_crew.py:254 | JSON text never looks under `batch` |
| Extract.TextJsonScalar | Python/unreal_crew.py:226-270 | JSON text that is neither a list nor an object is an error |
| Extract.LiteralCommandListFirst | Python/unreal_crew.py:284-302 | Non-JSON text that passes the bracket or `dict(` test and evaluates to a list of command dicts is accepted as it is |
| Extract.LiteralListWithoutDictNotation | Python/unreal_crew.py:351-358 | Without `dict(`, any literal list is accepted in the end, whatever its elements |
| Extract.DictNotationRepaired | Python/unreal_crew.py:312-330 | `dict(` text whose literal evaluation is not a list of command dicts is rewritten, and a JSON list in the rewrite wins |
| Extract.TextFailure | Python/unreal_crew.py:272-370 | Text fails exactly when it is not JSON, is not a literal list, and the rewrite, when tried, yields no list |
| Extract.TextInventsNothing | Python/unreal_crew.py:223-370 | Every list recovered from text comes from one of the attempts: the JSON list, a wrapped list, the object itself, a literal list, or the rewrite |
| Extract.DictWrapperKey | Python/unreal_crew.py:380-403 | Dict input uses the first of the six wrapper keys that holds a list or text that decodes to a list |
| Extract.DictFallbacks | Python/unreal_crew.py:404-428 | Without a wrapper key: the dict itself if it has `command` and `params`; else the only value of a one-entry dict if it is or decodes to a list; else an error |
| Extract.DictUsesBatchKey | Python/unreal_crew.py:382 | Dict input does look under `batch` |
| Extract.RecoverIdempotent | Python/unreal_crew.py:212-214 | A recovered list given back as input recovers to itself |
| Extract.JsonTextSameAsList | Python/unreal_crew.py:224-229 | JSON text of a list recovers the same commands as the list |
| Extract.WrappedSameAsList | Python/unreal_crew.py:382-387 | A dict wrapping the list under one of the first three keys recovers the same commands as the list |
| Extract.OtherInputsRefused | Python/unreal_crew.py:432-437 | A bool or a number recovers nothing |
| Batch.ItemCommand | Python/unreal_crew.py:448-471 | How the loop reads one item. Stated by `Batch.ItemShapes` |
| Batch.ItemShapes | Python/unreal_crew.py:448-468 | A dict item runs when its `command` is a non-empty string, with its `params` if they are a dict and `{}` otherwise; a non-empty string runs as a command with `{}`; anything else is malformed |
| Batch.RunOneMore | Python/unreal_crew.py:445-497 | One more iteration appends that item's entry and the commands it sends |
| Batch.EntriesOneMore | Python/unreal_crew.py:445-497 | The batch after one more item appends that item's entry and commands |
| Batch.RunAligned | Python/unreal_crew.py:445-497 | One entry per item, in item order: entry `i` is item `i`'s result, run after every command the earlier items sent |
| Batch.RunCallsBounded | Python/unreal_crew.py:445-497 | A step that sends at most one command makes the loop send at most one per item |
| Batch.RunSilent | Python/unreal_crew.py:445-497 | A step that sends nothing makes the loop send nothing |
| Batch.EntriesAligned | Python/unreal_crew.py:445-497 | The batch has exactly one entry per item, and entry `i` is item `i`'s own result |
| Batch.ItemsIsolated | Python/unreal_crew.py:448-497 | An entry is an index error exactly when its item is malformed, and then it carries the item's own index; no entry records a raised exception |
| Batch.ItemSends | Python/unreal_crew.py:473-475 | An item sends exactly when it is runnable, passes the required-parameter check and there is a connection; it sends its own command and parameters, once |
| Batch.ParametersKeyIgnored | Python/unreal_crew.py:452 | A `create_blueprint` item with its parameters under `parameters` is refused for `name` and sends nothing |
| Batch.AtMostOneCallPerItem | Python/unreal_crew.py:445-497 | The batch sends at most one command per item |
| Batch.ItemWithoutConnection | Python/unreal_crew.py:124-127 | Without a connection an item sends nothing, and a runnable item's entry is the connection error or a missing-parameter error |
| Batch.NoConnectionBatch | Python/unreal_crew.py:445-497 | Without a connection the batch sends nothing and keeps one entry per item, each runnable one being the connection error or a missing-parameter error |
| Batch.BatchOutcomes | Python/unreal_crew.py:205-442 | `None` gives `[]` (lines 205-207); an unrecoverable input gives its failure (lines 270, 370, 428 and 437); an empty list gives exactly one warning (lines 440-442); none of these sends a command; otherwise there is one entry per recovered item |
| Batch.EquivalentInputs | Python/unreal_crew.py:224-229 | JSON text of a list, and a dict wrapping it, give the same answer and send the same commands as the list itself |
| Batch.RunItem | Python/unreal_crew.py:446-497 | One loop pass returns item `i`'s entry and adds exactly that item's commands to the engine's log |
| Batch.RunItems | Python/unreal_crew.py:444-501 | The loop returns `Entries` of the items, and the engine's log grows by exactly the commands `Entries` sends |
| Batch.ExecuteBatch | Python/unreal_crew.py:153-504 | The tool answers what `Batch` specifies, and the engine's log grows by exactly the commands `Batch` sends |

## Findings

| source | as written | input that shows it | evidently intended | confidence | as-written member | corrected member |
|---|---|---|---|---|---|---|
| Python/unreal_crew.py:315-326 | The `dict(` rewrite replaces `dict(` by `{` and `)` by `}` but leaves the keyword names bare, so `name=value` stays as it is and `json.loads` fails on the result. `ast.literal_eval` rejects call syntax too, so the text form in the tool's own documentation (lines 160-161 and 176) is never recovered and the tool answers with the unparseable-text error | `[dict(command="get_actors_in_level", params=dict())]`, rewritten to `[{command="get_actors_in_level", params={}}]` | The keyword names become quoted JSON keys: `[{"command": "get_actors_in_level", "params": {}}]` | high; not executed | Repair.DictKeywordsStayBare | Repair.DictKeywordsQuoted |

The recovery functions in `Extract` use the rewrite as written, `Repair.RepairDictText`, so that they describe what the tool does. `Repair.RepairDictTextIntended` is the corrected rewrite. `Repair.RepairIntendedWithoutEquals` shows that it differs only on text holding `=`.

## Left out

- Recovering `None` input from interpreter stack frames (lines 190–203) is runtime introspection. Only its failing outcome is modelled: the input stays `None` and the answer is `[]`.
- Logging, `print`, the wording of every message, and traceback text. `ToJson` keeps the keys and status of each dictionary, and the engine's exception message stands in for the traceback under `details`.
- `json.loads`, `json.dumps` and `ast.literal_eval` are not modelled internally. The two parsers are injected functions.
- `json.dumps` of a single call's envelope followed by `json.loads` in the batch (lines 477–480) is taken as the identity. The decode-failure branch at lines 487–490 is then unreachable and is not modelled.
- The catch-all handlers at lines 364 and 371–376 are not modelled. They catch exceptions the injected parsers cannot raise (for example a recursion error inside a parser).
- The `elif` branches at lines 233 and 339 repeat an earlier `isinstance` test and can never run, so they are not modelled.
- The final check at lines 432–437 is not modelled as a separate check, because every branch that recovers something recovers a list. Its answer is the `NotAList` failure for input that is neither a list, text nor a dict.
- Values are limited to `None`, bool, number, text, list and dict with text keys. Numbers are reals, and other Python types are not modelled.
- Batch.RunItem: the batch calls `execute_mcp_command` through its CrewAI `@tool` wrapper, with keyword arguments (line 477). The model assumes that this call runs the plain function and returns its string. CrewAI is not part of this model. If the wrapper does not forward the call, the handler at lines 492–497 gives every runnable item an error entry and nothing is sent.
- Batch.RunItems: one connection-lookup result stands for every item's lookup. The source calls `get_unreal_connection()` once per item, inside each `execute_mcp_command` call (lines 124 and 477), so one item can find a connection and the next find none. `Batch.NoConnectionBatch` and `Batch.EquivalentInputs` are stated for a lookup that gives the same answer throughout the batch.
- The lookup `get_unreal_connection` is an argument, so the model cannot say that the lookup itself is skipped when validation fails. It states instead that nothing is sent and that the outcome does not depend on the connection.
- The CrewAI tool wrappers (`@tool`, apart from the call through one noted above), the agent, task and crew definitions, `process_unreal_prompt`, `extract_mcp_results`, `get_available_commands` and `__main__` are outside the command pipeline.
- `Python/ollama_mcp_bridge.py`, `Python/CrewAI.py` and the engine plugin's C++ declarations are not part of this model.
