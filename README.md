# Command registry of Skill Mill, modelled in Dafny

Skill Mill exposes each skill as a set of *commands*. A command is a
`SkillCommand`: a name, a category (`CommandType`) and a list of declared
parameters (`CommandParameter`). Each parameter has a type tag, a required
flag and optional constraints: choices, a numeric range, a length range and
a regular-expression pattern. A `CommandRegistry` stores command definitions
together with their handler functions. It executes a command by looking it
up, validating the caller's argument map against the declared parameters,
and calling the handler. Every failure along the way becomes a failed
`CommandResult` instead of an exception. Outcomes are kept in an
append-only execution log. The registry can list its commands, show a
window of the log, and summarise one command's executions.

The project has six modules, one per file:

- `values.dfy` (`Values`): the Python values that flow through the
  registry. It covers `params.get`, `isinstance` (a `bool` is an `int`),
  `type(v).__name__` and Python's `==` across `int`, `float` and `bool`.
- `schema.dfy` (`Schema`): parameter and command definitions, and what
  validation records for one parameter. It also gives a reference
  predicate `Satisfies` that states the constraints without regard to the
  order of the checks.
- `validation.dfy` (`Validation`): `validate_parameters` as a loop over the
  parameters, proved against the fold `ParamErrors`, with lemmas about the
  resulting error map.
- `name_order.dfy` (`NameOrder`): Python's `<` on strings and the sorted
  list of a set of names (used by `list_commands`).
- `execution_log.dfy` (`ExecutionLog`): `CommandResult`, the log view
  (`log[-limit:]`, then the name filter) and the per-command statistics.
- `registry.dfy` (`Registry`): the `CommandRegistry` class, whose fields
  `commands`, `handlers` and `log` its methods update in place.

The following become parameters:

- The regular-expression engine is a `Matcher` function parameter.
- The clock readings that `execute` takes (elapsed seconds and the
  timestamp) are parameters of `Execute`.
- A handler is a function from the argument map to a `HandlerOutcome`:
  the value it returns, or the message of the exception it raises.

Where the source raises, the model returns a value:

- `register` raising `ValueError` on a duplicate name becomes
  `Some(AlreadyRegistered(name))`, and the registry is left unchanged.
- The message strings become datatypes: `ParamError` for the validator and
  `Failure` for `execute`. These keep which failure occurred and its data.

## Model

| member | source | states |
|---|---|---|
| Values.Lookup | core/command_system.py:63 | the looked-up value is `None` exactly when the key is absent or maps to `None`; otherwise it is the stored value |
| Values.IsInstance | core/command_system.py:83 | definition of `isinstance` for the six classes, with `bool` a subclass of `int`; described by `Schema.TypeCheckQuirks` |
| Values.TypeName | core/command_system.py:84 | definition of `type(v).__name__`; used in the type error that `Schema.WrongTypeIff` states |
| Values.PyEq | core/command_system.py:88 | definition of Python `==` on the modelled values; described by `Values.PyEqReflexive` and `Values.PyInContains` |
| Values.PyIn | core/command_system.py:88 | definition of `v in choices` over Python `==`; described by `Values.PyInContains` |
| Values.PyEqReflexive | core/command_system.py:88 | Python equality is reflexive on every modelled value, including nested lists and dicts |
| Values.PyInContains | core/command_system.py:88 | plain membership implies `in`; `1 in [1.0]` and `True in [1]` hold; `"1" in [1]` does not |
| Schema.ExpectedClass | core/command_system.py:74-81 | the type table knows exactly the six tags str, int, float, bool, dict, list |
| Schema.TypeCheckQuirks | core/command_system.py:74-85 | a boolean passes "int", an integer fails "float" and "bool", and an unknown tag accepts every value |
| Schema.NumericTagHoldsNumber | core/command_system.py:92-97 | after a passing type check an "int"/"float" parameter holds a number, so the range comparisons are defined |
| Schema.StringTagHoldsString | core/command_system.py:100-110 | after a passing type check a "str" parameter holds a string, so `len` and `re.match` are defined |
| Schema.LastFailing | core/command_system.py:87-110 | the position of the last failing check: that check fails and every later one passes; -1 only when none fails |
| Schema.LastFailure | core/command_system.py:87-110 | some error is kept iff some check fails, and it is the error of a failing check after which every check passes |
| Schema.LastFailureOfSix | core/command_system.py:87-110 | with the six constraint checks, the kept error is that of the pattern, else max length, else min length, else max value, else min value, else choices |
| Schema.CheckParam | core/command_system.py:63-110 | definition of one parameter's checks (missing, absent, type, then the last failing constraint); described by `Schema.CheckParamNoneIff`, `Schema.MissingIff`, `Schema.AbsentOptionalPasses`, `Schema.WrongTypeIff` and the "wins" lemmas |
| Schema.CheckParamNoneIff | core/command_system.py:62-110 | a parameter gets no error iff its value satisfies every declared constraint (reference predicate `Satisfies`) |
| Schema.MissingIff | core/command_system.py:66-68 | "missing" is recorded iff the parameter is required and its value is absent or `None` |
| Schema.AbsentOptionalPasses | core/command_system.py:70-71 | an absent optional parameter records nothing |
| Schema.WrongTypeIff | core/command_system.py:83-85 | a type error is recorded iff a present value fails the type check, and it then names the tag and the value's type name |
| Schema.UnknownTagOnlyChoices | core/command_system.py:74-89 | with an unknown tag only the choices check can fail |
| Schema.MaximumWins | core/command_system.py:92-97 | a value above the maximum is reported as such whatever the choices and minimum checks found |
| Schema.MinimumWinsOverChoice | core/command_system.py:88-97 | a value below the minimum and not above the maximum is reported as below the minimum, even when it is also not a choice |
| Schema.PatternWins | core/command_system.py:100-110 | a string that fails a non-empty pattern is reported as a pattern mismatch whatever the length and choices checks found |
| Schema.MaxLengthWins | core/command_system.py:100-105 | a too-long string whose pattern holds is reported as too long whatever the choices and minimum length found |
| Schema.ChoiceErrorIff | core/command_system.py:88-110 | the choices error survives iff the choices check fails and every later check passes |
| Schema.EmptyConstraintsDisabled | core/command_system.py:88 | an empty choices list or an empty pattern disables that check |
| Validation.ParamErrors | core/command_system.py:58-112 | definition of `validate_parameters` as a fold over the parameters; described by `Validation.ValidateKeys`, `Validation.ValidateHasEntry`, `Validation.ValidateEntry`, `Validation.ValidateLocal` and `Validation.ValidateEmptyIff` |
| Validation.ValidateParameters | core/command_system.py:58-112 | the loop over the declared parameters returns exactly the fold `ParamErrors` of the per-parameter outcomes |
| Validation.RecordConstraintFailures | core/command_system.py:87-110 | the sequence of overwriting assignments leaves the last failing check's error under the parameter's name, or the map unchanged |
| Validation.ValidateStep | core/command_system.py:62-111 | proof helper: one-step expansion of the fold `ParamErrors` (the last parameter either writes its error under its name or leaves the map as it was) |
| Validation.ValidateKeys | core/command_system.py:58-112 | every key of the error map is the name of a declared parameter |
| Validation.ValidateHasEntry | core/command_system.py:58-112 | a name has an error entry iff some declared parameter of that name fails |
| Validation.ValidateEntry | core/command_system.py:58-112 | the entry under a name is the error of the last failing parameter of that name |
| Validation.ValidateEachParam | core/command_system.py:58-112 | with distinct names, each parameter's entry is exactly what checking it alone records |
| Validation.ValidateLocal | core/command_system.py:63 | an entry depends only on the argument under that name |
| Validation.ValidateEmptyIff | core/command_system.py:58-112 | validation finds nothing iff every declared parameter satisfies its schema |
| NameOrder.LessIrreflexive | core/command_system.py:200 | no name sorts before itself |
| NameOrder.LessAsymmetric | core/command_system.py:200 | two names never sort before each other |
| NameOrder.LessTransitive | core/command_system.py:200 | the string order is transitive |
| NameOrder.LessTotal | core/command_system.py:200 | any two distinct names are ordered |
| NameOrder.LeastExists | core/command_system.py:200 | every non-empty set of names has a least element |
| NameOrder.LeastUnique | core/command_system.py:200 | the least element is unique |
| NameOrder.SortedNames | core/command_system.py:200 | the sorted listing has exactly the set's names, once each, in strictly increasing order |
| ExecutionLog.Named | core/command_system.py:211 | the name filter keeps only entries of that name and is no longer than the log |
| ExecutionLog.WithStatus | core/command_system.py:222-223 | the status filter keeps only entries of that status and is no longer than its input |
| ExecutionLog.NamedMembers | core/command_system.py:211 | an entry is kept by the name filter iff it is in the log under that name |
| ExecutionLog.NamedAppend | core/command_system.py:211 | the name filter keeps log order: it distributes over concatenation |
| ExecutionLog.WithStatusAppend | core/command_system.py:222-223 | the status filter distributes over concatenation |
| ExecutionLog.StatusPartition | core/command_system.py:222-223 | over completed and failed entries only, the two counts add up to the number of entries |
| ExecutionLog.SliceStart | core/command_system.py:208 | the start of a Python slice `s[start:]` always lies within the sequence |
| ExecutionLog.Recent | core/command_system.py:208 | `log[-limit:]`: the last `limit` entries for a positive limit, the whole log for 0, the log without its first `-limit` entries for a negative limit |
| ExecutionLog.ExecutionLogView | core/command_system.py:202-213 | with no name (or an empty one) the view is the recent window; with a name it is the window filtered by that name, in log order, so its entries are exactly the window's entries of that name; a positive limit bounds its length |
| ExecutionLog.ViewFromLog | core/command_system.py:202-213 | every entry of the view is an entry of the log |
| ExecutionLog.FilterAfterTruncation | core/command_system.py:208-211 | truncation happens before filtering: an older entry of the requested name is dropped even when the window has room for it |
| ExecutionLog.LimitEdges | core/command_system.py:208 | a limit of 1 yields just the latest outcome and a limit of 0 yields the whole log |
| ExecutionLog.TotalTime | core/command_system.py:230 | definition of the sum of execution times, divided by the count for the average in `ExecutionLog.CommandStats` |
| ExecutionLog.CommandStats | core/command_system.py:215-232 | "no executions" iff the log has no entry of that name; otherwise the total, successes, failures and rate are the counts of the filtered log, and the rate lies in [0, 1] |
| ExecutionLog.NamedLast | core/command_system.py:231 | the last filtered entry is the log's last entry of that name |
| ExecutionLog.LastExecutionIsLatest | core/command_system.py:231 | the reported last execution is the timestamp of the most recent logged outcome of that command |
| ExecutionLog.StatsBalanced | core/command_system.py:222-228 | when only completed and failed outcomes are logged, successes plus failures equal the total |
| ExecutionLog.NamedAfterAppend | core/command_system.py:188-189 | logging an outcome appends it to its command's filtered log and adds one to the count of its status |
| ExecutionLog.StatsAfterAppend | core/command_system.py:215-232 | logging an outcome adds one to its command's total, one to successes iff it completed, one to failures iff it failed, and makes its timestamp the last execution |
| ExecutionLog.StatsOfOthersUnchanged | core/command_system.py:215-232 | logging an outcome leaves every other command's statistics unchanged |
| ExecutionLog.NamedAll | core/command_system.py:217 | a log of one command's outcomes is its own filtered view |
| ExecutionLog.StatsOfThree | core/command_system.py:222-229 | completed, failed, completed gives a total of 3, 2 successes, 1 failure and a rate of 2/3 |
| Registry.Metadata | core/command_system.py:174 | every outcome's metadata is exactly `{"parameters": params}` |
| Registry.SortedCommands | core/command_system.py:193-200 | definition of `list_commands` on the stored map; described by `Registry.ListedIff` and `Registry.SortedCommandsOrdered` |
| Registry.SortedCommandsOrdered | core/command_system.py:193-200 | when each command is stored under its own name, the listing is strictly increasing by name |
| Registry.ListedIff | core/command_system.py:193-200 | a command is listed iff it is stored and matches the category filter |
| Registry.CommandRegistry.constructor | core/command_system.py:127-130 | a new registry has no commands, no handlers and an empty log |
| Registry.CommandRegistry.Register | core/command_system.py:132-138 | a taken name is refused and nothing changes; otherwise exactly the command and its handler are added under its name; the log never changes |
| Registry.CommandRegistry.GetCommand | core/command_system.py:140-142 | the stored definition iff the name is registered, and its name is the requested one |
| Registry.CommandRegistry.Execute | core/command_system.py:144-191 | completes iff the command exists, validation finds nothing and the handler returns; otherwise fails with an unknown-command, validation or handler error; the outcome is appended to the log iff logging is requested; commands and handlers never change |
| Registry.CommandRegistry.ListCommands | core/command_system.py:193-200 | lists exactly the stored commands of the category, strictly increasing by name in a valid registry |
| Registry.CommandRegistry.GetExecutionLog | core/command_system.py:202-213 | at most `limit` entries for a positive limit, all from the log, all of the requested command when a name is given, all completed or failed |
| Registry.CommandRegistry.GetCommandStats | core/command_system.py:215-232 | "no executions" iff the command was never logged; successes plus failures equal the total in a valid registry |
| Registry.CountBelowRange | core/command_system.py:92-94 | an integer 0 for a required "int" parameter in [1, 10] records exactly "below the minimum" |
| Registry.CountInRange | core/command_system.py:58-112 | an integer 5 for the same parameter records nothing |
| Registry.RegistrationScenario | core/command_system.py:132-191 | registering "tally" twice refuses the second with an already-registered error, and executing an unknown name fails with an unknown-command error and no result |
| Registry.BelowRangeScenario | core/command_system.py:144-186 | executing "tally" with count 0 fails with exactly the below-minimum validation error and no result |
| Registry.InRangeScenario | core/command_system.py:144-175 | executing "tally" with count 5 completes with the handler's "ok" and no error |
| Registry.TallyRegistry | core/command_system.py:132-138 | registering one command into a new registry stores it and its handler under its name and leaves the log empty |

## Left out

- Documentation generation (`generate_documentation`, lines 234-294) is not modelled: it only formats text.
- The module-level singleton registry and its wrappers (lines 296-309) are not modelled: they only forward to one shared instance.
- The exact text of error messages (`Must be one of ...`, `Unknown command: ...`) is not modelled. The datatypes `ParamError` and `Failure` carry the same information.
- Floating point is modelled as exact reals. The execution time, average time and success rate have no rounding, NaN or infinity.
- Clock reads (`datetime.utcnow()`) are not modelled: elapsed time and timestamp are parameters of `Execute`, and a timestamp is a natural number rather than an ISO string.
- Regular-expression matching is the `Matcher` parameter.
- An invalid pattern makes `re.match` raise, and `execute` would then report a failed outcome. This is not modelled; the matcher always answers.
- Handlers are assumed to terminate, to raise only subclasses of `Exception`, and not to touch the registry. A handler that never returns would block `execute` forever, since there is no timeout.
- `KeyboardInterrupt` and `SystemExit` are not caught by `except Exception` (line 177): they escape `execute` and nothing is logged. This is not modelled.
- A handler that re-enters the registry (through `execute_command` or `register`, lines 296-309) would log its own outcomes before the outer one, or add commands. `Execute`'s promises that the log grows by exactly its outcome and that the commands do not change hold only for handlers that do neither.
- Only ordinary exceptions fold into `Raised`, including the `TypeError` raised when `**parameters` does not match the handler's signature.
- The registry stores the caller's `SkillCommand` object (line 137), and it logs the same `CommandResult` object it returns (lines 189, 191). A later change by the caller to either object shows through in the source. The model stores values, so it does not capture this aliasing.
- The metadata of an outcome holds a copy of the argument map. Aliasing of the caller's dict is not modelled.
- Pydantic field coercion when `CommandParameter`, `SkillCommand` and `CommandResult` are constructed is not modelled: fields hold the values given.
- Dict keys are strings only. Values are limited to None, str, int, float, bool, dict and list; other Python objects (tuples, sets, custom classes) are not modelled.
- Registry.CommandRegistry.ListCommands: the listing is ordered by the names the commands are stored under, not by `c.name`. The two coincide in a valid registry, and ordering is stated only there.
- Registry.CommandRegistry.GetCommandStats: the average execution time is computed but no property is stated about it beyond its definition.
