/** `CommandRegistry`: the store of command definitions and their handlers,
    the execution pipeline (look up, validate, invoke, record) and the
    append-only execution log. */
module Registry {
  import opened Values
  import opened Schema
  import opened Validation
  import opened NameOrder
  import opened ExecutionLog

  /** What calling a handler with the argument map does: it returns a value
      or raises an exception with a message. */
  datatype HandlerOutcome = Returned(value: Value) | Raised(message: string)

  /** A handler, called with the argument map as keyword arguments. */
  type Handler = map<string, Value> -> HandlerOutcome

  /** Registration refuses a name that is already taken. */
  datatype RegistryError = AlreadyRegistered(name: string)

  /** The metadata every outcome carries: `{"parameters": parameters}`. */
  function Metadata(params: map<string, Value>): (m: map<string, Value>)
    ensures m.Keys == {"parameters"} && m["parameters"] == VDict(params)
  {
    map["parameters" := VDict(params)]
  }

  /** A command passes the listing filter: no filter, or its category. */
  predicate OfKind(c: Command, kind: Option<CommandType>)
  {
    kind.None? || c.kind == kind.value
  }

  /** The commands stored under `names`, in that order. */
  function CommandsAt(cmds: map<string, Command>, names: seq<string>): (r: seq<Command>)
    requires forall n :: n in names ==> n in cmds
    ensures |r| == |names|
    ensures forall i :: 0 <= i < |names| ==> r[i] == cmds[names[i]]
  {
    if names == [] then [] else [cmds[names[0]]] + CommandsAt(cmds, names[1..])
  }

  /** The names of the stored commands that pass the category filter. */
  function KeysOfKind(cmds: map<string, Command>, kind: Option<CommandType>): set<string>
  {
    set n | n in cmds && OfKind(cmds[n], kind)
  }

  /** `list_commands`: the stored commands that pass the category filter,
      in increasing order of the names they are stored under. */
  function SortedCommands(cmds: map<string, Command>, kind: Option<CommandType>): seq<Command>
  {
    var names := SortedNames(KeysOfKind(cmds, kind));
    assert forall n :: n in names ==> n in cmds;
    CommandsAt(cmds, names)
  }

  /** When every command is stored under its own name, the listing is in
      strictly increasing order of name. */
  lemma SortedCommandsOrdered(cmds: map<string, Command>, kind: Option<CommandType>)
    requires forall n :: n in cmds ==> cmds[n].name == n
    ensures var r := SortedCommands(cmds, kind);
      forall i, j :: 0 <= i < j < |r| ==> Less(r[i].name, r[j].name)
  {
    var names := SortedNames(KeysOfKind(cmds, kind));
    var r := SortedCommands(cmds, kind);
    forall i | 0 <= i < |r| ensures r[i].name == names[i] {
      assert names[i] in KeysOfKind(cmds, kind);
    }
  }

  /** A command is listed exactly when it is stored and passes the filter. */
  lemma ListedIff(cmds: map<string, Command>, kind: Option<CommandType>, c: Command)
    ensures c in SortedCommands(cmds, kind) <==> c in cmds.Values && OfKind(c, kind)
  {
    var keys := KeysOfKind(cmds, kind);
    var names := SortedNames(keys);
    var r := SortedCommands(cmds, kind);
    if c in r {
      var i :| 0 <= i < |r| && r[i] == c;
      assert names[i] in keys;
    }
    if c in cmds.Values && OfKind(c, kind) {
      var n :| n in cmds && cmds[n] == c;
      assert n in keys;
      var i :| 0 <= i < |names| && names[i] == n;
      assert r[i] == c;
    }
  }

  class CommandRegistry {
    var commands: map<string, Command>
    var handlers: map<string, Handler>
    var log: seq<CommandResult>

    /** Every command has exactly one handler and is stored under its own
        name, and only completed or failed outcomes are logged. */
    ghost predicate Valid()
      reads this
    {
      && commands.Keys == handlers.Keys
      && (forall n :: n in commands ==> commands[n].name == n)
      && (forall i :: 0 <= i < |log| ==> Terminal(log[i]))
    }

    /** An empty registry. */
    constructor ()
      ensures Valid()
      ensures commands == map[] && handlers == map[] && log == []
    {
      commands := map[];
      handlers := map[];
      log := [];
    }

    /** `register`: refuses a name that is already taken and then changes
        nothing; otherwise adds the command and its handler under the
        command's name and nothing else. */
    method Register(cmd: Command, handler: Handler) returns (err: Option<RegistryError>)
      requires Valid()
      modifies this
      ensures Valid()
      ensures err.Some? <==> cmd.name in old(commands)
      ensures err.Some? ==> err.value == AlreadyRegistered(cmd.name)
      ensures err.Some? ==> commands == old(commands) && handlers == old(handlers)
      ensures err.None? ==> commands == old(commands)[cmd.name := cmd]
      ensures err.None? ==> handlers == old(handlers)[cmd.name := handler]
      ensures log == old(log)
    {
      if cmd.name in commands {
        return Some(AlreadyRegistered(cmd.name));
      }
      commands := commands[cmd.name := cmd];
      handlers := handlers[cmd.name := handler];
      err := None;
    }

    /** `get_command`: the definition stored under `name`, if any. */
    function GetCommand(name: string): (r: Option<Command>)
      reads this
      ensures r.Some? <==> name in commands
      ensures r.Some? ==> r.value == commands[name]
      ensures Valid() && r.Some? ==> r.value.name == name
    {
      if name in commands then Some(commands[name]) else None
    }

    /** `execute`: looks the command up, validates the arguments, calls the
        handler, and turns every failure into a failed outcome instead of
        raising. The outcome is appended to the log only when
        `logExecution` holds; the commands and handlers never change.
        `elapsed` and `now` are the clock readings the outcome records. */
    method Execute(name: string, params: map<string, Value>, logExecution: bool,
                   matches: Matcher, elapsed: real, now: nat)
      returns (r: CommandResult)
      requires Valid()
      modifies this
      ensures Valid()
      ensures commands == old(commands) && handlers == old(handlers)
      ensures log == if logExecution then old(log) + [r] else old(log)
      ensures r.commandName == name && r.metadata == Metadata(params)
      ensures r.executionTime == elapsed && r.timestamp == now
      ensures r.status == Completed || r.status == Failed
      ensures r.status == Completed <==>
        && name in commands
        && ParamErrors(commands[name].parameters, params, matches) == map[]
        && handlers[name](params).Returned?
      ensures r.status == Completed ==> r.result == handlers[name](params).value && r.error.None?
      ensures r.status == Failed ==> r.result == VNone && r.error.Some?
      ensures name !in commands ==> r.error == Some(UnknownCommand(name))
      ensures name in commands && ParamErrors(commands[name].parameters, params, matches) != map[] ==>
        r.error == Some(ValidationFailed(ParamErrors(commands[name].parameters, params, matches)))
      ensures && name in commands
              && ParamErrors(commands[name].parameters, params, matches) == map[]
              && handlers[name](params).Raised? ==>
        r.error == Some(HandlerRaised(handlers[name](params).message))
    {
      var command := GetCommand(name);
      if command.None? {
        r := CommandResult(name, Failed, VNone, Some(UnknownCommand(name)), elapsed, now, Metadata(params));
      } else {
        var errors := ValidateParameters(command.value, params, matches);
        if errors != map[] {
          r := CommandResult(name, Failed, VNone, Some(ValidationFailed(errors)), elapsed, now, Metadata(params));
        } else {
          var handler := handlers[name];
          var outcome := handler(params);
          match outcome
          case Returned(value) =>
            r := CommandResult(name, Completed, value, None, elapsed, now, Metadata(params));
          case Raised(message) =>
            r := CommandResult(name, Failed, VNone, Some(HandlerRaised(message)), elapsed, now, Metadata(params));
        }
      }
      if logExecution {
        log := log + [r];
      }
    }

    /** `list_commands`: exactly the stored commands of the requested
        category, in strictly increasing order of name. */
    function ListCommands(kind: Option<CommandType>): (r: seq<Command>)
      reads this
      ensures forall c :: c in r <==> c in commands.Values && OfKind(c, kind)
      ensures Valid() ==> forall i, j :: 0 <= i < j < |r| ==> Less(r[i].name, r[j].name)
    {
      assert forall c :: c in SortedCommands(commands, kind) <==> c in commands.Values && OfKind(c, kind) by {
        forall c { ListedIff(commands, kind, c); }
      }
      assert Valid() ==> forall i, j :: 0 <= i < j < |SortedCommands(commands, kind)| ==>
          Less(SortedCommands(commands, kind)[i].name, SortedCommands(commands, kind)[j].name) by {
        if Valid() { SortedCommandsOrdered(commands, kind); }
      }
      SortedCommands(commands, kind)
    }

    /** `get_execution_log`: at most `limit` entries for a positive limit,
        each a logged outcome of the requested command when a name is
        given, and only completed or failed outcomes. */
    function GetExecutionLog(name: Option<string>, limit: int): (r: seq<CommandResult>)
      reads this
      ensures limit > 0 ==> |r| <= limit
      ensures name.None? || name.value == "" ==> r == Recent(log, limit)
      ensures forall x :: x in r ==> x in log
      ensures name.Some? && name.value != "" ==> forall x :: x in r ==> x.commandName == name.value
      ensures Valid() ==> forall x :: x in r ==> Terminal(x)
    {
      ViewFromLog(log, name, limit);
      ExecutionLogView(log, name, limit)
    }

    /** `get_command_stats`: in a valid registry the successes and failures
        of a command add up to its total. */
    function GetCommandStats(name: string): (r: ExecutionStats)
      reads this
      ensures r.NoExecutions? <==> forall i :: 0 <= i < |log| ==> log[i].commandName != name
      ensures Valid() ==> r.Succeeded() + r.FailedCount() == r.Total()
    {
      var stats := CommandStats(log, name);
      assert Valid() ==> stats.Succeeded() + stats.FailedCount() == stats.Total() by {
        if Valid() { StatsBalanced(log, name); }
      }
      stats
    }
  }

  /** The integer parameter of the scenario below: required, between 1 and 10. */
  function CountParam(): Param
  {
    Param("count", "int", true, "", VNone, None, Some(1.0), Some(10.0), None, None, None)
  }

  /** A value below the lower bound is reported as below the minimum. */
  lemma CountBelowRange(matches: Matcher)
    ensures ParamErrors([CountParam()], map["count" := VInt(0)], matches) == map["count" := BelowMinimum(1.0)]
  {
    var args := map["count" := VInt(0)];
    assert [CountParam()][..0] == [];
    MinimumWinsOverChoice(CountParam(), args, matches);
  }

  /** A value inside the bounds passes. */
  lemma CountInRange(matches: Matcher)
    ensures ParamErrors([CountParam()], map["count" := VInt(5)], matches) == map[]
  {
    var args := map["count" := VInt(5)];
    assert [CountParam()][..0] == [];
    CheckParamNoneIff(CountParam(), args, matches);
  }

  /** A caller's view of registration: a second registration under the
      same name is refused and keeps the first handler, and an unknown name
      executes to a failed, logged outcome. */
  method RegistrationScenario(matches: Matcher) returns (again: Option<RegistryError>, unknown: CommandResult)
    ensures again == Some(AlreadyRegistered("tally"))
    ensures unknown.status == Failed && unknown.result == VNone
    ensures unknown.error == Some(UnknownCommand("unknown"))
  {
    var reg := new CommandRegistry();
    var cmd := Command("tally", Query, "", [CountParam()], 0.0, 0, false, [], []);
    var handler: Handler := (args: map<string, Value>) => Returned(VStr("ok"));

    var err := reg.Register(cmd, handler);
    assert err.None?;
    again := reg.Register(cmd, (args: map<string, Value>) => Raised("second"));
    assert reg.handlers["tally"] == handler;

    unknown := reg.Execute("unknown", map[], true, matches, 0.0, 0);
    assert reg.log == [unknown];
  }

  /** A fresh registry holding one command, "tally", with the integer
      parameter above and a handler that returns "ok". */
  method TallyRegistry() returns (reg: CommandRegistry)
    ensures fresh(reg) && reg.Valid() && reg.log == []
    ensures "tally" in reg.commands && reg.commands["tally"].parameters == [CountParam()]
    ensures "tally" in reg.handlers && reg.handlers["tally"](map["count" := VInt(5)]) == Returned(VStr("ok"))
  {
    reg := new CommandRegistry();
    var cmd := Command("tally", Query, "", [CountParam()], 0.0, 0, false, [], []);
    var err := reg.Register(cmd, (args: map<string, Value>) => Returned(VStr("ok")));
  }

  /** A caller's view of execution: the value 0 fails on the lower bound of
      [1, 10]. */
  method BelowRangeScenario(matches: Matcher) returns (r0: CommandResult)
    ensures r0.status == Failed && r0.result == VNone
    ensures r0.error == Some(ValidationFailed(map["count" := BelowMinimum(1.0)]))
  {
    var reg := TallyRegistry();
    CountBelowRange(matches);
    assert "count" in ParamErrors([CountParam()], map["count" := VInt(0)], matches);
    r0 := reg.Execute("tally", map["count" := VInt(0)], true, matches, 0.0, 1);
    assert reg.log == [r0];
  }

  /** A caller's view of execution: the value 5 lies in [1, 10] and
      completes with the handler's "ok". */
  method InRangeScenario(matches: Matcher) returns (r5: CommandResult)
    ensures r5.status == Completed && r5.result == VStr("ok") && r5.error.None?
  {
    var reg := TallyRegistry();
    CountInRange(matches);
    r5 := reg.Execute("tally", map["count" := VInt(5)], true, matches, 0.0, 2);
    assert reg.log == [r5];
  }
}
