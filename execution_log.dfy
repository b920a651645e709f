/** The record of one execution (`CommandResult`) and what the registry
    derives from its log of such records: the recent-entries view and the
    per-command statistics. */
module ExecutionLog {
  import opened Values
  import opened Schema

  /** The status vocabulary; the execution pipeline only ever produces
      `Completed` and `Failed`. */
  datatype Status = Pending | Running | Completed | Failed | Retrying

  /** Why an execution failed. The message text the registry builds from
      each is not modelled, only which failure it was and its data. */
  datatype Failure =
    | UnknownCommand(name: string)
    | ValidationFailed(errors: map<string, ParamError>)
    | HandlerRaised(message: string)

  /** One execution outcome. `executionTime` (seconds) and `timestamp` are
      clock readings supplied from outside; `result` is `None` unless the
      handler returned. */
  datatype CommandResult = CommandResult(
    commandName: string,
    status: Status,
    result: Value,
    error: Option<Failure>,
    executionTime: real,
    timestamp: nat,
    metadata: map<string, Value>)

  /** The only statuses that are ever logged. */
  predicate Terminal(r: CommandResult)
  {
    r.status == Completed || r.status == Failed
  }

  /** `[r for r in log if r.command_name == name]`. */
  function Named(log: seq<CommandResult>, name: string): (r: seq<CommandResult>)
    ensures |r| <= |log|
    ensures forall i :: 0 <= i < |r| ==> r[i].commandName == name
  {
    if log == [] then []
    else
      var last := log[|log| - 1];
      Named(log[..|log| - 1], name) + (if last.commandName == name then [last] else [])
  }

  /** `[e for e in executions if e.status == status]`. */
  function WithStatus(log: seq<CommandResult>, status: Status): (r: seq<CommandResult>)
    ensures |r| <= |log|
    ensures forall i :: 0 <= i < |r| ==> r[i].status == status
  {
    if log == [] then []
    else
      var last := log[|log| - 1];
      WithStatus(log[..|log| - 1], status) + (if last.status == status then [last] else [])
  }

  /** An outcome is kept by the name filter exactly when it is in the log
      under that name. */
  lemma {:induction false} NamedMembers(log: seq<CommandResult>, name: string, x: CommandResult)
    ensures x in Named(log, name) <==> x in log && x.commandName == name
  {
    if log != [] {
      var init := log[..|log| - 1];
      NamedMembers(init, name, x);
      assert log == init + [log[|log| - 1]];
    }
  }

  /** Filtering by name keeps the order of the log: it distributes over
      concatenation. */
  lemma {:induction false} NamedAppend(a: seq<CommandResult>, b: seq<CommandResult>, name: string)
    ensures Named(a + b, name) == Named(a, name) + Named(b, name)
    decreases |b|
  {
    if b == [] {
      assert a + b == a;
    } else {
      var b' := b[..|b| - 1];
      assert (a + b)[..|a + b| - 1] == a + b';
      NamedAppend(a, b', name);
    }
  }

  /** Filtering by status distributes over concatenation. */
  lemma {:induction false} WithStatusAppend(a: seq<CommandResult>, b: seq<CommandResult>, status: Status)
    ensures WithStatus(a + b, status) == WithStatus(a, status) + WithStatus(b, status)
    decreases |b|
  {
    if b == [] {
      assert a + b == a;
    } else {
      var b' := b[..|b| - 1];
      assert (a + b)[..|a + b| - 1] == a + b';
      WithStatusAppend(a, b', status);
    }
  }

  /** When only completed and failed outcomes occur, the two counts add up
      to the number of outcomes. */
  lemma {:induction false} StatusPartition(log: seq<CommandResult>)
    requires forall i :: 0 <= i < |log| ==> Terminal(log[i])
    ensures |WithStatus(log, Completed)| + |WithStatus(log, Failed)| == |log|
  {
    if log != [] {
      StatusPartition(log[..|log| - 1]);
    }
  }

  function Min(a: int, b: int): int
  {
    if a <= b then a else b
  }

  /** Where a Python slice `s[start:]` begins, for a sequence of length `n`:
      a negative start counts from the end, and both are clamped. */
  function SliceStart(n: nat, start: int): (k: nat)
    ensures k <= n
  {
    if start < 0 then (if n + start < 0 then 0 else n + start)
    else if start > n then n
    else start
  }

  /** `log[-limit:]`: the last `limit` entries for a positive limit, the
      whole log for a zero limit (`-0 == 0`), and the log without its first
      `-limit` entries for a negative one. */
  function Recent(log: seq<CommandResult>, limit: int): (r: seq<CommandResult>)
    ensures limit > 0 ==> |r| == Min(limit, |log|) && r == log[|log| - |r|..]
    ensures limit == 0 ==> r == log
    ensures limit < 0 ==> r == log[Min(-limit, |log|)..]
  {
    log[SliceStart(|log|, -limit)..]
  }

  /** `get_execution_log`: the recent window of the log, then, when a
      non-empty name is given, only that command's entries in it. */
  function ExecutionLogView(log: seq<CommandResult>, name: Option<string>, limit: int): (r: seq<CommandResult>)
    ensures name.None? || name.value == "" ==> r == Recent(log, limit)
    ensures name.Some? && name.value != "" ==>
      forall x :: x in r <==> x in Recent(log, limit) && x.commandName == name.value
    ensures name.Some? && name.value != "" ==> r == Named(Recent(log, limit), name.value)
    ensures limit > 0 ==> |r| <= limit
  {
    var window := Recent(log, limit);
    if name.Some? && name.value != "" then
      assert forall x :: x in Named(window, name.value) <==> x in window && x.commandName == name.value by {
        forall x { NamedMembers(window, name.value, x); }
      }
      Named(window, name.value)
    else window
  }

  /** Every entry of the view is an entry of the log. */
  lemma ViewFromLog(log: seq<CommandResult>, name: Option<string>, limit: int)
    ensures forall x :: x in ExecutionLogView(log, name, limit) ==> x in log
  {
    var k := SliceStart(|log|, -limit);
    assert forall i :: 0 <= i < |log[k..]| ==> log[k..][i] == log[k + i];
  }

  /** Filtering happens after truncation: an entry of the requested command
      that lies before the window is not returned even when the window has
      room for it. */
  lemma FilterAfterTruncation(older: CommandResult, newer: CommandResult)
    requires older.commandName == "x" && newer.commandName != "x"
    ensures Named([older, newer], "x") == [older]
    ensures ExecutionLogView([older, newer], Some("x"), 1) == []
  {
    assert [older, newer][..1] == [older];
    assert [older] [..0] == [];
    assert ExecutionLogView([older, newer], Some("x"), 1) == Named([newer], "x");
    assert [newer][..0] == [];
  }

  /** A limit of one yields exactly the most recent outcome; a limit of
      zero yields the whole log. */
  lemma LimitEdges(log: seq<CommandResult>)
    ensures log != [] ==> ExecutionLogView(log, None, 1) == [log[|log| - 1]]
    ensures ExecutionLogView(log, None, 0) == log
  {
  }

  /** Per-command statistics, or the "No executions found" answer. */
  datatype ExecutionStats =
    | NoExecutions
    | Summary(
        totalExecutions: nat,
        successes: nat,
        failures: nat,
        successRate: real,
        avgExecutionTime: real,
        lastExecution: nat)
  {
    /** The number of executions counted, zero when none were found. */
    function Total(): nat
    {
      if NoExecutions? then 0 else totalExecutions
    }

    function Succeeded(): nat
    {
      if NoExecutions? then 0 else successes
    }

    function FailedCount(): nat
    {
      if NoExecutions? then 0 else failures
    }
  }

  /** A count out of a positive total gives a rate between zero and one. */
  lemma RateBounds(part: nat, total: nat)
    requires 0 < total && part <= total
    ensures 0.0 <= part as real / total as real <= 1.0
  {
    assert part as real / total as real * total as real == part as real;
  }

  /** The sum of the execution times. */
  function TotalTime(log: seq<CommandResult>): real
  {
    if log == [] then 0.0 else TotalTime(log[..|log| - 1]) + log[|log| - 1].executionTime
  }

  /** `get_command_stats`: over every logged outcome of `name`, the count,
      the completed and failed counts, the success rate, the mean execution
      time and the timestamp of the last one. */
  function CommandStats(log: seq<CommandResult>, name: string): (r: ExecutionStats)
    ensures r.NoExecutions? <==> forall i :: 0 <= i < |log| ==> log[i].commandName != name
    ensures r.Summary? ==>
      && r.totalExecutions == |Named(log, name)| > 0
      && r.successes == |WithStatus(Named(log, name), Completed)|
      && r.failures == |WithStatus(Named(log, name), Failed)|
      && r.successRate == r.successes as real / r.totalExecutions as real
      && 0.0 <= r.successRate <= 1.0
  {
    var executions := Named(log, name);
    if executions == [] then
      assert forall i :: 0 <= i < |log| ==> log[i].commandName != name by {
        forall i | 0 <= i < |log| ensures log[i].commandName != name {
          NamedMembers(log, name, log[i]);
        }
      }
      NoExecutions
    else
      assert exists i :: 0 <= i < |log| && log[i].commandName == name by {
        NamedMembers(log, name, executions[0]);
      }
      var successes := WithStatus(executions, Completed);
      var failures := WithStatus(executions, Failed);
      RateBounds(|successes|, |executions|);
      Summary(
        |executions|,
        |successes|,
        |failures|,
        |successes| as real / |executions| as real,
        TotalTime(executions) / |executions| as real,
        executions[|executions| - 1].timestamp)
  }

  /** Every entry of a log filtered by name comes from the log, and its
      last entry is the log's last entry of that name. */
  lemma {:induction false} NamedLast(log: seq<CommandResult>, name: string)
    requires Named(log, name) != []
    ensures exists i :: && 0 <= i < |log| && log[i] == Named(log, name)[|Named(log, name)| - 1]
                        && log[i].commandName == name
                        && forall j :: i < j < |log| ==> log[j].commandName != name
  {
    var init := log[..|log| - 1];
    var last := log[|log| - 1];
    if last.commandName != name {
      NamedLast(init, name);
      var i :| && 0 <= i < |init| && init[i] == Named(init, name)[|Named(init, name)| - 1]
               && init[i].commandName == name
               && forall j :: i < j < |init| ==> init[j].commandName != name;
      assert log[i] == init[i];
      forall j | i < j < |log| ensures log[j].commandName != name {
        if j < |init| { assert log[j] == init[j]; }
      }
    }
  }

  /** The reported last execution is the timestamp of the most recent
      logged outcome of that command. */
  lemma LastExecutionIsLatest(log: seq<CommandResult>, name: string)
    requires CommandStats(log, name).Summary?
    ensures exists i :: && 0 <= i < |log| && log[i].commandName == name
                        && log[i].timestamp == CommandStats(log, name).lastExecution
                        && forall j :: i < j < |log| ==> log[j].commandName != name
  {
    NamedLast(log, name);
  }

  /** When only completed and failed outcomes are logged, successes and
      failures add up to the total. */
  lemma StatsBalanced(log: seq<CommandResult>, name: string)
    requires forall i :: 0 <= i < |log| ==> Terminal(log[i])
    ensures CommandStats(log, name).Succeeded() + CommandStats(log, name).FailedCount()
         == CommandStats(log, name).Total()
  {
    var executions := Named(log, name);
    forall i | 0 <= i < |executions| ensures Terminal(executions[i]) {
      NamedMembers(log, name, executions[i]);
    }
    StatusPartition(executions);
  }

  /** Logging one more outcome appends it to its command's executions. */
  lemma NamedAfterAppend(log: seq<CommandResult>, r: CommandResult)
    ensures Named(log + [r], r.commandName) == Named(log, r.commandName) + [r]
    ensures forall st: Status :: |WithStatus(Named(log + [r], r.commandName), st)|
                               == |WithStatus(Named(log, r.commandName), st)| + (if r.status == st then 1 else 0)
  {
    var n := r.commandName;
    var before := Named(log, n);
    assert [r][..0] == [];
    NamedAppend(log, [r], n);
    forall st: Status
      ensures |WithStatus(before + [r], st)| == |WithStatus(before, st)| + (if r.status == st then 1 else 0)
    {
      WithStatusAppend(before, [r], st);
    }
  }

  /** Logging one more outcome adds one to its command's total, one to its
      successes exactly when it completed, one to its failures exactly when
      it failed, and makes its timestamp the last execution. */
  lemma StatsAfterAppend(log: seq<CommandResult>, r: CommandResult)
    ensures var before := CommandStats(log, r.commandName);
      var after := CommandStats(log + [r], r.commandName);
      && after.Summary?
      && after.totalExecutions == before.Total() + 1
      && after.successes == before.Succeeded() + (if r.status == Completed then 1 else 0)
      && after.failures == before.FailedCount() + (if r.status == Failed then 1 else 0)
      && after.lastExecution == r.timestamp
  {
    NamedAfterAppend(log, r);
    var executions := Named(log + [r], r.commandName);
    assert executions[|executions| - 1] == r;
  }

  /** Logging an outcome of one command leaves every other command's
      statistics as they were. */
  lemma StatsOfOthersUnchanged(log: seq<CommandResult>, r: CommandResult, name: string)
    requires name != r.commandName
    ensures CommandStats(log + [r], name) == CommandStats(log, name)
  {
    NamedAppend(log, [r], name);
    assert [r][..0] == [];
    assert Named([r], name) == [];
    assert Named(log + [r], name) == Named(log, name);
  }

  /** A log holding only outcomes of `name` is its own filtered view. */
  lemma {:induction false} NamedAll(log: seq<CommandResult>, name: string)
    requires forall i :: 0 <= i < |log| ==> log[i].commandName == name
    ensures Named(log, name) == log
  {
    if log != [] {
      NamedAll(log[..|log| - 1], name);
    }
  }

  /** Two completed outcomes and one failed one give a total of three, two
      successes, one failure and a success rate of two thirds. */
  lemma StatsOfThree(a: CommandResult, b: CommandResult, c: CommandResult)
    requires a.commandName == b.commandName == c.commandName
    requires a.status == Completed && b.status == Failed && c.status == Completed
    ensures var s := CommandStats([a, b, c], a.commandName);
      s.Summary? && s.totalExecutions == 3 && s.successes == 2 && s.failures == 1
      && s.successRate == 2.0 / 3.0
  {
    var log := [a, b, c];
    NamedAll(log, a.commandName);
    assert log[..2] == [a, b] && [a, b][..1] == [a] && [a][..0] == [];
    assert WithStatus([a], Completed) == [a] && WithStatus([a], Failed) == [];
    assert WithStatus([a, b], Completed) == [a] && WithStatus([a, b], Failed) == [b];
    assert WithStatus(log, Completed) == [a, c] && WithStatus(log, Failed) == [b];
  }
}
