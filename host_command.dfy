/** `commands.HostCommand` ("host"): runs start, stop or findleaks on the single Host
    the "engine" and "hostname" options select, and reports the leaking applications
    `findleaks` returns. */
module HostCommand {
  import opened JavaLang
  import opened OptionBinding
  import opened ImplCommandConfig
  import opened CommandClasses
  import opened BaseCommand
  import opened JmxQuery
  import opened HostQuery

  const SubCommandRequired: string := "Sub-command required: start|stop|findleaks"
  const NoLeaks: string := "No leaking apps found."
  const FoundLeaks: string := "Found %s leaking apps..."
  const LeakName: string := "Leaking app name: %s"

  /** The sub-command map the constructor fills: sub-command to operation name. */
  const SubCommands: map<string, string> :=
    map["start" := "start", "stop" := "stop", "findleaks" := "findReloadedContextMemoryLeaks"]

  function Thrown(message: string): Exception
  {
    Exception(ExceptionKind.Command, NonNull(Text(message)))
  }

  // ------------------------------------------------------------ the leak report

  /** The string elements of an array, in order. */
  function Leaks(items: seq<Value>): seq<string>
    decreases |items|
  {
    if items == [] then []
    else
      var last := items[|items| - 1];
      Leaks(items[..|items| - 1]) + (if last.Str? then [last.s] else [])
  }

  /** One "Leaking app name" call per leak, with the name as its argument. */
  function LeakLines(leaks: seq<string>): seq<LogCall>
    decreases |leaks|
  {
    if leaks == [] then [] else LeakLines(leaks[..|leaks| - 1]) + [LogCall(LeakName, [leaks[|leaks| - 1]])]
  }

  /** What `handleMethodResult(obj)` logs: nothing for null or anything but an array,
      "No leaking apps found." for an empty array, and otherwise the array's length
      followed by each string element. */
  function LeakReport(v: Value): seq<LogCall>
  {
    if !v.Items? then []
    else if |v.items| == 0 then [LogCall(NoLeaks, [])]
    else [LogCall(FoundLeaks, [DecimalString(|v.items|)])] + LeakLines(Leaks(v.items))
  }

  /** Collecting the strings of two arrays one after the other collects those of each. */
  lemma {:induction false} LeaksAppend(a: seq<Value>, b: seq<Value>)
    ensures Leaks(a + b) == Leaks(a) + Leaks(b)
    decreases |b|
  {
    if b != [] {
      var init := b[..|b| - 1];
      var last := b[|b| - 1];
      var tail := if last.Str? then [last.s] else [];
      LeaksAppend(a, init);
      assert (a + b)[..|a + b| - 1] == a + init && (a + b)[|a + b| - 1] == last;
      assert Leaks(a + b) == Leaks(a + init) + tail;
      assert Leaks(a) + Leaks(b) == Leaks(a) + (Leaks(init) + tail);
    } else {
      assert a + b == a;
    }
  }

  /** So the leaks are exactly the string elements: one per string, none for anything
      else, and the count of an all-string array is its length. */
  lemma LeaksOfOne(x: Value)
    ensures Leaks([x]) == (if x.Str? then [x.s] else [])
  {
    assert [x][..0] == [];
  }

  lemma {:induction false} LeaksBound(items: seq<Value>)
    ensures |Leaks(items)| <= |items|
    ensures |Leaks(items)| == |items| <==> forall k :: 0 <= k < |items| ==> items[k].Str?
    decreases |items|
  {
    if items != [] {
      var init := items[..|items| - 1];
      LeaksBound(init);
      if forall k :: 0 <= k < |init| ==> init[k].Str? {
        assert forall k :: 0 <= k < |init| ==> items[k].Str?;
      }
    }
  }

  lemma {:induction false} LeakLinesShape(leaks: seq<string>)
    ensures |LeakLines(leaks)| == |leaks|
    ensures forall k :: 0 <= k < |leaks| ==> LeakLines(leaks)[k] == LogCall(LeakName, [leaks[k]])
    decreases |leaks|
  {
    if leaks != [] {
      LeakLinesShape(leaks[..|leaks| - 1]);
    }
  }

  /** For a non-empty array the first call carries the full array length, and one call
      follows per string element, in order. */
  lemma LeakReportShape(items: seq<Value>)
    requires items != []
    ensures var r := LeakReport(Items(items));
            |r| == 1 + |Leaks(items)| && r[0] == LogCall(FoundLeaks, [DecimalString(|items|)])
            && forall k :: 0 <= k < |Leaks(items)| ==> r[k + 1] == LogCall(LeakName, [Leaks(items)[k]])
  {
    LeakLinesShape(Leaks(items));
  }

  /** The report uses three messages only. */
  lemma ReportMessages(v: Value)
    ensures forall m :: m in LeakReport(v) ==> m.message == NoLeaks || m.message == FoundLeaks || m.message == LeakName
  {
    if v.Items? && v.items != [] {
      LeakLinesShape(Leaks(v.items));
    }
  }

  /** None of the three is a bundle key: each holds a space. */
  lemma NoLeaksIsNoKey()
    ensures !IsResourceKey(NoLeaks)
  {
    ForeignCharIsNoKey(NoLeaks, 2);
  }

  lemma FoundLeaksIsNoKey()
    ensures !IsResourceKey(FoundLeaks)
  {
    ForeignCharIsNoKey(FoundLeaks, 5);
  }

  lemma LeakNameIsNoKey()
    ensures !IsResourceKey(LeakName)
  {
    ForeignCharIsNoKey(LeakName, 7);
  }

  /** So their arguments are dropped: the count and the names themselves never reach
      the console, only the placeholders. */
  lemma LeakReportPrintsPlaceholders(v: Value)
    ensures forall m :: m in LeakReport(v) ==> LogMessage(m.message, m.args) == Text(m.message)
  {
    ReportMessages(v);
    NoLeaksIsNoKey();
    FoundLeaksIsNoKey();
    LeakNameIsNoKey();
    forall m | m in LeakReport(v)
      ensures LogMessage(m.message, m.args) == Text(m.message)
    {
      PlainMessageDropsArguments(m.message, m.args);
    }
  }

  // ------------------------------------------------------------ execute

  /** What `execute()` does, given the log calls `handleMethodResult` makes for the
      value returned by the operation. */
  function HostRun(commandMap: map<string, string>, c: CommandConfig, mb: Mbeans): Run
    requires c.Valid()
  {
    AsCommand(
      if c.arguments == [] then Run(Err(Thrown(SubCommandRequired)), [], [])
      else if c.arguments[0] !in commandMap then Run(Err(Thrown("Unknown command " + c.arguments[0])), [], [])
      else
        var operation := commandMap[c.arguments[0]];
        var found := FindHost(c, mb);
        if found.host.Err? then Run(Err(found.host.error), found.logged, [])
        else
          var answer := mb.invoke(found.host.value, operation);
          var invoked := [Invocation(found.host.value, operation)];
          if answer.Err? then Run(Err(answer.error), [], invoked)
          else Run(Ok(()), LeakReport(answer.value), invoked))
  }

  /** Without arguments, or with a first argument that is not a sub-command, nothing is
      queried, logged or invoked. */
  lemma SubCommandChecked(c: CommandConfig, mb: Mbeans)
    requires c.Valid()
    ensures c.arguments == [] ==> HostRun(SubCommands, c, mb) == Run(Err(Thrown(SubCommandRequired)), [], [])
    ensures c.arguments != [] && c.arguments[0] !in {"start", "stop", "findleaks"} ==>
              HostRun(SubCommands, c, mb) == Run(Err(Thrown("Unknown command " + c.arguments[0])), [], [])
  {
  }

  /** An operation is invoked only when the server reports exactly one Host for the
      pattern, and then once, on that Host, with the mapped operation name. */
  lemma InvokesOnlyTheOneHost(commandMap: map<string, string>, c: CommandConfig, mb: Mbeans)
    requires c.Valid()
    ensures var r := HostRun(commandMap, c, mb);
            r.invoked != [] ==>
              c.arguments != [] && c.arguments[0] in commandMap
              && mb.objectName(HostPattern(c)).Ok?
              && mb.queryNames(mb.objectName(HostPattern(c)).value).Ok?
              && |mb.queryNames(mb.objectName(HostPattern(c)).value).value| == 1
              && r.invoked == [Invocation(mb.queryNames(mb.objectName(HostPattern(c)).value).value[0],
                                          commandMap[c.arguments[0]])]
  {
    FindHostCases(c, mb);
  }

  /** Any other count of Hosts is thrown with that count, after the pattern is logged. */
  lemma WrongHostCount(commandMap: map<string, string>, c: CommandConfig, mb: Mbeans)
    requires c.Valid() && c.arguments != [] && c.arguments[0] in commandMap
    requires mb.objectName(HostPattern(c)).Ok?
    requires mb.queryNames(mb.objectName(HostPattern(c)).value).Ok?
    requires |mb.queryNames(mb.objectName(HostPattern(c)).value).value| != 1
    ensures HostRun(commandMap, c, mb)
            == Run(Err(CountMessage(|mb.queryNames(mb.objectName(HostPattern(c)).value).value|)),
                   [LogCall("hosts query:" + HostPattern(c), [])], [])
  {
    FindHostCases(c, mb);
  }

  /** Every failure leaves `execute` as a CommandException. */
  lemma FailuresAreCommandExceptions(commandMap: map<string, string>, c: CommandConfig, mb: Mbeans)
    requires c.Valid()
    ensures HostRun(commandMap, c, mb).result.Err? ==> HostRun(commandMap, c, mb).result.error.kind == ExceptionKind.Command
  {
  }

  /** Among the host command's options only its own two are named "engine" and
      "hostname", and both declare the default "". */
  lemma HostOptionDefaults()
    ensures forall o :: o in HostCommandOptions + AbstractJMXCommandOptions + AbstractCommandOptions && o.name == "engine" ==> o.value == ""
    ensures forall o :: o in HostCommandOptions + AbstractJMXCommandOptions + AbstractCommandOptions && o.name == "hostname" ==> o.value == ""
  {
    InheritedNames();
  }

  /** After the options are bound from the host command's own declarations, "hostname"
      (required) is always set, and both parts answer their declared default "": the
      pattern is ":type=Host,host=" with "engine", "*:type=Host,host=" without it,
      whatever was typed after the options. */
  lemma BoundHostPattern(rev: Revision, tokens: seq<string>, c: CommandConfig)
    requires WellFormed(Commands)
    requires Bind(rev, OptionsOf(Commands, HostCommandClass), tokens).Ok?
    requires c.options == Bind(rev, OptionsOf(Commands, HostCommandClass), tokens).value && c.Valid()
    ensures HostPattern(c) == (if IsOptionSet(c, NonNull("engine")) then "" else "*") + HostKeys
  {
    var viable := OptionsOf(Commands, HostCommandClass);
    HostCommandOptionList();
    HostOptionDefaults();
    assert HostCommandOptions[1] in viable;
    RequiredIsSet(rev, viable, tokens, c, HostCommandOptions[1]);
    BoundDeclares(rev, viable, tokens, c, "engine", "");
    BoundDeclares(rev, viable, tokens, c, "hostname", "");
    PatternOfDeclared(c, "", "");
  }

  // ------------------------------------------------------------ the class

  class HostCommand {
    const commandMap: map<string, string>

    constructor ()
      ensures commandMap == SubCommands
    {
      commandMap := SubCommands;
    }

    /** `handleMethodResult(obj)`: the log calls it makes. */
    static method HandleMethodResult(v: Value) returns (logged: seq<LogCall>)
      ensures logged == LeakReport(v)
    {
      if !v.Items? {
        return [];
      }
      var items := v.items;
      if |items| == 0 {
        return [LogCall(NoLeaks, [])];
      }
      var leaks: seq<string> := [];
      var i := 0;
      while i < |items|
        invariant 0 <= i <= |items|
        invariant leaks == Leaks(items[..i])
      {
        assert items[..i + 1][..i] == items[..i];
        if items[i].Str? {
          leaks := leaks + [items[i].s];
        }
        i := i + 1;
      }
      assert items[..i] == items;
      logged := [LogCall(FoundLeaks, [DecimalString(|items|)])];
      var k := 0;
      while k < |leaks|
        invariant 0 <= k <= |leaks|
        invariant logged == [LogCall(FoundLeaks, [DecimalString(|items|)])] + LeakLines(leaks[..k])
      {
        assert leaks[..k + 1][..k] == leaks[..k];
        logged := logged + [LogCall(LeakName, [leaks[k]])];
        k := k + 1;
      }
      assert leaks[..k] == leaks;
    }

    /** `execute()`, with the command configured with `c` and the server answering as
        `mb`. */
    method Execute(c: CommandConfig, mb: Mbeans) returns (run: Run)
      requires c.Valid()
      ensures run == HostRun(commandMap, c, mb)
    {
      if c.arguments == [] {
        return AsCommand(Run(Err(Thrown(SubCommandRequired)), [], []));
      }
      var command := c.arguments[0];
      if command !in commandMap {
        return AsCommand(Run(Err(Thrown("Unknown command " + command)), [], []));
      }
      var operation := commandMap[command];
      var found := FindHost(c, mb);
      if found.host.Err? {
        return AsCommand(Run(Err(found.host.error), found.logged, []));
      }
      var answer := mb.invoke(found.host.value, operation);
      var invoked := [Invocation(found.host.value, operation)];
      if answer.Err? {
        return AsCommand(Run(Err(answer.error), [], invoked));
      }
      var logged := HandleMethodResult(answer.value);
      run := Run(Ok(()), logged, invoked);
    }
  }
}
