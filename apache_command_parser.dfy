/** The `org.apache` revision's `CommandParser`: splits one command line into the
    options of a fresh `Environment` and the arguments, and answers the questions the
    terminal loop asks about it. The registry it consults is a plain map from name to
    command. */
module ApacheCommandParser {
  import opened JavaLang
  import opened Tokenizer
  import opened ApacheOptions
  import opened ApacheEnvironment
  import opened ApacheCommandRegistry

  /** The `setOption` calls one token causes: a "--" token passes both tests of the
      loop and is set twice, any other '-' token once, and an argument not at all. */
  function TokenCalls(t: string): (r: seq<string>)
    ensures |r| <= 2 && forall k :: 0 <= k < |r| ==> r[k] == t
    ensures r == [] <==> !IsOptionToken(t)
  {
    if StartsWith(t, "--") then [t, t] else if IsOptionToken(t) then [t] else []
  }

  /** The `setOption` calls of a whole line, in order. */
  function SetOptionCalls(ts: seq<string>): seq<string>
  {
    if |ts| == 0 then [] else SetOptionCalls(ts[..|ts| - 1]) + TokenCalls(ts[|ts| - 1])
  }

  /** The environment's options after the constructor, or what it throws. */
  function ParsedOptions(original: seq<string>): Result<map<string, string>>
  {
    Stored(EnvironmentStripping, map[], SetOptionCalls(original))
  }

  /** `isOptionSet(name) && Boolean.parseBoolean(getOption(name))`. */
  predicate Flag(options: map<string, string>, name: string)
  {
    name in options && ParseBoolean(NonNull(options[name]))
  }

  // ------------------------------------------------------------------ lemmas

  lemma CallsSnoc(ts: seq<string>, t: string)
    ensures SetOptionCalls(ts + [t]) == SetOptionCalls(ts) + TokenCalls(t)
  {
    assert (ts + [t])[..|ts|] == ts;
  }

  /** One more token of the line adds its calls, and its argument if it is one. */
  lemma CallsStep(original: seq<string>, i: nat)
    requires i < |original|
    ensures SetOptionCalls(original[..i + 1]) == SetOptionCalls(original[..i]) + TokenCalls(original[i])
    ensures ArgumentTokens(original[..i + 1])
            == ArgumentTokens(original[..i]) + (if IsOptionToken(original[i]) then [] else [original[i]])
  {
    assert original[..i + 1] == original[..i] + [original[i]];
    CallsSnoc(original[..i], original[i]);
    PartitionSnoc(original[..i], original[i]);
  }

  lemma {:induction false} CallsAppend(a: seq<string>, b: seq<string>)
    ensures SetOptionCalls(a + b) == SetOptionCalls(a) + SetOptionCalls(b)
    decreases |b|
  {
    if b == [] {
      assert a + b == a;
    } else {
      var init := b[..|b| - 1];
      CallsAppend(a, init);
      assert (a + b)[..|a + b| - 1] == a + init;
      assert (a + b)[|a + b| - 1] == b[|b| - 1];
    }
  }

  /** Setting each "--" token twice stores the same as setting each option token once:
      the second call repeats the first. */
  lemma {:induction false} DoubledHarmless(options: map<string, string>, ts: seq<string>)
    ensures Stored(EnvironmentStripping, options, SetOptionCalls(ts)) == Stored(EnvironmentStripping, options, OptionTokens(ts))
    decreases |ts|
  {
    if ts != [] {
      var init, t := ts[..|ts| - 1], ts[|ts| - 1];
      DoubledHarmless(options, init);
      var calls, opts := SetOptionCalls(init), OptionTokens(init);
      StoredAppend(EnvironmentStripping, options, calls, TokenCalls(t));
      StoredAppend(EnvironmentStripping, options, opts, if IsOptionToken(t) then [t] else []);
      var first := Stored(EnvironmentStripping, options, calls);
      if first.Ok? && StartsWith(t, "--") {
        SetTwice(x => Entry(EnvironmentStripping, x), first.value, [], t);
        assert [] + [t, t] == [t, t] && [] + [t] == [t];
      }
    }
  }

  /** A single-dash token keeps its dash, so whatever key it stores starts with '-'. */
  lemma SingleDashKey(t: string)
    requires IsOptionToken(t) && !StartsWith(t, "--") && Entry(EnvironmentStripping, t).Ok?
    ensures StartsWith(Entry(EnvironmentStripping, t).value.0, "-")
  {
    assert Unprefixed(EnvironmentStripping, t) == t;
    EntryShape(t);
    if ':' in t {
      var (k, v) := Entry(EnvironmentStripping, t).value;
      DashedKey(t, k, v);
    } else {
      assert t[..1] == "-";
    }
  }

  lemma DashedKey(t: string, k: string, v: string)
    requires StartsWith(t, k + ":" + v) && |t| > 0 && t[0] == '-'
    ensures StartsWith(k, "-")
  {
    assert t[..|k| + 1] == k + ":" by {
      assert (k + ":" + v)[..|k| + 1] == k + ":";
    }
    assert t[|k|] == ':' && |k| > 0;
    assert k[..1] == [t[0]];
  }

  /** A key without a leading dash, such as "interactive" or "verbose", is only ever
      stored by a "--" token: "-interactive" stores "-interactive". */
  lemma PlainKeysNeedTwoDashes(original: seq<string>, key: string)
    requires ParsedOptions(original).Ok? && key in ParsedOptions(original).value
    requires !StartsWith(key, "-")
    ensures exists j :: 0 <= j < |OptionTokens(original)| && StartsWith(OptionTokens(original)[j], "--")
              && Entry(EnvironmentStripping, OptionTokens(original)[j]).Ok?
              && Entry(EnvironmentStripping, OptionTokens(original)[j]).value.0 == key
  {
    var ts := OptionTokens(original);
    DoubledHarmless(map[], original);
    LastWriteWins(x => Entry(EnvironmentStripping, x), map[], ts, key);
    var j :| 0 <= j < |ts| && Entry(EnvironmentStripping, ts[j]).Ok? && Entry(EnvironmentStripping, ts[j]).value.0 == key;
    if !StartsWith(ts[j], "--") {
      SingleDashKey(ts[j]);
    }
  }

  /** Ending a line with "--name" sets `name` to "true", so the flag holds. */
  lemma TrailingSwitch(original: seq<string>, name: string)
    requires ':' !in name && !StartsWith(name, "-") && ParsedOptions(original).Ok?
    ensures ParsedOptions(original + ["--" + name]) == Ok(ParsedOptions(original).value[name := "true"])
    ensures Flag(ParsedOptions(original + ["--" + name]).value, name)
  {
    var t := "--" + name;
    CallsSnoc(original, t);
    assert StartsWith(t, "--") by {
      assert t[..2] == "--";
    }
    StoredAppend(EnvironmentStripping, map[], SetOptionCalls(original), [t, t]);
    var m := ParsedOptions(original).value;
    SetTwice(x => Entry(EnvironmentStripping, x), m, [], t);
    assert [] + [t, t] == [t, t] && [] + [t] == [t];
    SwitchStored(name);
    StoredOne(EnvironmentStripping, m, t);
    assert EqualsIgnoreCase("true", NonNull("true"));
  }

  // ------------------------------------------------------------------- the class

  class CommandParser {
    const registry: map<string, Command>
    const environment: Environment
    var commandName: Nullable<string>

    constructor Of(registry: map<string, Command>, environment: Environment, commandName: Nullable<string>)
      ensures this.registry == registry && this.environment == environment && this.commandName == commandName
    {
      this.registry := registry;
      this.environment := environment;
      this.commandName := commandName;
    }

    /** The constructor: every '-' token goes to a fresh environment's `setOption` (a
        "--" token twice), every other token to the arguments, and the command name is
        the first argument, or null. A token that cannot be split throws out of it. */
    static method Create(registry: map<string, Command>, original: seq<string>, console: Console) returns (r: Result<CommandParser>)
      ensures ParsedOptions(original).Err? ==> r == Err(ParsedOptions(original).error)
      ensures ParsedOptions(original).Ok? ==>
                r.Ok? && fresh(r.value) && fresh(r.value.environment)
                && r.value.registry == registry && r.value.environment.console == console
                && r.value.environment.prompt == DefaultPrompt
                && r.value.environment.options == ParsedOptions(original).value
                && r.value.commandName == CommandNameOf(ArgumentTokens(original))
    {
      var environment := new Environment(console);
      var arguments: seq<string> := [];
      var i := 0;
      while i < |original|
        invariant 0 <= i <= |original|
        invariant fresh(environment) && environment.console == console && environment.prompt == DefaultPrompt
        invariant Stored(EnvironmentStripping, map[], SetOptionCalls(original[..i])) == Ok(environment.options)
        invariant arguments == ArgumentTokens(original[..i])
      {
        var arg := original[i];
        CallsStep(original, i);
        StoredAppend(EnvironmentStripping, map[], SetOptionCalls(original[..i]), TokenCalls(arg));
        var stored := SetToken(environment, arg);
        if stored.Err? {
          Escapes(original, i + 1, stored.error);
          return Err(stored.error);
        }
        if !IsOptionToken(arg) {
          arguments := arguments + [arg];
        }
        i := i + 1;
      }
      assert original[..i] == original;
      var parser := new CommandParser.Of(registry, environment, if |arguments| > 0 then NonNull(arguments[0]) else Null);
      r := Ok(parser);
    }

    /** The loop body's two tests for one token: `startsWith("--")` sets the option,
        and `startsWith("-")` sets it (again). */
    static method SetToken(environment: Environment, arg: string) returns (r: Result<()>)
      modifies environment`options
      ensures Stored(EnvironmentStripping, old(environment.options), TokenCalls(arg))
              == if r.Ok? then Ok(environment.options) else Err(r.error)
    {
      ghost var before := environment.options;
      if StartsWith(arg, "--") {
        assert TokenCalls(arg) == [arg] + [arg];
        r := environment.SetOption(arg);
        StoredOne(EnvironmentStripping, before, arg);
        StoredAppend(EnvironmentStripping, before, [arg], [arg]);
        if r.Err? {
          return;
        }
        ghost var middle := environment.options;
        r := environment.SetOption(arg);
        StoredOne(EnvironmentStripping, middle, arg);
      } else if IsOptionToken(arg) {
        r := environment.SetOption(arg);
        StoredOne(EnvironmentStripping, before, arg);
      } else {
        r := Ok(());
        assert [] == TokenCalls(arg);
      }
    }

    /** `isInteractive`: "interactive" is set and its value is "true" in any case. */
    function IsInteractive(): (b: bool)
      reads this, environment
      ensures b <==> environment.IsOptionSet("interactive") && ParseBoolean(environment.GetOption("interactive"))
      ensures b ==> Folded(environment.options["interactive"]) == "true"
    {
      IgnoreCaseFolded("true", if "interactive" in environment.options then environment.options["interactive"] else "");
      Flag(environment.options, "interactive")
    }

    /** `isVerbose`: "verbose" is set and its value is "true" in any case. */
    function IsVerbose(): (b: bool)
      reads this, environment
      ensures b <==> environment.IsOptionSet("verbose") && ParseBoolean(environment.GetOption("verbose"))
      ensures b ==> Folded(environment.options["verbose"]) == "true"
    {
      IgnoreCaseFolded("true", if "verbose" in environment.options then environment.options["verbose"] else "");
      Flag(environment.options, "verbose")
    }

    /** `isExit`: the command name is "exit" or "quit" in any case; null is not. */
    function IsExit(): (b: bool)
      reads this
      ensures b <==> commandName.NonNull? && (Folded(commandName.value) == "exit" || Folded(commandName.value) == "quit")
    {
      ExitFolded(commandName);
      IsExitName(commandName)
    }

    /** `hasCommand`: the line named a command; a line without one is never an exit. */
    function HasCommand(): (b: bool)
      reads this
      ensures b <==> commandName != Null
      ensures !b ==> !IsExit()
    {
      commandName.NonNull?
    }

    /** `foundCommand`: `registry.containsKey(commandName)`, false for null since the
        map holds no null key. */
    function FoundCommand(): (b: bool)
      reads this
      ensures b ==> HasCommand()
      ensures b <==> commandName.NonNull? && commandName.value in registry
    {
      commandName.NonNull? && commandName.value in registry
    }

    /** `getCommand`: the registered command, or null. */
    function GetCommand(): (r: Nullable<Command>)
      reads this
      ensures r.NonNull? <==> FoundCommand()
      ensures r.NonNull? ==> r.value == registry[commandName.value]
    {
      if FoundCommand() then NonNull(registry[commandName.value]) else Null
    }
  }

  /** A failure after the first `i` tokens' calls makes the whole line fail with it. */
  lemma Escapes(original: seq<string>, i: nat, e: Exception)
    requires i <= |original| && Stored(EnvironmentStripping, map[], SetOptionCalls(original[..i])) == Err(e)
    ensures ParsedOptions(original) == Err(e)
  {
    CallsAppend(original[..i], original[i..]);
    assert original[..i] + original[i..] == original;
    StoredAppend(EnvironmentStripping, map[], SetOptionCalls(original[..i]), SetOptionCalls(original[i..]));
  }
}
