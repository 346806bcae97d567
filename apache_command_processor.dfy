/** The `org.apache` revision's `CommandProcessor`: turns an argument array into a
    `CommandLine` whose options are split as `setOption` splits them, keeps every
    parsed line in its history, remembers the last line's command name and whether
    "--interactive" was ever seen, and counts calls of `first()`. */
module ApacheCommandProcessor {
  import opened JavaLang
  import opened Tokenizer
  import opened ApacheOptions
  import opened ApacheCommandLine
  import opened ApacheCommandRegistry

  /** The options of the line parsed from `tokens`, or what `setOption` throws. */
  function LineOptions(tokens: seq<string>): Result<map<string, string>>
  {
    Stored(LineStripping, map[], OptionTokens(tokens))
  }

  /** So a line holding an option "name:" (or "-name:", "--name:") with nothing after
      the colon cannot be parsed. */
  lemma EmptyValueFails(tokens: seq<string>, j: nat, name: string)
    requires j < |OptionTokens(tokens)| && ':' !in name
    requires Unprefixed(LineStripping, OptionTokens(tokens)[j]) == name + ":"
    ensures LineOptions(tokens).Err?
  {
    var ts := OptionTokens(tokens);
    TrailingColonThrows(name);
    StoredFails(x => Entry(LineStripping, x), map[], ts);
    assert (x => Entry(LineStripping, x))(ts[j]).Err?;
  }

  class CommandProcessor {
    const registry: CommandRegistry
    var history: seq<CommandLine>
    var commandName: Nullable<string>
    /** A Java `long`. */
    var count: int
    var interactive: bool

    ghost predicate Valid()
      reads this
    {
      LongMin <= count <= LongMax
    }

    constructor (registry: CommandRegistry)
      ensures Valid() && this.registry == registry && history == [] && commandName == Null
      ensures count == 0 && !interactive
    {
      this.registry := registry;
      history := [];
      commandName := Null;
      count := 0;
      interactive := false;
    }

    /** `parseArguments`: a single spaced argument is collapsed and re-split, one
        "--interactive" is removed and raises the sticky interactive flag (before
        anything can throw); then the line is filled. A token that cannot be split
        throws out, leaving the history and the command name as they were. */
    method ParseArguments(args: seq<string>) returns (r: Result<CommandLine>)
      modifies this`interactive, this`history, this`commandName
      ensures interactive == (old(interactive) || SawInteractive(args))
      ensures LineOptions(Tokens(args)).Err? ==>
                r == Err(LineOptions(Tokens(args)).error) && history == old(history) && commandName == old(commandName)
      ensures LineOptions(Tokens(args)).Ok? ==>
                r.Ok? && fresh(r.value) && r.value.options == LineOptions(Tokens(args)).value
                && r.value.arguments == ArgumentTokens(Tokens(args)) && r.value.prompt == DefaultPrompt
                && history == old(history) + [r.value]
                && commandName == CommandNameOf(ArgumentTokens(Tokens(args)))
    {
      var argArray := args;
      if |argArray| == 1 && IndexOf(argArray[0], ' ') > -1 {
        argArray := Split(CollapseWhitespace(argArray[0]), ' ');
      }
      assert argArray == Normalize(args);
      var original := argArray;
      if InteractiveMarker in original {
        original := RemoveFirst(original, InteractiveMarker);
        interactive := true;
      }
      r := FillLine(original);
      if r.Err? {
        return;
      }
      var line := r.value;
      history := history + [line];
      if line.HasCommand() {
        commandName := NonNull(line.CommandName().value);
      } else {
        commandName := Null;
      }
    }

    /** The loop of `parseArguments` over the normalised tokens: a new command line
        gets `setOption` for each token starting with '-' and `addArgument` for every
        other one, in order. */
    static method FillLine(original: seq<string>) returns (r: Result<CommandLine>)
      ensures LineOptions(original).Err? ==> r == Err(LineOptions(original).error)
      ensures LineOptions(original).Ok? ==>
                r.Ok? && fresh(r.value) && r.value.options == LineOptions(original).value
                && r.value.arguments == ArgumentTokens(original) && r.value.prompt == DefaultPrompt
    {
      var line := new CommandLine();
      var i := 0;
      while i < |original|
        invariant 0 <= i <= |original|
        invariant fresh(line) && line.prompt == DefaultPrompt
        invariant LineOptions(original[..i]) == Ok(line.options)
        invariant line.arguments == ArgumentTokens(original[..i])
      {
        var stored := Absorb(line, original, i);
        if stored.Err? {
          return Err(stored.error);
        }
        i := i + 1;
      }
      assert original[..i] == original;
      r := Ok(line);
    }

    /** One iteration of the loop, with its place in the line: the token at `i` is
        added, and a failure there is the failure of the whole line. */
    static method Absorb(line: CommandLine, original: seq<string>, i: nat) returns (r: Result<()>)
      requires i < |original|
      requires LineOptions(original[..i]) == Ok(line.options) && line.arguments == ArgumentTokens(original[..i])
      modifies line`options, line`arguments
      ensures r.Ok? ==> LineOptions(original[..i + 1]) == Ok(line.options)
                        && line.arguments == ArgumentTokens(original[..i + 1])
      ensures r.Err? ==> LineOptions(original) == Err(r.error)
    {
      LineStep(original, i, line.options);
      r := AddToken(line, original[i]);
      if r.Err? {
        LineEscapes(original, i + 1, r.error);
      }
    }

    /** The loop body for one token: `setOption` for a token starting with '-',
        `addArgument` for any other. */
    static method AddToken(line: CommandLine, arg: string) returns (r: Result<()>)
      modifies line`options, line`arguments
      ensures Stored(LineStripping, old(line.options), if IsOptionToken(arg) then [arg] else [])
              == if r.Ok? then Ok(line.options) else Err(r.error)
      ensures line.arguments == old(line.arguments) + (if IsOptionToken(arg) then [] else [arg])
    {
      if IsOptionToken(arg) {
        ghost var before := line.options;
        r := line.SetOption(arg);
        StoredOne(LineStripping, before, arg);
      } else {
        line.AddArgument(arg);
        r := Ok(());
      }
    }

    /** `isExit`: the last command name is "exit" or "quit" in any case; null is not. */
    function IsExit(): (b: bool)
      reads this
      ensures b <==> commandName.NonNull? && (Folded(commandName.value) == "exit" || Folded(commandName.value) == "quit")
    {
      ExitFolded(commandName);
      IsExitName(commandName)
    }

    /** `first()`: increments the 64-bit counter, and answers whether it is now at most
        one, which from a fresh processor is the case on the first call only. */
    method First() returns (b: bool)
      requires Valid()
      modifies this`count
      ensures Valid()
      ensures count == Wrap64(old(count) + 1)
      ensures 0 <= old(count) < LongMax ==> (b <==> old(count) == 0)
      ensures b <==> count <= 1
    {
      count := Wrap64(count + 1);
      b := count <= 1;
    }

    /** `isInteractive`: the flag `parseArguments` raises and never lowers. */
    function IsInteractive(): (b: bool)
      reads this
      ensures b <==> interactive
    {
      interactive
    }

    /** `foundCommand`: false for a null name, otherwise `isRegistered`. */
    function FoundCommand(): (b: bool)
      reads this, registry
      ensures b <==> commandName.NonNull? && commandName.value in registry.commands
    {
      if commandName.Null? then false else registry.IsRegistered(commandName)
    }
  }

  /** One more token of the line adds its option or its argument. */
  lemma TokenStep(original: seq<string>, i: nat)
    requires i < |original|
    ensures OptionTokens(original[..i + 1])
            == OptionTokens(original[..i]) + (if IsOptionToken(original[i]) then [original[i]] else [])
    ensures ArgumentTokens(original[..i + 1])
            == ArgumentTokens(original[..i]) + (if IsOptionToken(original[i]) then [] else [original[i]])
  {
    assert original[..i + 1] == original[..i] + [original[i]];
    PartitionSnoc(original[..i], original[i]);
  }

  /** The options and arguments of the line after one more token, from those before it. */
  lemma LineStep(original: seq<string>, i: nat, options: map<string, string>)
    requires i < |original| && LineOptions(original[..i]) == Ok(options)
    ensures LineOptions(original[..i + 1])
            == Stored(LineStripping, options, if IsOptionToken(original[i]) then [original[i]] else [])
    ensures ArgumentTokens(original[..i + 1])
            == ArgumentTokens(original[..i]) + (if IsOptionToken(original[i]) then [] else [original[i]])
  {
    TokenStep(original, i);
    StoredAppend(LineStripping, map[], OptionTokens(original[..i]),
                 if IsOptionToken(original[i]) then [original[i]] else []);
  }

  /** A failure after the option tokens among the first `i` tokens makes the whole
      line fail with it. */
  lemma LineEscapes(original: seq<string>, i: nat, e: Exception)
    requires i <= |original| && LineOptions(original[..i]) == Err(e)
    ensures LineOptions(original) == Err(e)
  {
    PartitionAppend(original[..i], original[i..]);
    assert original[..i] + original[i..] == original;
    StoredAppend(LineStripping, map[], OptionTokens(original[..i]), OptionTokens(original[i..]));
  }
}
