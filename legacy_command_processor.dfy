/** The older `CommandProcessor`: the same parsing as `CommandProcessorImpl`, but its
    `isExit` has no guard, so it throws before any line was parsed or when the last
    line has no command. */
module LegacyCommandProcessor {
  import opened JavaLang
  import opened Tokenizer
  import opened LegacyCommandLine

  class CommandProcessor {
    /** A Java `long`. */
    var count: int
    var interactive: bool
    var history: seq<CommandLine>

    ghost predicate Valid()
      reads this
    {
      LongMin <= count <= LongMax
    }

    constructor ()
      ensures Valid() && count == 0 && !interactive && history == []
    {
      count := 0;
      interactive := false;
      history := [];
    }

    method ParseArguments(args: seq<string>) returns (line: CommandLine)
      modifies this`interactive, this`history
      ensures fresh(line)
      ensures line.options == OptionTokens(Tokens(args))
      ensures line.arguments == ArgumentTokens(Tokens(args))
      ensures line.prompt == DefaultPrompt
      ensures history == old(history) + [line]
      ensures history != [] && history[|history| - 1] == line
      ensures interactive == (old(interactive) || SawInteractive(args))
    {
      var argArray := args;
      if |argArray| == 1 && IndexOf(argArray[0], ' ') > -1 {
        argArray := Split(CollapseWhitespace(argArray[0]), ' ');
      }
      assert argArray == Normalize(args);
      var arguments := argArray;
      if InteractiveMarker in arguments {
        arguments := RemoveFirst(arguments, InteractiveMarker);
        interactive := true;
      }
      line := FillLine(arguments);
      history := history + [line];
    }

    /** The loop of `parseArguments` over the normalised tokens: a new command line
        receives each token starting with '-' as an option and every other one as an
        argument, in order. */
    static method FillLine(arguments: seq<string>) returns (line: CommandLine)
      ensures fresh(line)
      ensures line.options == OptionTokens(arguments) && line.arguments == ArgumentTokens(arguments)
      ensures line.prompt == DefaultPrompt
    {
      line := new CommandLine();
      var i := 0;
      while i < |arguments|
        invariant 0 <= i <= |arguments|
        invariant line.options == OptionTokens(arguments[..i])
        invariant line.arguments == ArgumentTokens(arguments[..i])
        invariant line.prompt == DefaultPrompt
      {
        var arg := arguments[i];
        PartitionPrefix(arguments, i);
        if |arg| > 0 && arg[0] == '-' {
          line.AddOption(arg);
        } else {
          line.AddArgument(arg);
        }
        i := i + 1;
      }
      assert arguments[..i] == arguments;
    }

    /** `isExit`: `history.getLast()` throws on an empty history and `getCommandName()`
        on a line without arguments; otherwise exit/quit ignoring case. */
    function IsExit(): (r: Result<bool>)
      reads this, history
      ensures |history| == 0 ==> r.Err? && r.error.kind == NoSuchElement
      ensures |history| > 0 && |history[|history| - 1].arguments| == 0 ==> r.Err? && r.error.kind == IndexOutOfBounds
      ensures |history| > 0 && |history[|history| - 1].arguments| > 0 ==>
        r == Ok(IsExitName(NonNull(history[|history| - 1].arguments[0])))
    {
      if |history| == 0 then Err(Exception(NoSuchElement, Null))
      else
        var name := history[|history| - 1].CommandName();
        if name.Err? then Err(name.error) else Ok(IsExitName(NonNull(name.value)))
    }

    method First() returns (b: bool)
      requires Valid()
      modifies this`count
      ensures Valid()
      ensures count == Wrap64(old(count) + 1)
      ensures 0 <= old(count) < LongMax ==> (b <==> old(count) == 0)
      ensures b <==> count <= 1
    {
      count := Wrap64(count + 1);
      b := count <= 1;
    }
  }
}
