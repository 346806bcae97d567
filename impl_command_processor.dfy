/** `CommandProcessorImpl`: turns an argument array into a `CommandLineImpl`, keeps
    every parsed line in its history, remembers whether "--interactive" was ever seen,
    and counts calls of `first()`. */
module ImplCommandProcessor {
  import opened JavaLang
  import opened Tokenizer
  import opened ImplCommandLine

  class CommandProcessorImpl {
    /** A Java `long`. */
    var count: int
    var interactive: bool
    var history: seq<CommandLineImpl>

    ghost predicate Valid()
      reads this
    {
      LongMin <= count <= LongMax
    }

    constructor ()
      ensures Valid() && count == 0 && !interactive && history == []
    {
      count := 0;
      interactive := false;
      history := [];
    }

    /** `parseArguments`: the new line holds the option tokens and the arguments of
        `Tokens(args)` in order; it is appended to the history, and the interactive
        flag is raised, never lowered. */
    method ParseArguments(args: seq<string>) returns (line: CommandLineImpl)
      modifies this`interactive, this`history
      ensures fresh(line)
      ensures line.options == OptionTokens(Tokens(args))
      ensures line.arguments == ArgumentTokens(Tokens(args))
      ensures line.prompt == DefaultPrompt
      ensures history == old(history) + [line]
      ensures history != [] && history[|history| - 1] == line
      ensures interactive == (old(interactive) || SawInteractive(args))
    {
      var argArray := args;
      if |argArray| == 1 && IndexOf(argArray[0], ' ') > -1 {
        argArray := Split(CollapseWhitespace(argArray[0]), ' ');
      }
      assert argArray == Normalize(args);
      var arguments := argArray;
      if InteractiveMarker in arguments {
        arguments := RemoveFirst(arguments, InteractiveMarker);
        interactive := true;
      }
      line := FillLine(arguments);
      history := history + [line];
    }

    /** The loop of `parseArguments` over the normalised tokens: a new command line
        receives each token starting with '-' as an option and every other one as an
        argument, in order. */
    static method FillLine(arguments: seq<string>) returns (line: CommandLineImpl)
      ensures fresh(line)
      ensures line.options == OptionTokens(arguments) && line.arguments == ArgumentTokens(arguments)
      ensures line.prompt == DefaultPrompt
    {
      line := new CommandLineImpl();
      var i := 0;
      while i < |arguments|
        invariant 0 <= i <= |arguments|
        invariant line.options == OptionTokens(arguments[..i])
        invariant line.arguments == ArgumentTokens(arguments[..i])
        invariant line.prompt == DefaultPrompt
      {
        var arg := arguments[i];
        PartitionPrefix(arguments, i);
        if |arg| > 0 && arg[0] == '-' {
          line.AddOption(arg);
        } else {
          line.AddArgument(arg);
        }
        i := i + 1;
      }
      assert arguments[..i] == arguments;
    }

    /** `isExit`: false before any line was parsed; otherwise whether the last line's
        command name is "exit" or "quit", ignoring case (null is neither). */
    function IsExit(): (b: bool)
      reads this, history
      ensures |history| == 0 ==> !b
      ensures |history| > 0 && |history[|history| - 1].arguments| == 0 ==> !b
      ensures |history| > 0 && |history[|history| - 1].arguments| > 0 ==>
        (b <==> IsExitName(NonNull(history[|history| - 1].arguments[0])))
    {
      if |history| < 1 then false
      else IsExitName(history[|history| - 1].CommandName())
    }

    /** `first()`: increments the 64-bit counter, and answers whether it is now at most
        one, which from a fresh processor is the case on the first call only. */
    method First() returns (b: bool)
      requires Valid()
      modifies this`count
      ensures Valid()
      ensures count == Wrap64(old(count) + 1)
      ensures 0 <= old(count) < LongMax ==> (b <==> old(count) == 0)
      ensures b <==> count <= 1
    {
      count := Wrap64(count + 1);
      b := count <= 1;
    }
  }
}
