/** The older `CommandLine` value class: as `CommandLineImpl`, except that asking an
    empty line for its command name throws instead of answering null. */
module LegacyCommandLine {
  import opened JavaLang
  import opened Tokenizer

  class CommandLine {
    var arguments: seq<string>
    var options: seq<string>
    var prompt: string

    constructor ()
      ensures arguments == [] && options == [] && prompt == DefaultPrompt
    {
      prompt := DefaultPrompt;
      arguments := [];
      options := [];
    }

    method SetPrompt(p: Nullable<string>)
      modifies this`prompt
      ensures prompt == PromptOrDefault(p)
    {
      if p.Null? || p.value == "" {
        prompt := DefaultPrompt;
      } else {
        prompt := p.value;
      }
    }

    method AddOption(option: string)
      modifies this`options
      ensures options == old(options) + [option]
    {
      options := options + [option];
    }

    method AddArgument(argument: string)
      modifies this`arguments
      ensures arguments == old(arguments) + [argument]
    {
      arguments := arguments + [argument];
    }

    /** `getCommandName` is `arguments.get(0)`, which fails on an empty line. */
    function CommandName(): (r: Result<string>)
      reads this
      ensures r.Err? <==> |arguments| == 0
      ensures r.Err? ==> r.error.kind == IndexOutOfBounds
      ensures r.Ok? ==> r.value == arguments[0]
    {
      if |arguments| == 0 then Throw(IndexOutOfBounds, "Index: 0, Size: 0") else Ok(arguments[0])
    }

    function HasCommand(): (b: bool)
      reads this
      ensures b <==> CommandName().Ok?
    {
      |arguments| > 0
    }

    /** `getArguments`: `subList(1, size - 1)`, so the last argument is dropped too. */
    function Arguments(): (r: seq<string>)
      reads this
      ensures |r| == if |arguments| >= 2 then |arguments| - 2 else 0
      ensures forall k :: 0 <= k < |r| ==> r[k] == arguments[k + 1]
    {
      ArgumentsView(arguments)
    }
  }
}
