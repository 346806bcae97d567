/** `CommandLineImpl`: one parsed line, with its option tokens and positional
    arguments appended in place, and a prompt. */
module ImplCommandLine {
  import opened JavaLang
  import opened Tokenizer

  class CommandLineImpl {
    var arguments: seq<string>
    var options: seq<string>
    var prompt: string

    constructor ()
      ensures arguments == [] && options == [] && prompt == DefaultPrompt
    {
      prompt := DefaultPrompt;
      arguments := [];
      options := [];
    }

    method SetPrompt(p: Nullable<string>)
      modifies this`prompt
      ensures prompt == PromptOrDefault(p)
    {
      if p.Null? || p.value == "" {
        prompt := DefaultPrompt;
      } else {
        prompt := p.value;
      }
    }

    method AddOption(option: string)
      modifies this`options
      ensures options == old(options) + [option]
    {
      options := options + [option];
    }

    method AddArgument(argument: string)
      modifies this`arguments
      ensures arguments == old(arguments) + [argument]
    {
      arguments := arguments + [argument];
    }

    /** `getCommandName`: null on a line without arguments. */
    function CommandName(): (r: Nullable<string>)
      reads this
      ensures r.Null? <==> |arguments| == 0
      ensures r.NonNull? ==> r.value == arguments[0]
    {
      CommandNameOf(arguments)
    }

    function HasCommand(): (b: bool)
      reads this
      ensures b <==> CommandName().NonNull?
    {
      |arguments| >= 1
    }

    /** `getArguments`: the arguments between the command name and the last one. */
    function Arguments(): (r: seq<string>)
      reads this
      ensures |r| == if |arguments| >= 2 then |arguments| - 2 else 0
      ensures forall k :: 0 <= k < |r| ==> r[k] == arguments[k + 1]
    {
      ArgumentsView(arguments)
    }
  }
}
