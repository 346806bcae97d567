/** The `org.apache` revision's `CommandLine`: the parsed form of one line, holding
    the options in a sorted map (see `ApacheOptions`) and the arguments in order. */
module ApacheCommandLine {
  import opened JavaLang
  import opened Tokenizer
  import opened ApacheOptions

  class CommandLine {
    /** The sorted map of options: the order of its keys is not observable through
        this class, so a map models it. */
    var options: map<string, string>
    var arguments: seq<string>
    var prompt: string

    constructor ()
      ensures prompt == DefaultPrompt && options == map[] && arguments == []
    {
      prompt := DefaultPrompt;
      options := map[];
      arguments := [];
    }

    /** `setPrompt`: null or empty selects "> ". */
    method SetPrompt(p: Nullable<string>)
      modifies this`prompt
      ensures prompt == PromptOrDefault(p)
    {
      if p.Null? || p.value == "" {
        prompt := DefaultPrompt;
      } else {
        prompt := p.value;
      }
    }

    /** `setOption`: strips "--" or else "-" and stores the rest; an option whose ':'
        is followed by nothing but ':' throws from `pair[1]` and stores nothing. */
    method SetOption(option: string) returns (r: Result<()>)
      modifies this`options
      ensures r.Ok? <==> Entry(LineStripping, option).Ok?
      ensures r.Err? ==> r.error == Entry(LineStripping, option).error && options == old(options)
      ensures r.Ok? ==> Stored(LineStripping, old(options), [option]) == Ok(options)
    {
      var stripped := option;
      if StartsWith(stripped, "--") {
        stripped := stripped[2..];
      } else if StartsWith(stripped, "-") {
        stripped := stripped[1..];
      }
      assert stripped == Unprefixed(LineStripping, option);
      StoredOne(LineStripping, options, option);
      if IndexOf(stripped, ':') > -1 {
        var pair := Split(stripped, ':');
        if |pair| < 2 {
          return Throw(IndexOutOfBounds, if |pair| == 0 then "0" else "1");
        }
        options := options[pair[0] := pair[1]];
      } else {
        options := options[stripped := "true"];
      }
      r := Ok(());
    }

    /** `isOptionSet`: whether `getOption` answers a value. */
    function IsOptionSet(option: string): (b: bool)
      reads this
      ensures b <==> GetOption(option).NonNull?
    {
      option in options
    }

    /** `getOption`: the stored value, or null. */
    function GetOption(option: string): (r: Nullable<string>)
      reads this
      ensures r.NonNull? <==> option in options
      ensures r.NonNull? ==> r.value == options[option]
    {
      if option in options then NonNull(options[option]) else Null
    }

    /** `isVerbose`: whether a "verbose" option was stored, whatever its value. */
    function IsVerbose(): (b: bool)
      reads this
      ensures b <==> GetOption("verbose").NonNull?
    {
      IsOptionSet("verbose")
    }

    method AddArgument(argument: string)
      modifies this`arguments
      ensures arguments == old(arguments) + [argument]
    {
      arguments := arguments + [argument];
    }

    /** `getCommandName` is `arguments.get(0)`, which throws on a line without
        arguments. */
    function CommandName(): (r: Result<string>)
      reads this
      ensures r.Err? <==> arguments == []
      ensures r.Err? ==> r.error.kind == IndexOutOfBounds
      ensures r.Ok? ==> r.value == arguments[0]
    {
      if |arguments| == 0 then Throw(IndexOutOfBounds, "Index: 0, Size: 0") else Ok(arguments[0])
    }

    /** `hasCommand`: whether `getCommandName` answers without throwing. */
    function HasCommand(): (b: bool)
      reads this
      ensures b <==> CommandName().Ok?
    {
      |arguments| > 0
    }
  }
}
