/** The `org.apache` revision's `Environment`: the console, the prompt and the options
    of one parsed command line. */
module ApacheEnvironment {
  import opened JavaLang
  import opened Tokenizer
  import opened ImplEnvironment
  import opened ApacheOptions

  /** `System.console()`, one object shared by every environment: the lines it will
      still return (then end of input, where `readLine` gives null) and what it has
      printed. */
  class Console {
    var input: seq<string>
    var out: seq<Printed>

    constructor (input: seq<string>)
      ensures this.input == input && out == []
    {
      this.input := input;
      out := [];
    }
  }

  class Environment {
    var options: map<string, string>
    var prompt: string
    const console: Console

    constructor (console: Console)
      ensures prompt == DefaultPrompt && options == map[] && this.console == console
    {
      prompt := DefaultPrompt;
      options := map[];
      this.console := console;
    }

    /** `readPrompt`: shows the prompt and reads a line, collapses its whitespace and
        splits it at the spaces; at the end of input `readLine` gives null and the
        collapse throws a `NullPointerException`. */
    method ReadPrompt() returns (r: Result<seq<string>>)
      modifies console
      ensures console.out == old(console.out) + [Line(prompt)]
      ensures old(console.input) == [] ==> r == Err(Exception(NullPointer, Null)) && console.input == []
      ensures old(console.input) != [] ==>
                r == Ok(LineTokens(old(console.input)[0])) && console.input == old(console.input)[1..]
    {
      console.out := console.out + [Line(prompt)];
      if console.input == [] {
        return Err(Exception(NullPointer, Null));
      }
      var line := console.input[0];
      console.input := console.input[1..];
      line := CollapseWhitespace(line);
      if line == "" {
        return Ok([]);
      }
      r := Ok(Split(line, ' '));
    }

    /** `sysout(fmt, args)`: `console.format` formats even without arguments, and a
        bad format escapes as an `IllegalFormatException`, printing nothing. */
    method Sysout(fmt: string, args: seq<string>) returns (r: Result<()>)
      modifies console`out
      ensures var f := Format(fmt, args, 0);
              (r.Ok? <==> f.Ok?) && (f.Ok? ==> console.out == old(console.out) + [Line(f.value)])
              && (f.Err? ==> r == Err(f.error) && console.out == old(console.out))
    {
      var f := Format(fmt, args, 0);
      if f.Err? {
        return Err(f.error);
      }
      console.out := console.out + [Line(f.value)];
      r := Ok(());
    }

    /** `sysout(Throwable)`: the stack trace goes to standard output. */
    method SysoutThrowable(e: Exception)
      modifies console`out
      ensures console.out == old(console.out) + [StackTrace(e)]
    {
      console.out := console.out + [StackTrace(e)];
    }

    /** `setOption`: strips a leading "--" only, so "-x" is stored under "-x"; an
        option whose ':' is followed by nothing but ':' throws and stores nothing. */
    method SetOption(option: string) returns (r: Result<()>)
      modifies this`options
      ensures r.Ok? <==> Entry(EnvironmentStripping, option).Ok?
      ensures r.Err? ==> r.error == Entry(EnvironmentStripping, option).error && options == old(options)
      ensures r.Ok? ==> Stored(EnvironmentStripping, old(options), [option]) == Ok(options)
    {
      var stripped := option;
      if StartsWith(stripped, "--") {
        stripped := stripped[2..];
      }
      assert stripped == Unprefixed(EnvironmentStripping, option);
      StoredOne(EnvironmentStripping, options, option);
      if IndexOf(stripped, ':') > -1 {
        var pair := Split(stripped, ':');
        if |pair| < 2 {
          return Throw(IndexOutOfBounds, if |pair| == 0 then "0" else "1");
        }
        options := options[pair[0] := pair[1]];
      } else {
        options := options[stripped := "true"];
      }
      r := Ok(());
    }

    /** `isOptionSet`: whether `getOption` answers a value. */
    function IsOptionSet(option: string): (b: bool)
      reads this
      ensures b <==> GetOption(option).NonNull?
    {
      option in options
    }

    /** `getOption`: the stored value, or null. */
    function GetOption(option: string): (r: Nullable<string>)
      reads this
      ensures r.NonNull? <==> option in options
      ensures r.NonNull? ==> r.value == options[option]
    {
      if option in options then NonNull(options[option]) else Null
    }

    /** `setPrompt`: null or empty selects "> ". */
    method SetPrompt(p: Nullable<string>)
      modifies this`prompt
      ensures prompt == PromptOrDefault(p)
    {
      if p.Null? || p.value == "" {
        prompt := DefaultPrompt;
      } else {
        prompt := p.value;
      }
    }
  }
}
