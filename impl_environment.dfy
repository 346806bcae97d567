/** `EnvironmentImpl`: the console the commands talk to. The console's input is the
    sequence of lines it will still return (then end of input, where `readLine` gives
    null); what it prints is recorded in `out`. */
module ImplEnvironment {
  import opened JavaLang
  import opened Tokenizer

  /** One thing printed on standard output: literal text, a text looked up in the
      resource bundle (whose contents are not part of this model), or the stack trace
      of a caught exception. */
  datatype Printed = Line(text: string) | Localized(key: string, args: seq<string>) | StackTrace(error: Exception)

  // -------------------------------------------------------------- String.format

  /** `String.format` for the conversions the dispatch engine uses: "%s" takes the
      next argument, "%n" is a line separator, "%%" a percent sign. Any other
      conversion, a trailing '%', or a missing argument is an `IllegalFormatException`,
      an `IllegalArgumentException`. Unused arguments are ignored. */
  function Format(f: string, args: seq<string>, next: nat): (r: Result<string>)
    ensures '%' !in f ==> r == Ok(f)
    decreases |f|
  {
    if |f| == 0 then Ok("")
    else if f[0] != '%' then
      var rest := Format(f[1..], args, next);
      assert [f[0]] + f[1..] == f;
      if rest.Err? then rest else Ok([f[0]] + rest.value)
    else if |f| == 1 then Throw(IllegalArgument, "Unknown format conversion: '%'")
    else
      var conversion := f[1];
      if conversion == 's' then
        if next < |args| then
          var rest := Format(f[2..], args, next + 1);
          if rest.Err? then rest else Ok(args[next] + rest.value)
        else Throw(IllegalArgument, "Format specifier '%s'")
      else if conversion == 'n' || conversion == '%' then
        var rest := Format(f[2..], args, next);
        if rest.Err? then rest else Ok([if conversion == 'n' then '\n' else '%'] + rest.value)
      else Throw(IllegalArgument, "Conversion = '" + [conversion] + "'")
  }

  /** Literal text before the first conversion is copied through. */
  lemma {:induction false} FormatLiteralPrefix(a: string, t: string, args: seq<string>, next: nat)
    requires '%' !in a
    ensures Format(a + t, args, next).Ok? <==> Format(t, args, next).Ok?
    ensures Format(a + t, args, next).Ok? ==> Format(a + t, args, next).value == a + Format(t, args, next).value
    decreases |a|
  {
    if |a| > 0 {
      assert (a + t)[0] == a[0];
      assert (a + t)[1..] == a[1..] + t;
      FormatLiteralPrefix(a[1..], t, args, next);
      if Format(t, args, next).Ok? {
        assert [a[0]] + (a[1..] + Format(t, args, next).value) == a + Format(t, args, next).value;
      }
    } else {
      assert a + t == t;
    }
  }

  /** A format with a single "%s" between two literal parts. */
  lemma OneConversion(a: string, b: string, x: string)
    requires '%' !in a && '%' !in b
    ensures Format(a + "%s" + b, [x], 0) == Ok(a + x + b)
  {
    FormatLiteralPrefix(a, "%s" + b, [x], 0);
    var t := "%s" + b;
    assert t[0] == '%' && t[1] == 's' && t[2..] == b;
    assert Format(t, [x], 0) == Ok(x + b);
    assert a + "%s" + b == a + t;
    assert a + (x + b) == a + x + b;
  }

  /** A successful format of a text ending in a line feed also ends in one: that line
      feed cannot belong to a conversion. */
  lemma {:induction false} FormatKeepsNewline(f: string, args: seq<string>, next: nat)
    requires |f| > 0 && f[|f| - 1] == '\n'
    requires Format(f, args, next).Ok?
    ensures EndsWith(Format(f, args, next).value, "\n")
    decreases |f|
  {
    var r := Format(f, args, next).value;
    if f[0] != '%' {
      if |f| > 1 {
        FormatKeepsNewline(f[1..], args, next);
      }
    } else {
      var conversion := f[1];
      if |f| == 2 {
        assert false;
      }
      if conversion == 's' {
        FormatKeepsNewline(f[2..], args, next + 1);
      } else {
        FormatKeepsNewline(f[2..], args, next);
      }
    }
  }

  // ------------------------------------------------------------------------ sysout

  function WithNewline(fmt: string): (r: string)
    ensures EndsWith(r, "\n")
    ensures r == fmt || r == fmt + "\n"
    ensures EndsWith(fmt, "\n") <==> r == fmt
  {
    if EndsWith(fmt, "\n") then fmt else fmt + "\n"
  }

  /** What `sysout(fmt, args)` prints: the format gets a trailing line feed if it lacks
      one and is formatted only when there are arguments; a failure prints "Error: "
      and the (newline-terminated) format on a line of its own. A null format fails
      inside the same `try`, so it prints "Error: null". */
  function SysoutText(fmt: Nullable<string>, args: seq<string>): (r: string)
    ensures EndsWith(r, "\n")
    ensures fmt.Null? ==> r == "Error: null\n"
    ensures fmt.NonNull? && |args| == 0 ==> r == WithNewline(fmt.value)
  {
    if fmt.Null? then "Error: null\n"
    else
      var f := WithNewline(fmt.value);
      if |args| > 0 then
        var formatted := Format(f, args, 0);
        if formatted.Ok? then
          FormatKeepsNewline(f, args, 0);
          formatted.value
        else "Error: " + f + "\n"
      else f
  }

  /** The not-found message every dispatch loop prints. */
  lemma NotFoundText(name: string)
    ensures SysoutText(NonNull("Command '%s' not found\n"), [name]) == "Command '" + name + "' not found\n"
  {
    var a := "Command '";
    var b := "' not found\n";
    assert "Command '%s' not found\n" == a + "%s" + b;
    assert '%' !in a && '%' !in b;
    OneConversion(a, b, name);
  }

  /** A format without conversions prints as it is, whatever the arguments. */
  lemma ArgumentsUnused(fmt: string, args: seq<string>)
    requires '%' !in fmt
    ensures SysoutText(NonNull(fmt), args) == WithNewline(fmt)
  {
    assert '%' !in WithNewline(fmt);
  }

  /** `sysout(text)` with no arguments, for a text that is literal, looked up in the
      resource bundle, or null (`getMessage()` of an exception without a message). */
  function MessageLine(m: Nullable<Message>): (p: Printed)
    ensures m.Null? ==> p == Line("Error: null\n")
    ensures m.NonNull? && m.value.Text? ==> p == Line(WithNewline(m.value.text))
    ensures m.NonNull? && m.value.Resource? ==> p == Localized(m.value.key, m.value.args)
  {
    match m
    case Null => Line(SysoutText(Null, []))
    case NonNull(Text(s)) => Line(SysoutText(NonNull(s), []))
    case NonNull(Resource(key, args)) => Localized(key, args)
  }

  // ---------------------------------------------------------------------- readPrompt

  /** A line read from the console: whitespace runs become one space; an empty line
      gives no tokens, any other is split on ' '. */
  function LineTokens(line: string): seq<string>
  {
    var collapsed := CollapseWhitespace(line);
    if collapsed == "" then [] else Split(collapsed, ' ')
  }

  /** No token holds whitespace, and only the first can be empty (a line that starts
      with whitespace). */
  lemma LineTokensClean(line: string)
    ensures forall k, j :: 0 <= k < |LineTokens(line)| && 0 <= j < |LineTokens(line)[k]|
              ==> !IsWhitespace(LineTokens(line)[k][j])
    ensures forall k :: 0 < k < |LineTokens(line)| ==> LineTokens(line)[k] != ""
  {
    var c := CollapseWhitespace(line);
    CollapseShape(line);
    if c != "" && ' ' in c {
      PiecesShape(c);
    }
  }

  // ----------------------------------------------------------------------- the class

  class EnvironmentImpl {
    var prompt: string
    /** The lines the console has still to return. */
    var input: seq<string>
    var out: seq<Printed>

    constructor (input: seq<string>)
      ensures prompt == DefaultPrompt && this.input == input && out == []
    {
      prompt := DefaultPrompt;
      this.input := input;
      out := [];
    }

    /** `setPrompt`: null or empty selects "> ". */
    method SetPrompt(p: Nullable<string>)
      modifies this`prompt
      ensures prompt == PromptOrDefault(p)
    {
      if p.Null? || p.value == "" {
        prompt := DefaultPrompt;
      } else {
        prompt := p.value;
      }
    }

    method Sysout(fmt: Nullable<string>, args: seq<string>)
      modifies this`out
      ensures out == old(out) + [Line(SysoutText(fmt, args))]
    {
      if fmt.Null? {
        out := out + [Line("Error: null\n")];
        return;
      }
      var f := fmt.value;
      if !EndsWith(f, "\n") {
        f := f + "\n";
      }
      if |args| > 0 {
        var formatted := Format(f, args, 0);
        if formatted.Err? {
          out := out + [Line("Error: " + f + "\n")];
          return;
        }
        f := formatted.value;
      }
      out := out + [Line(f)];
    }

    /** `sysout(text)`. */
    method SysoutMessage(m: Nullable<Message>)
      modifies this`out
      ensures out == old(out) + [MessageLine(m)]
    {
      out := out + [MessageLine(m)];
    }

    /** `sysout(Throwable)`: the stack trace goes to standard output. */
    method SysoutThrowable(e: Exception)
      modifies this`out
      ensures out == old(out) + [StackTrace(e)]
    {
      out := out + [StackTrace(e)];
    }

    /** `readPrompt(prompt)`: shows the prompt and reads a line; at the end of input
        `readLine` gives null and the collapse throws a `NullPointerException`. */
    method ReadPromptWith(p: string) returns (r: Result<seq<string>>)
      modifies this`input, this`out
      ensures out == old(out) + [Line(p)]
      ensures old(input) == [] ==> r == Err(Exception(NullPointer, Null)) && input == []
      ensures old(input) != [] ==> r == Ok(LineTokens(old(input)[0])) && input == old(input)[1..]
    {
      out := out + [Line(p)];
      if input == [] {
        return Err(Exception(NullPointer, Null));
      }
      var line := input[0];
      input := input[1..];
      line := CollapseWhitespace(line);
      if line == "" {
        return Ok([]);
      }
      r := Ok(Split(line, ' '));
    }

    /** `readPrompt()`: with the current prompt. */
    method ReadPrompt() returns (r: Result<seq<string>>)
      modifies this`input, this`out
      ensures out == old(out) + [Line(prompt)]
      ensures old(input) == [] ==> r == Err(Exception(NullPointer, Null)) && input == []
      ensures old(input) != [] ==> r == Ok(LineTokens(old(input)[0])) && input == old(input)[1..]
    {
      r := ReadPromptWith(prompt);
    }
  }
}
