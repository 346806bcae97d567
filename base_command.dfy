/** `commands.AbstractCommand`: the base of every command. It keeps the configuration
    handed to `configure`, answers the verbose and debug switches from it, and logs
    through the configuration's environment, looking a message up in the resource
    bundle when it has the shape of a bundle key. Every command inherits its three
    options, verbose 'V', debug 'D' and interactive 'I' (see `CommandClasses`). */
module BaseCommand {
  import opened JavaLang
  import opened OptionBinding
  import opened ImplCommandConfig
  import opened ImplEnvironment
  import opened CommandClasses

  // ------------------------------------------------------------ resource keys

  /** `[\w]+(\.[\w]+)+`: two or more words, each separated from the next by one dot. */
  predicate IsResourceKey(m: string)
  {
    var ps := Pieces(m, '.');
    |ps| >= 2 && forall k :: 0 <= k < |ps| ==> IsWord(ps[k])
  }

  /** A key is the dotted join of its words ... */
  lemma KeyIsDottedWords(m: string)
    requires IsResourceKey(m)
    ensures m == JoinWith(Pieces(m, '.'), ".")
  {
    JoinPieces(m, '.');
  }

  /** ... and any two or more words joined by dots are a key with exactly those words. */
  lemma DottedWordsAreKey(ws: seq<string>)
    requires |ws| >= 2 && forall k :: 0 <= k < |ws| ==> IsWord(ws[k])
    ensures IsResourceKey(JoinWith(ws, ".")) && Pieces(JoinWith(ws, "."), '.') == ws
  {
    PiecesOfJoin(ws, '.');
  }

  /** A message holding a character that is neither a word character nor a dot, such
      as the space of a sentence, is logged verbatim. */
  lemma ForeignCharIsNoKey(m: string, j: nat)
    requires j < |m| && m[j] != '.' && !IsWordChar(m[j])
    ensures !IsResourceKey(m)
  {
    if IsResourceKey(m) {
      KeyIsDottedWords(m);
      DottedWordsChars(Pieces(m, '.'));
      assert false;
    }
  }

  /** Words joined by dots hold only word characters and dots. */
  lemma {:induction false} DottedWordsChars(ws: seq<string>)
    requires forall k :: 0 <= k < |ws| ==> IsWord(ws[k])
    ensures forall i :: 0 <= i < |JoinWith(ws, ".")| ==> IsWordChar(JoinWith(ws, ".")[i]) || JoinWith(ws, ".")[i] == '.'
    decreases |ws|
  {
    if |ws| > 1 {
      DottedWordsChars(ws[1..]);
      assert JoinWith(ws, ".") == ws[0] + "." + JoinWith(ws[1..], ".");
    }
  }

  /** So is a message with two dots in a row: the segment between them is empty. */
  lemma {:induction false} EmptySegment(m: string, j: nat)
    requires j + 1 < |m| && m[j] == '.' && m[j + 1] == '.'
    ensures exists k :: 0 <= k < |Pieces(m, '.')| && Pieces(m, '.')[k] == ""
    decreases |m|
  {
    var i := IndexOf(m, '.');
    if i == j {
      FirstDotDoubled(m);
    } else {
      var rest := m[i + 1..];
      assert rest[j - i - 1] == '.' && rest[j - i] == '.';
      EmptySegment(rest, j - i - 1);
      var k :| 0 <= k < |Pieces(rest, '.')| && Pieces(rest, '.')[k] == "";
      assert Pieces(m, '.')[k + 1] == "";
    }
  }

  lemma FirstDotDoubled(m: string)
    requires 0 <= IndexOf(m, '.') < |m| - 1 && m[IndexOf(m, '.') + 1] == '.'
    ensures |Pieces(m, '.')| >= 2 && Pieces(m, '.')[1] == ""
  {
    var rest := m[IndexOf(m, '.') + 1..];
    assert IndexOf(rest, '.') == 0;
  }

  lemma EmptySegmentIsNoKey(m: string, j: nat)
    requires j + 1 < |m| && m[j] == '.' && m[j + 1] == '.'
    ensures !IsResourceKey(m)
  {
    EmptySegment(m, j);
  }

  /** And so is a single word, such as a sub-command name: it has one piece. */
  lemma WordIsNoKey(m: string)
    requires '.' !in m
    ensures !IsResourceKey(m)
  {
    assert IndexOf(m, '.') == -1;
  }

  /** What `log(message, args)` hands to `sysout`: for a bundle key, the bundle's text
      for it formatted with the arguments; for anything else, the message itself. */
  function LogMessage(message: string, args: seq<string>): (m: Message)
    ensures m.Resource? <==> IsResourceKey(message)
    ensures m.Resource? ==> m.key == message && m.args == args
    ensures m.Text? ==> m.text == message
  {
    if IsResourceKey(message) then Resource(message, args) else Text(message)
  }

  /** The arguments of a message that is not a key are dropped: it prints the same
      with or without them, placeholders and all. */
  lemma PlainMessageDropsArguments(message: string, args: seq<string>)
    requires !IsResourceKey(message)
    ensures LogMessage(message, args) == LogMessage(message, []) == Text(message)
    ensures MessageLine(NonNull(LogMessage(message, args))) == Line(WithNewline(message))
  {
  }

  // ------------------------------------------------------------ switches

  /** The answer of `getConfig().isOptionSet(name)`; a command that was never configured
      has a null configuration and the call throws. */
  function OptionSet(config: Nullable<CommandConfig>, name: string): (r: Result<bool>)
    requires config.NonNull? ==> config.value.Valid()
    ensures r.Err? <==> config.Null?
    ensures r.Err? ==> r.error.kind == NullPointer
    ensures r.Ok? ==> (r.value <==> exists o :: o in config.value.options && o.name == name)
  {
    if config.Null? then Err(Exception(NullPointer, Null))
    else
      OptionSetIffFound(config.value, NonNull(name));
      Ok(IsOptionSet(config.value, NonNull(name)))
  }

  /** A configuration whose options were bound from the tokens of a command line has an
      option of a given name set exactly when a declared option of that name is
      selected by some token. */
  lemma SetByTokens(rev: Revision, viable: seq<Option>, tokens: seq<string>, c: CommandConfig, name: string)
    requires Bind(rev, viable, tokens).Ok? && c.options == Bind(rev, viable, tokens).value && c.Valid()
    ensures OptionSet(NonNull(c), name) == Ok(exists o :: o in viable && o.name == name && Matched(o, tokens))
  {
    BoundKeys(rev, viable, tokens);
  }

  /** "-V" anywhere among the option tokens turns verbose output on for a command that
      declares or inherits the verbose switch. */
  lemma ShortVerboseFlag(rev: Revision, viable: seq<Option>, tokens: seq<string>, c: CommandConfig)
    requires AbstractCommandOptions[0] in viable && "-V" in tokens
    requires Bind(rev, viable, tokens).Ok? && c.options == Bind(rev, viable, tokens).value && c.Valid()
    ensures OptionSet(NonNull(c), "verbose") == Ok(true)
  {
    var j :| 0 <= j < |tokens| && tokens[j] == "-V";
    assert Matches(AbstractCommandOptions[0], tokens[j]);
    assert FirstMatch(AbstractCommandOptions[0], tokens).NonNull?;
    SetByTokens(rev, viable, tokens, c, "verbose");
  }

  // ------------------------------------------------------------ the class

  class AbstractCommand {
    var config: Nullable<CommandConfig>

    ghost predicate Valid()
      reads this
    {
      config.NonNull? ==> config.value.Valid()
    }

    constructor ()
      ensures config == Null && Valid()
    {
      config := Null;
    }

    /** `configure(config)`: the configuration is stored first, then the hook runs; the
        default hook does nothing, so the call completes. */
    method Configure(c: CommandConfig) returns (r: Result<()>)
      requires c.Valid()
      modifies this`config
      ensures config == NonNull(c) && Valid()
      ensures r == Ok(())
    {
      config := NonNull(c);
      r := Ok(());
    }

    /** `cleanup()`: nothing to release. */
    method Cleanup() returns (r: Result<()>)
      ensures r == Ok(())
    {
      r := Ok(());
    }

    /** `isVerbose()`. */
    function IsVerbose(): (r: Result<bool>)
      requires Valid()
      reads this
      ensures r.Err? <==> config.Null?
      ensures r.Ok? ==> (r.value <==> exists o :: o in config.value.options && o.name == "verbose")
    {
      OptionSet(config, "verbose")
    }

    /** `isDebug()`. */
    function IsDebug(): (r: Result<bool>)
      requires Valid()
      reads this
      ensures r.Err? <==> config.Null?
      ensures r.Ok? ==> (r.value <==> exists o :: o in config.value.options && o.name == "debug")
    {
      OptionSet(config, "debug")
    }

    /** `log(message, args)` (and `log(message)`, with no arguments) through `env`, the
        configuration's environment: a null message or a command never configured
        throws before anything is printed. */
    method Log(message: Nullable<string>, args: seq<string>, env: EnvironmentImpl) returns (r: Result<()>)
      modifies env`out
      ensures message.Null? || config.Null? ==> r == Err(Exception(NullPointer, Null)) && env.out == old(env.out)
      ensures message.NonNull? && config.NonNull? ==>
                r == Ok(()) && env.out == old(env.out) + [MessageLine(NonNull(LogMessage(message.value, args)))]
    {
      if message.Null? || config.Null? {
        r := Err(Exception(NullPointer, Null));
        return;
      }
      env.SysoutMessage(NonNull(LogMessage(message.value, args)));
      r := Ok(());
    }
  }
}
