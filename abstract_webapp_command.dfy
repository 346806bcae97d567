/** `commands.AbstractWebappCommand`: the base of commands that run one fixed operation,
    given to the constructor, on the applications of the selected Host whose docBase
    equals the "webapp" option, and then print the status report. */
module AbstractWebappCommand {
  import opened JavaLang
  import opened OptionBinding
  import opened ImplCommandConfig
  import opened CommandClasses
  import opened JmxQuery
  import opened HostQuery

  /** What `execute()` does for the operation `command`. */
  function AbstractWebappRun(command: string, c: CommandConfig, mb: Mbeans, status: Result<()>): Run
    requires c.Valid()
  {
    AsCommand(WebappsRun(c, mb, command, status))
  }

  /** A completed run invoked the fixed operation on exactly the children whose docBase
      equals the "webapp" option, and the status report completed after it. */
  lemma CompletedRunInvokesMatching(command: string, c: CommandConfig, mb: Mbeans, status: Result<()>)
    requires c.Valid() && AbstractWebappRun(command, c, mb, status).result.Ok?
    ensures status.Ok?
    ensures var children := ChildNames(Attribute(mb, FindHost(c, mb).host.value, "children").0);
            var docBase := GetOptionValue(c, NonNull("webapp"));
            FindHost(c, mb).host.Ok? && children.Ok? && (docBase.NonNull? ==>
              AbstractWebappRun(command, c, mb, status).invoked == Calls(Matching(mb, docBase.value, children.value), command))
  {
    WebappsRunCompleted(c, mb, command, status);
  }

  /** Unless exactly one Host is found nothing is invoked, and a wrong count is thrown
      as a CommandException carrying the count. */
  lemma OneHostRequired(command: string, c: CommandConfig, mb: Mbeans, status: Result<()>)
    requires c.Valid() && FindHost(c, mb).host.Err?
    ensures AbstractWebappRun(command, c, mb, status)
            == Run(Err(Exception(ExceptionKind.Command, FindHost(c, mb).host.error.message)), FindHost(c, mb).logged, [])
  {
    NoHostNoInvocation(c, mb, command, status);
  }

  /** The status command declares "engine" and "hostname" with "*", and the webapp
      option is declared twice with "". */
  lemma AbstractWebappOptionDefaults()
    ensures forall o :: o in AbstractWebappCommandOptions + StatusCommandOptions + AbstractJMXCommandOptions + AbstractCommandOptions ==>
              (o.name == "engine" ==> o.value == "*") && (o.name == "hostname" ==> o.value == "*")
              && (o.name == "webapp" ==> o.value == "")
  {
    InheritedNames();
    StatusOptionDefaults();
    assert forall o :: o in AbstractWebappCommandOptions ==> o.name == "webapp" && o.value == "";
  }

  /** After binding the options of a command built on this class, the pattern is always
      "*:type=Host,host=*", since the only "engine" and "hostname" it has default to
      "*"; and "webapp" (required) answers its declared default "". */
  lemma BoundSelection(rev: Revision, tokens: seq<string>, c: CommandConfig)
    requires WellFormed(Commands)
    requires Bind(rev, OptionsOf(Commands, AbstractWebappCommandClass), tokens).Ok?
    requires c.options == Bind(rev, OptionsOf(Commands, AbstractWebappCommandClass), tokens).value && c.Valid()
    ensures HostPattern(c) == "*" + HostKeys + "*"
    ensures GetOptionValue(c, NonNull("webapp")) == NonNull("")
  {
    var viable := OptionsOf(Commands, AbstractWebappCommandClass);
    AbstractWebappCommandOptionList();
    AbstractWebappOptionDefaults();
    assert AbstractWebappCommandOptions[0] in viable;
    RequiredIsSet(rev, viable, tokens, c, AbstractWebappCommandOptions[0]);
    BoundDeclares(rev, viable, tokens, c, "webapp", "");
    BoundDeclares(rev, viable, tokens, c, "engine", "*");
    BoundDeclares(rev, viable, tokens, c, "hostname", "*");
    PatternOfDeclared(c, "*", "*");
  }

  class AbstractWebappCommand {
    const command: string

    constructor (command: string)
      ensures this.command == command
    {
      this.command := command;
    }

    /** `execute()`, with the command configured with `c`, the server answering as `mb`
        and the inherited status report ending as `status`. */
    method Execute(c: CommandConfig, mb: Mbeans, status: Result<()>) returns (run: Run)
      requires c.Valid()
      ensures run == AbstractWebappRun(command, c, mb, status)
    {
      run := ApplyToWebapps(c, mb, command, status);
      run := AsCommand(run);
    }
  }
}
