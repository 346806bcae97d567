/** `commands.WebappCommand` ("webapp"): start, stop or reload the applications of the
    one selected Host whose docBase equals the "webapp" option, then print the status
    report it inherits from the status command. */
module WebappCommand {
  import opened JavaLang
  import opened OptionBinding
  import opened ImplCommandConfig
  import opened CommandClasses
  import opened JmxQuery
  import opened HostQuery

  const SubCommandRequired: string := "Sub-command required: start|stop|reload"

  /** The sub-command set the constructor fills. */
  const SubCommands: set<string> := {"start", "stop", "reload"}

  function Thrown(message: string): Exception
  {
    Exception(ExceptionKind.Command, NonNull(Text(message)))
  }

  /** What `execute()` does: the sub-command is checked first, and is itself the name
      of the operation invoked. `status` is how the inherited report ends. */
  function WebappRun(commandSet: set<string>, c: CommandConfig, mb: Mbeans, status: Result<()>): Run
    requires c.Valid()
  {
    AsCommand(
      if c.arguments == [] then Run(Err(Thrown(SubCommandRequired)), [], [])
      else if c.arguments[0] !in commandSet then Run(Err(Thrown("Unknown command " + c.arguments[0])), [], [])
      else WebappsRun(c, mb, c.arguments[0], status))
  }

  /** Without arguments, or with a first argument outside {start, stop, reload}, nothing
      is queried, logged or invoked. */
  lemma SubCommandChecked(c: CommandConfig, mb: Mbeans, status: Result<()>)
    requires c.Valid()
    ensures c.arguments == [] ==> WebappRun(SubCommands, c, mb, status) == Run(Err(Thrown(SubCommandRequired)), [], [])
    ensures c.arguments != [] && c.arguments[0] !in {"start", "stop", "reload"} ==>
              WebappRun(SubCommands, c, mb, status) == Run(Err(Thrown("Unknown command " + c.arguments[0])), [], [])
  {
  }

  /** Every invocation made is of the sub-command typed, on a child of the one Host
      found: the server must have reported exactly one Host for the pattern. */
  lemma InvokesSubCommandOnOneHost(commandSet: set<string>, c: CommandConfig, mb: Mbeans, status: Result<()>)
    requires c.Valid()
    ensures var r := WebappRun(commandSet, c, mb, status);
            r.invoked != [] ==>
              c.arguments != [] && c.arguments[0] in commandSet
              && FindHost(c, mb).host.Ok?
              && |mb.queryNames(mb.objectName(HostPattern(c)).value).value| == 1
              && forall k :: 0 <= k < |r.invoked| ==> r.invoked[k].operation == c.arguments[0]
  {
    FindHostCases(c, mb);
    var r := WebappRun(commandSet, c, mb, status);
    if r.invoked != [] {
      var found := FindHost(c, mb);
      var children := ChildNames(Attribute(mb, found.host.value, "children").0);
      InvokedAreChildren(mb, GetOptionValue(c, NonNull("webapp")), c.arguments[0], children.value);
    }
  }

  /** A completed run invoked the sub-command on exactly the children whose docBase
      equals the "webapp" option: none, one or several. */
  lemma CompletedRunInvokesMatching(commandSet: set<string>, c: CommandConfig, mb: Mbeans, status: Result<()>)
    requires c.Valid() && WebappRun(commandSet, c, mb, status).result.Ok?
    ensures c.arguments != [] && c.arguments[0] in commandSet && status.Ok?
    ensures var children := ChildNames(Attribute(mb, FindHost(c, mb).host.value, "children").0);
            var docBase := GetOptionValue(c, NonNull("webapp"));
            FindHost(c, mb).host.Ok? && children.Ok? && (docBase.NonNull? ==>
              WebappRun(commandSet, c, mb, status).invoked == Calls(Matching(mb, docBase.value, children.value), c.arguments[0]))
  {
    WebappsRunCompleted(c, mb, c.arguments[0], status);
  }

  /** Every failure leaves `execute` as a CommandException. */
  lemma FailuresAreCommandExceptions(commandSet: set<string>, c: CommandConfig, mb: Mbeans, status: Result<()>)
    requires c.Valid()
    ensures WebappRun(commandSet, c, mb, status).result.Err? ==>
              WebappRun(commandSet, c, mb, status).result.error.kind == ExceptionKind.Command
  {
  }

  /** The webapp command, which declares all three with "" and inherits the status
      command's (`StatusOptionDefaults`), has two defaults for "engine" and "hostname" and one for
      "webapp". */
  lemma WebappOptionDefaults()
    ensures forall o :: o in WebappCommandOptions + StatusCommandOptions + AbstractJMXCommandOptions + AbstractCommandOptions ==>
              (o.name == "engine" ==> o.value == "" || o.value == "*")
              && (o.name == "hostname" ==> o.value == "" || o.value == "*")
              && (o.name == "webapp" ==> o.value == "")
  {
    forall o | o in WebappCommandOptions + StatusCommandOptions + AbstractJMXCommandOptions + AbstractCommandOptions
      ensures (o.name == "engine" ==> o.value == "" || o.value == "*")
              && (o.name == "hostname" ==> o.value == "" || o.value == "*")
              && (o.name == "webapp" ==> o.value == "")
    {
      if o in WebappCommandOptions {
        assert forall w :: w in WebappCommandOptions ==> w.value == "";
      } else if o in StatusCommandOptions {
        StatusOptionDefaults();
      } else {
        InheritedNames();
        assert o in AbstractJMXCommandOptions + AbstractCommandOptions;
      }
    }
  }

  /** After binding the webapp command's options, "webapp" (required) is set and
      answers its declared default "", whatever was typed; each part of the pattern is
      "*" or "". So a completed run invokes the sub-command on exactly the children
      whose docBase is the empty string. */
  lemma BoundWebappSelection(rev: Revision, tokens: seq<string>, c: CommandConfig, mb: Mbeans, status: Result<()>)
    requires WellFormed(Commands)
    requires Bind(rev, OptionsOf(Commands, WebappCommandClass), tokens).Ok?
    requires c.options == Bind(rev, OptionsOf(Commands, WebappCommandClass), tokens).value && c.Valid()
    ensures GetOptionValue(c, NonNull("webapp")) == NonNull("")
    ensures PatternPart(c, "engine") in {"*", ""} && PatternPart(c, "hostname") in {"*", ""}
    ensures WebappRun(SubCommands, c, mb, status).result.Ok? ==>
              var children := ChildNames(Attribute(mb, FindHost(c, mb).host.value, "children").0);
              children.Ok? && WebappRun(SubCommands, c, mb, status).invoked == Calls(Matching(mb, "", children.value), c.arguments[0])
  {
    var viable := OptionsOf(Commands, WebappCommandClass);
    WebappCommandOptionList();
    WebappOptionDefaults();
    assert WebappCommandOptions[2] in viable;
    RequiredIsSet(rev, viable, tokens, c, WebappCommandOptions[2]);
    BoundDeclares(rev, viable, tokens, c, "webapp", "");
    BoundDeclaresEither(rev, viable, tokens, c, "engine", "", "*");
    BoundDeclaresEither(rev, viable, tokens, c, "hostname", "", "*");
    if WebappRun(SubCommands, c, mb, status).result.Ok? {
      CompletedRunInvokesMatching(SubCommands, c, mb, status);
    }
  }

  class WebappCommand {
    const commandSet: set<string>

    constructor ()
      ensures commandSet == SubCommands
    {
      commandSet := SubCommands;
    }

    /** `execute()`, with the command configured with `c`, the server answering as `mb`
        and the inherited status report ending as `status`. */
    method Execute(c: CommandConfig, mb: Mbeans, status: Result<()>) returns (run: Run)
      requires c.Valid()
      ensures run == WebappRun(commandSet, c, mb, status)
    {
      if c.arguments == [] {
        return AsCommand(Run(Err(Thrown(SubCommandRequired)), [], []));
      }
      var command := c.arguments[0];
      if command !in commandSet {
        return AsCommand(Run(Err(Thrown("Unknown command " + command)), [], []));
      }
      run := ApplyToWebapps(c, mb, command, status);
      run := AsCommand(run);
    }
  }
}
