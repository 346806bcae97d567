/** The older `AbstractJMXCommand`: the same idea as the newer one, with fewer ways of
    finding the server. `serviceURL` takes "url", else the connector address of "pid",
    else the default RMI address, whose port is always the default one;
    `connectorProperties` adds credentials when "username" is set; `configure` connects
    and keeps the connection, swallowing any `IOException` on the way. The connector
    address and the connect call are foreign and appear as the answers of `Server`. */
module LegacyJmxCommand {
  import opened JavaLang
  import opened OptionBinding
  import opened ImplCommandConfig
  import opened ImplEnvironment
  import opened CommandClasses

  const DefaultPort: string := "1099"
  const DefaultHost: string := "127.0.0.1"
  const DefaultUri: string := "/jmxrmi"
  const DefaultProtocol: string := "service:jmx:rmi:///jndi/rmi://"
  const PasswordPrompt: string := "JMX Password: "

  /** The options this class declares: "jmx", "username" and "password" share the
      trigger 'u'. */
  const LegacyJmxOptions: seq<Option> :=
    [Setter("pid", 'i', "", false), Setter("jmx", 'u', "", false),
     Setter("username", 'u', "", false), Setter("password", 'u', "", false)]

  predicate IsSet(c: CommandConfig, name: string)
  {
    IsOptionSet(c, NonNull(name))
  }

  function ValueOf(c: CommandConfig, name: string): string
    requires c.Valid() && IsSet(c, name)
  {
    GetOptionValue(c, NonNull(name)).value
  }

  // ------------------------------------------------------------ serviceURL

  /** The default branch: the port option is looked at and its value dropped. */
  function DefaultUrl(c: CommandConfig): string
    requires c.Valid()
  {
    var host := if IsSet(c, "host") then ValueOf(c, "host") else DefaultHost;
    DefaultProtocol + host + ":" + DefaultPort + DefaultUri
  }

  /** `serviceURL()`: "url", then "pid", then the default. `importFrom` is
      `ConnectorAddressLink.importFrom`, which may answer null or fail with an
      `IOException`; a pid that does not parse throws `NumberFormatException`. */
  function ServiceUrl(c: CommandConfig, importFrom: int -> Result<Nullable<string>>): (r: Result<Nullable<string>>)
    requires c.Valid()
    ensures IsSet(c, "url") ==> r == Ok(NonNull(ValueOf(c, "url")))
    ensures !IsSet(c, "url") && !IsSet(c, "pid") ==> r == Ok(NonNull(DefaultUrl(c)))
    ensures !IsSet(c, "url") && IsSet(c, "pid") ==>
              r == (match ParseInt(NonNull(ValueOf(c, "pid")))
                    case Err(e) => Err(e)
                    case Ok(pid) => importFrom(pid))
  {
    if IsSet(c, "url") then Ok(NonNull(ValueOf(c, "url")))
    else if IsSet(c, "pid") then
      var pid := ParseInt(NonNull(ValueOf(c, "pid")));
      if pid.Err? then Err(pid.error) else importFrom(pid.value)
    else Ok(NonNull(DefaultUrl(c)))
  }

  // ------------------------------------------------------------ connectorProperties

  datatype Credentials = Credentials(username: string, password: string)

  /** `connectorProperties()`: credentials only when "username" is set. Without
      "password" the first token of the line typed at the prompt is the password; a
      blank line gives no token and indexing it throws. `prompted` is what
      `readPrompt` returned, consulted only in that case. */
  function ConnectorProperties(c: CommandConfig, prompted: Result<seq<string>>): (r: Result<Nullable<Credentials>>)
    requires c.Valid()
    ensures !IsSet(c, "username") ==> r == Ok(Null)
    ensures IsSet(c, "username") && IsSet(c, "password") ==>
              r == Ok(NonNull(Credentials(ValueOf(c, "username"), ValueOf(c, "password"))))
    ensures IsSet(c, "username") && !IsSet(c, "password") ==>
              (r.Ok? <==> prompted.Ok? && |prompted.value| > 0)
              && (r.Ok? ==> r.value == NonNull(Credentials(ValueOf(c, "username"), prompted.value[0])))
              && (prompted.Err? ==> r == Err(prompted.error))
              && (prompted == Ok([]) ==> r.Err? && r.error.kind == IndexOutOfBounds)
  {
    if !IsSet(c, "username") then Ok(Null)
    else if IsSet(c, "password") then Ok(NonNull(Credentials(ValueOf(c, "username"), ValueOf(c, "password"))))
    else if prompted.Err? then Err(prompted.error)
    else if |prompted.value| == 0 then Err(Exception(IndexOutOfBounds, Null))
    else Ok(NonNull(Credentials(ValueOf(c, "username"), prompted.value[0])))
  }

  // ------------------------------------------------------------ configure

  /** What the connection is opened to. */
  datatype ServerConnection = ServerConnection(url: string, credentials: Nullable<Credentials>)

  /** The foreign calls: the connector address of a process, and creating and
      connecting a connector to an address (a malformed address is an `IOException`
      too, as `MalformedURLException` is one). */
  datatype Server = Server(
    importFrom: int -> Result<Nullable<string>>,
    connect: (string, Nullable<Credentials>) -> Result<()>)

  /** The connection after `configure()`, and whether the call completed. */
  datatype Outcome = Outcome(connection: Nullable<ServerConnection>, result: Result<()>)

  /** The `catch (IOException)`: an I/O failure is printed and forgotten, anything
      else escapes; either way the connection is left as it was. */
  function Caught(e: Exception, before: Nullable<ServerConnection>): (o: Outcome)
    ensures o.connection == before
    ensures o.result.Ok? <==> e.kind == IOFailure
    ensures o.result.Err? ==> o.result.error == e
  {
    if e.kind == IOFailure then Outcome(before, Ok(())) else Outcome(before, Err(e))
  }

  /** `configure()`: address, credentials, then `new JMXServiceURL(address)`, which
      throws a `NullPointerException` for a null address, then connect. */
  function ConfigureStep(c: CommandConfig, server: Server, prompted: Result<seq<string>>,
                         before: Nullable<ServerConnection>): Outcome
    requires c.Valid()
  {
    var url := ServiceUrl(c, server.importFrom);
    if url.Err? then Caught(url.error, before)
    else
      var credentials := ConnectorProperties(c, prompted);
      if credentials.Err? then Caught(credentials.error, before)
      else if url.value.Null? then Caught(Exception(NullPointer, Null), before)
      else
        var connected := server.connect(url.value.value, credentials.value);
        if connected.Err? then Caught(connected.error, before)
        else Outcome(NonNull(ServerConnection(url.value.value, credentials.value)), Ok(()))
  }

  // ------------------------------------------------------------ lemmas

  /** A completed `configure()` either connected to the chosen address with the
      credentials asked for, or met an `IOException` and kept the old connection. An
      exception of any other kind escapes, also with the old connection. */
  lemma ConfigureOutcomes(c: CommandConfig, server: Server, prompted: Result<seq<string>>,
                          before: Nullable<ServerConnection>)
    requires c.Valid()
    ensures var o := ConfigureStep(c, server, prompted, before);
            var url := ServiceUrl(c, server.importFrom);
            var credentials := ConnectorProperties(c, prompted);
            (o.connection != before ==>
               o.result == Ok(()) && url.Ok? && url.value.NonNull? && credentials.Ok?
               && o.connection == NonNull(ServerConnection(url.value.value, credentials.value))
               && server.connect(url.value.value, credentials.value) == Ok(()))
            && (o.result.Err? ==> o.connection == before && o.result.error.kind != IOFailure)
  {
    var url := ServiceUrl(c, server.importFrom);
    var credentials := ConnectorProperties(c, prompted);
    if url.Ok? && credentials.Ok? && url.value.NonNull? {
      var connected := server.connect(url.value.value, credentials.value);
      if connected.Err? {
        assert ConfigureStep(c, server, prompted, before) == Caught(connected.error, before);
      } else {
        assert connected.value == ();
      }
    }
  }

  /** A failure to connect is swallowed: the call completes and a command configured
      for the first time is left without a connection. */
  lemma ConnectFailureSwallowed(c: CommandConfig, server: Server, prompted: Result<seq<string>>)
    requires c.Valid() && !IsSet(c, "url") && !IsSet(c, "pid") && !IsSet(c, "username")
    requires server.connect(DefaultUrl(c), Null).Err? && server.connect(DefaultUrl(c), Null).error.kind == IOFailure
    ensures ConfigureStep(c, server, prompted, Null) == Outcome(Null, Ok(()))
  {
  }

  /** A process without a local connector address gives a null address, and the
      `NullPointerException` that follows is not an `IOException`: it escapes. */
  lemma NullAddressEscapes(c: CommandConfig, server: Server, prompted: Result<seq<string>>)
    requires c.Valid() && !IsSet(c, "url") && IsSet(c, "pid") && !IsSet(c, "username")
    requires ParseInt(NonNull(ValueOf(c, "pid"))).Ok?
    requires server.importFrom(ParseInt(NonNull(ValueOf(c, "pid"))).value) == Ok(Null)
    ensures ConfigureStep(c, server, prompted, Null) == Outcome(Null, Err(Exception(NullPointer, Null)))
  {
  }

  /** With none of "url", "pid" and "host" set, the address is the local RMI registry
      on the default port, whatever "port" says. */
  lemma DefaultAddress(c: CommandConfig, importFrom: int -> Result<Nullable<string>>)
    requires c.Valid() && !IsSet(c, "url") && !IsSet(c, "pid") && !IsSet(c, "host")
    ensures ServiceUrl(c, importFrom) == Ok(NonNull("service:jmx:rmi:///jndi/rmi://127.0.0.1:1099/jmxrmi"))
  {
    assert DefaultProtocol + DefaultHost + ":" + DefaultPort + DefaultUri
        == "service:jmx:rmi:///jndi/rmi://127.0.0.1:1099/jmxrmi";
  }

  /** "port" plays no part: two configurations that agree on "url", "pid" and "host"
      resolve to the same address whatever else they set. */
  lemma PortDiscarded(c: CommandConfig, d: CommandConfig, importFrom: int -> Result<Nullable<string>>)
    requires c.Valid() && d.Valid() && !IsSet(c, "url") && !IsSet(c, "pid")
    requires !IsSet(d, "url") && !IsSet(d, "pid")
    requires IsSet(c, "host") == IsSet(d, "host")
    requires IsSet(c, "host") ==> ValueOf(c, "host") == ValueOf(d, "host")
    ensures ServiceUrl(c, importFrom) == ServiceUrl(d, importFrom)
  {
  }

  /** The declared "pid" default is "", and `getOptionValue` answers with it, so a
      configuration whose "pid" is this class's option never parses a process id. */
  lemma DeclaredPidNeverParses(c: CommandConfig, importFrom: int -> Result<Nullable<string>>)
    requires c.Valid() && !IsSet(c, "url")
    requires forall o :: o in c.options && o.name == "pid" ==> o == LegacyJmxOptions[0]
    requires LegacyJmxOptions[0] in c.options
    ensures ServiceUrl(c, importFrom) == Err(Exception(NumberFormat, NonNull(Text("For input string: \"\""))))
  {
    assert IsSet(c, "pid") by { OptionSetIffFound(c, NonNull("pid")); }
    assert ValueOf(c, "pid") == "";
    assert "For input string: \"" + "" + "\"" == "For input string: \"\"";
  }

  /** One "-u:x" token selects "jmx", "username" and "password" alike, since prefix
      matching does not consume it; "pid" is left unbound. */
  lemma OneTokenThreeOptions()
    ensures Bind(Legacy, LegacyJmxOptions, ["-u:x"])
            == Ok(map[LegacyJmxOptions[1] := "x", LegacyJmxOptions[2] := "x", LegacyJmxOptions[3] := "x"])
  {
    var tokens := ["-u:x"];
    var vs := LegacyJmxOptions;
    assert "-u:x"[..2] == ['-', 'u'];
    assert !Matches(vs[0], "-u:x") by {
      assert "-u:x"[..2] != ['-', 'i'];
    }
    assert IndexOf("-u:x", ':') == 2 by {
      assert IndexOf("x", ':') == -1;
      assert IndexOf(":x", ':') == 0;
      assert IndexOf("u:x", ':') == 1;
    }
    forall k | 1 <= k < 4 ensures FirstMatch(vs[k], tokens) == NonNull(0) && BoundValue(vs[k], tokens) == "x" {
      assert Matches(vs[k], tokens[0]);
    }
    assert FirstMatch(vs[0], tokens) == Null;
    forall k | 0 <= k < |vs| ensures !Fails(vs[k], tokens) { }
    BindSucceeds(Legacy, vs, tokens);
    assert Expected(vs, tokens) == map[vs[1] := "x", vs[2] := "x", vs[3] := "x"];
  }

  /** So a configuration bound from that token sends credentials without prompting,
      and they are the declared defaults of "username" and "password", both empty. */
  lemma OneTokenCredentials(c: CommandConfig, prompted: Result<seq<string>>)
    requires c.Valid() && c.options == Bind(Legacy, LegacyJmxOptions, ["-u:x"]).value
    ensures ConnectorProperties(c, prompted) == Ok(NonNull(Credentials("", "")))
  {
    OneTokenThreeOptions();
    BlankCredentials(c);
  }

  lemma BlankCredentials(c: CommandConfig)
    requires c.Valid()
    requires c.options == map[LegacyJmxOptions[1] := "x", LegacyJmxOptions[2] := "x", LegacyJmxOptions[3] := "x"]
    ensures IsSet(c, "username") && IsSet(c, "password")
    ensures ValueOf(c, "username") == "" && ValueOf(c, "password") == ""
  {
    var vs := LegacyJmxOptions;
    assert vs[2] in c.options && vs[3] in c.options;
    OptionSetIffFound(c, NonNull("username"));
    OptionSetIffFound(c, NonNull("password"));
    NoDefaults(c.options);
  }

  lemma NoDefaults(m: map<Option, string>)
    requires m == map[LegacyJmxOptions[1] := "x", LegacyJmxOptions[2] := "x", LegacyJmxOptions[3] := "x"]
    ensures forall o :: o in m ==> o.value == ""
  {
  }

  /** A blank line at the password prompt throws out of `configure()`. */
  lemma BlankPasswordEscapes(c: CommandConfig, server: Server, line: string)
    requires c.Valid() && IsSet(c, "username") && !IsSet(c, "password")
    requires ServiceUrl(c, server.importFrom).Ok?
    requires CollapseWhitespace(line) == ""
    ensures ConfigureStep(c, server, Ok(LineTokens(line)), Null).result.Err?
    ensures ConfigureStep(c, server, Ok(LineTokens(line)), Null).result.error.kind == IndexOutOfBounds
  {
  }

  // ------------------------------------------------------------ the class

  class LegacyAbstractJmxCommand {
    var config: Nullable<CommandConfig>
    var connection: Nullable<ServerConnection>

    ghost predicate Valid()
      reads this
    {
      config.NonNull? ==> config.value.Valid()
    }

    constructor ()
      ensures config == Null && connection == Null && Valid()
    {
      config := Null;
      connection := Null;
    }

    /** `configure(config)`: store the configuration, then run `configure()`, reading
        the password from `env` when one is prompted for. */
    method Configure(c: CommandConfig, server: Server, env: EnvironmentImpl) returns (r: Result<()>)
      requires c.Valid()
      modifies this, env`input, env`out
      ensures config == NonNull(c) && Valid()
      ensures var prompts := IsSet(c, "username") && !IsSet(c, "password") && ServiceUrl(c, server.importFrom).Ok?;
              var prompted := if prompts
                              then (if old(env.input) == [] then Err(Exception(NullPointer, Null)) else Ok(LineTokens(old(env.input)[0])))
                              else Ok([]);
              var o := ConfigureStep(c, server, prompted, old(connection));
              && connection == o.connection && r == o.result
              && env.out == old(env.out) + (if prompts then [Line(PasswordPrompt)] else [])
              && env.input == (if prompts && old(env.input) != [] then old(env.input)[1..] else old(env.input))
    {
      config := NonNull(c);
      var url := ServiceUrl(c, server.importFrom);
      if url.Err? {
        var o := Caught(url.error, connection);
        r := o.result;
        return;
      }
      var prompted: Result<seq<string>> := Ok([]);
      if IsSet(c, "username") && !IsSet(c, "password") {
        prompted := env.ReadPromptWith(PasswordPrompt);
      }
      var credentials := ConnectorProperties(c, prompted);
      if credentials.Err? {
        r := Caught(credentials.error, connection).result;
        return;
      }
      if url.value.Null? {
        r := Caught(Exception(NullPointer, Null), connection).result;
        return;
      }
      var connected := server.connect(url.value.value, credentials.value);
      if connected.Err? {
        r := Caught(connected.error, connection).result;
        return;
      }
      connection := NonNull(ServerConnection(url.value.value, credentials.value));
      r := Ok(());
    }

    /** `getConnection()`. */
    function Connection(): (r: Nullable<ServerConnection>)
      reads this
      ensures r == connection
    {
      connection
    }
  }
}
