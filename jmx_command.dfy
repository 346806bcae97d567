/** `commands.AbstractJMXCommand`: how a remote-management command finds the server it
    talks to and keeps its connection. `serviceURL` picks the address from the first of
    the options "url", "pid", "inject" and "guess" that is set, else builds the default
    RMI address; `connectorProperties` adds credentials; `configure` opens a connector
    only when the one shared by all commands is still null, and `cleanup` closes it
    unless the session is interactive. The attach, connector-address, connect and
    server calls are foreign and appear here as the answers of `Jvm` and `Remote`. */
module JmxCommand {
  import opened JavaLang
  import opened ImplCommandConfig
  import opened ImplEnvironment
  import opened BaseCommand
  import JmxQuery
  import DateTime

  const CatalinaBootstrap: string := "org.apache.catalina.startup.Bootstrap"
  const DefaultProtocol: string := "service:jmx:rmi:///jndi/rmi://"
  const DefaultPort: string := "1099"
  const DefaultHost: string := "127.0.0.1"
  const DefaultUri: string := "/jmxrmi"
  const LocalConnectorAddress: string := "com.sun.management.jmxremote.localConnectorAddress"
  const PasswordPrompt: string := "Please enter the JMX password: "
  const AgentWarning: string := "WARN: Local management agent already installed..."

  predicate IsSet(c: CommandConfig, name: string)
  {
    IsOptionSet(c, NonNull(name))
  }

  /** `getOptionValue(name)` of a set option: the declared default of the option bound
      under that name. */
  function ValueOf(c: CommandConfig, name: string): string
    requires c.Valid() && IsSet(c, name)
  {
    GetOptionValue(c, NonNull(name)).value
  }

  /** String concatenation with a possibly null string. */
  function NullText(s: Nullable<string>): string
  {
    if s.Null? then "null" else s.value
  }

  // ------------------------------------------------------------ foreign answers

  /** A virtual machine as `VirtualMachine.list()` describes it. */
  datatype VmDescriptor = VmDescriptor(id: string, displayName: string)

  /** An attached virtual machine: its agent properties now, and after `loadAgent`
      (or the failure of loading the agent). */
  datatype Machine = Machine(agentProperties: map<string, string>, afterLoad: Result<map<string, string>>)

  /** What the local Java tooling answers: `ConnectorAddressLink.importFrom(pid)`, the
      machines `VirtualMachine.list()` reports, and `VirtualMachine.attach(id)`. */
  datatype Jvm = Jvm(
    importFrom: int -> Result<Nullable<string>>,
    machines: seq<VmDescriptor>,
    attach: string -> Result<Machine>)

  function Property(p: map<string, string>, key: string): Nullable<string>
  {
    if key in p then NonNull(p[key]) else Null
  }

  // ------------------------------------------------------------ guess

  /** The ids of the machines whose display name starts with the Tomcat bootstrap
      class, in the order listed. */
  function Candidates(vms: seq<VmDescriptor>): (ids: seq<string>)
    ensures |ids| <= |vms|
  {
    if |vms| == 0 then []
    else
      var last := vms[|vms| - 1];
      Candidates(vms[..|vms| - 1]) + (if StartsWith(last.displayName, CatalinaBootstrap) then [last.id] else [])
  }

  /** The for-each loop of the guess branch. */
  method GuessCandidates(vms: seq<VmDescriptor>) returns (ids: seq<string>)
    ensures ids == Candidates(vms)
  {
    ids := [];
    var i := 0;
    while i < |vms|
      invariant 0 <= i <= |vms|
      invariant ids == Candidates(vms[..i])
    {
      assert vms[..i + 1][..i] == vms[..i];
      if StartsWith(vms[i].displayName, CatalinaBootstrap) {
        ids := ids + [vms[i].id];
      }
      i := i + 1;
    }
    assert vms[..i] == vms;
  }

  /** An id is a candidate exactly when a listed Tomcat machine carries it. */
  lemma {:induction false} CandidatesExact(vms: seq<VmDescriptor>, id: string)
    ensures id in Candidates(vms)
            <==> exists k :: 0 <= k < |vms| && vms[k].id == id && StartsWith(vms[k].displayName, CatalinaBootstrap)
    decreases |vms|
  {
    if |vms| > 0 {
      var init := vms[..|vms| - 1];
      CandidatesExact(init, id);
      if exists k :: 0 <= k < |init| && init[k].id == id && StartsWith(init[k].displayName, CatalinaBootstrap) {
        var k :| 0 <= k < |init| && init[k].id == id && StartsWith(init[k].displayName, CatalinaBootstrap);
        assert vms[k] == init[k];
      }
    }
  }

  // ------------------------------------------------------------ serviceURL

  /** The address an invocation resolves to (null when the machine exposes none), or
      the exception thrown, with the messages it logged on the way. */
  datatype Resolution = Resolution(url: Result<Nullable<string>>, logged: seq<string>)

  /** The default branch: the RMI registry address of `host` and `port`. */
  function DefaultUrl(c: CommandConfig): string
    requires c.Valid()
  {
    var port := if IsSet(c, "port") then ValueOf(c, "port") else DefaultPort;
    var host := if IsSet(c, "host") then ValueOf(c, "host") else DefaultHost;
    DefaultProtocol + host + ":" + port + DefaultUri
  }

  /** `new RuntimeException(e.getMessage(), e.getCause())`. */
  function AsRuntime(e: Exception): Exception
  {
    Exception(Runtime, e.message)
  }

  function PidUrl(c: CommandConfig, jvm: Jvm): Resolution
    requires c.Valid() && IsSet(c, "pid")
  {
    var pid := ParseInt(NonNull(ValueOf(c, "pid")));
    if pid.Err? then Resolution(Err(pid.error), [])
    else
      var address := jvm.importFrom(pid.value);
      if address.Err? then Resolution(Err(address.error), [])
      else if address.value.Null? then
        Resolution(Throw(Runtime, "JMX local connector not found in PID: " + DecimalString(pid.value)), [])
      else Resolution(Ok(address.value), [])
  }

  /** The inject branch; `Properties.contains` tests the values, not the keys, so the
      warning is printed only when some property's value is the key's name. */
  function InjectUrl(c: CommandConfig, jvm: Jvm): Resolution
    requires c.Valid() && IsSet(c, "inject")
  {
    Inject(ValueOf(c, "inject"), jvm)
  }

  /** The inject branch for the process `id`. */
  function Inject(id: string, jvm: Jvm): Resolution
  {
    match jvm.attach(id)
    case Err(e) => Resolution(Err(AsRuntime(e)), [])
    case Ok(m) =>
      var warned := if LocalConnectorAddress in m.agentProperties.Values then [AgentWarning] else [];
      match m.afterLoad
      case Err(e) => Resolution(Err(AsRuntime(e)), warned)
      case Ok(p) => Resolution(Ok(Property(p, LocalConnectorAddress)), warned)
  }

  /** The guess branch: exactly one Tomcat machine, whose local connector address is
      used without loading an agent. */
  function GuessUrl(jvm: Jvm): Resolution
  {
    var ids := Candidates(jvm.machines);
    if |ids| != 1 then
      Resolution(Throw(Runtime, "Expected 1 virtual machine, found " + DecimalString(|ids|) + " PIDs: " + ArrayString(ids)), [])
    else
      match jvm.attach(ids[0])
      case Err(e) => Resolution(Err(AsRuntime(e)), [])
      case Ok(m) => Resolution(Ok(Property(m.agentProperties, LocalConnectorAddress)), [])
  }

  /** The first option set among "url", "pid", "inject" and "guess" decides; none set
      gives the default address. */
  function Chosen(c: CommandConfig, jvm: Jvm): Resolution
    requires c.Valid()
  {
    if IsSet(c, "url") then Resolution(Ok(NonNull(ValueOf(c, "url"))), [])
    else if IsSet(c, "pid") then PidUrl(c, jvm)
    else if IsSet(c, "inject") then InjectUrl(c, jvm)
    else if IsSet(c, "guess") then GuessUrl(jvm)
    else Resolution(Ok(NonNull(DefaultUrl(c))), [])
  }

  /** `serviceURL()`: the chosen address, logged when debugging. */
  function ServiceUrl(c: CommandConfig, jvm: Jvm): (r: Resolution)
    requires c.Valid()
    ensures r.url == Chosen(c, jvm).url
  {
    var r := Chosen(c, jvm);
    if r.url.Ok? && IsSet(c, "debug") then Resolution(r.url, r.logged + ["Connecting via URL: " + NullText(r.url.value)])
    else r
  }

  /** The same decision chain, step by step, with the guess loop. */
  method ResolveServiceUrl(c: CommandConfig, jvm: Jvm) returns (r: Resolution)
    requires c.Valid()
    ensures r == ServiceUrl(c, jvm)
  {
    if IsSet(c, "url") {
      r := Resolution(Ok(NonNull(ValueOf(c, "url"))), []);
    } else if IsSet(c, "pid") {
      r := PidUrl(c, jvm);
    } else if IsSet(c, "inject") {
      r := InjectUrl(c, jvm);
    } else if IsSet(c, "guess") {
      var ids := GuessCandidates(jvm.machines);
      if |ids| != 1 {
        r := Resolution(Throw(Runtime, "Expected 1 virtual machine, found " + DecimalString(|ids|) + " PIDs: " + ArrayString(ids)), []);
      } else {
        var attached := jvm.attach(ids[0]);
        if attached.Err? {
          r := Resolution(Err(AsRuntime(attached.error)), []);
        } else {
          r := Resolution(Ok(Property(attached.value.agentProperties, LocalConnectorAddress)), []);
        }
      }
    } else {
      var port := DefaultPort;
      if IsSet(c, "port") {
        port := ValueOf(c, "port");
      }
      var host := DefaultHost;
      if IsSet(c, "host") {
        host := ValueOf(c, "host");
      }
      r := Resolution(Ok(NonNull(DefaultProtocol + host + ":" + port + DefaultUri)), []);
    }
    if r.url.Ok? && IsSet(c, "debug") {
      r := Resolution(r.url, r.logged + ["Connecting via URL: " + NullText(r.url.value)]);
    }
  }

  // ------------------------------------------------------------ connectorProperties

  datatype Credentials = Credentials(username: string, password: string)

  /** The password is prompted for exactly when a user name is given without one. */
  predicate Prompts(c: CommandConfig)
  {
    IsSet(c, "username") && !IsSet(c, "password")
  }

  /** `connectorProperties()`: credentials only when "username" is set; a prompted
      password is the `Arrays.toString` of the tokens typed. `prompted` is what
      `readPrompt` returned, consulted only when `Prompts(c)`. */
  function ConnectorProperties(c: CommandConfig, prompted: Result<seq<string>>): (r: Result<Nullable<Credentials>>)
    requires c.Valid()
    ensures r.Err? ==> Prompts(c) && prompted.Err? && r.error == prompted.error
    ensures r.Ok? ==> (r.value.NonNull? <==> IsSet(c, "username"))
  {
    if !IsSet(c, "username") then Ok(Null)
    else if IsSet(c, "password") then Ok(NonNull(Credentials(ValueOf(c, "username"), ValueOf(c, "password"))))
    else if prompted.Err? then Err(prompted.error)
    else Ok(NonNull(Credentials(ValueOf(c, "username"), ArrayString(prompted.value))))
  }

  // ------------------------------------------------------------ the connector cache

  datatype ConnectorState = Unconnected | Connected | Closed

  /** The connector: the address and credentials it was made for, and its state. */
  datatype Connector = Connector(url: string, credentials: Nullable<Credentials>, state: ConnectorState)

  /** The two static fields shared by every JMX command. */
  datatype Cache = Cache(connector: Nullable<Connector>, persistent: bool)

  /** How opening a connector ends: the address is rejected before a connector exists
      (`MalformedURLException`, or the factory fails), `connect()` fails on the new
      connector, or it connects. */
  datatype Opening = Rejected(error: Exception) | Refused(error: Exception) | Opened

  /** The platform runtime bean as its proxy answers: the uptime and the virtual
      machine's name, vendor and version. */
  datatype RuntimeBean = RuntimeBean(uptime: int, vmName: string, vmVendor: string, vmVersion: string)

  /** The server once connected: its managed beans, and the runtime and operating-system
      bean proxies `newPlatformMXBeanProxy` makes (or the IOException it throws). */
  datatype Server = Server(mbeans: JmxQuery.Mbeans, runtime: Result<RuntimeBean>, os: Result<()>)

  /** The answers of the remote side: opening a connector, and the server `configure`
      queries once connected. */
  datatype Remote = Remote(jvm: Jvm, open: (string, Nullable<Credentials>) -> Opening, server: Server)

  const ServerQuery: string := "*:type=Server"
  const SystemLine: string := "   System: %s load: %s [%s %s (%s) x%s]"

  /** `throwException`: IOException, MalformedObjectNameException and
      NullPointerException become a CommandException; anything else escapes as is. */
  function Rewrap(e: Exception): (r: Exception)
    ensures r.message == e.message
    ensures r.kind == (if e.kind in {IOFailure, MalformedObjectName, NullPointer} then Command else e.kind)
  {
    if e.kind == IOFailure || e.kind == MalformedObjectName || e.kind == NullPointer then Exception(Command, e.message)
    else e
  }

  /** The messages of `log` calls made without arguments. */
  function Messages(calls: seq<JmxQuery.LogCall>): seq<string>
  {
    seq(|calls|, k requires 0 <= k < |calls| => calls[k].message)
  }

  /** How the queries after the `if (connector == null)` block ended, and what they
      logged. */
  datatype Session = Session(result: Result<()>, logged: seq<string>)

  /** `(String) attribute(first, "serverInfo")`: a string or null passes the cast. */
  function ServerInfo(v: JmxQuery.Value): Result<string>
  {
    match v
    case Str(s) => Ok(s)
    case NullValue => Ok("null")
    case _ => Err(Exception(ClassCast, Null))
  }

  /** The server queries of `configure` through the connector `k`, with configuration
      `c`: a connector that is not connected throws an IOException from
      `getMBeanServerConnection`; the least Server name is looked up (none is a
      NoSuchElementException, which escapes), its "serverInfo" read quietly, the
      uptime announced, and the system and virtual-machine lines logged when verbose
      and debug are set. */
  function AfterConnect(k: Connector, server: Server, c: CommandConfig): (r: Session)
    requires c.Valid()
    ensures k.state != Connected ==> r == Session(Err(Exception(Command, Null)), [])
    ensures r.result.Ok? ==> server.runtime.Ok? && server.os.Ok? && |r.logged| >= 1
  {
    if k.state != Connected then Session(Err(Rewrap(Exception(IOFailure, Null))), [])
    else
      var names := server.mbeans.queryNames(ServerQuery);
      if names.Err? then Session(Err(Rewrap(names.error)), [])
      else if names.value == [] then Session(Err(Exception(NoSuchElement, Null)), [])
      else
        var read := JmxQuery.Attribute(server.mbeans, First(names.value), "serverInfo");
        Announce(ServerInfo(read.0), Messages(read.1), server, c)
  }

  /** `servers.first()` of the `TreeSet` made from the names. */
  function First(names: seq<string>): (r: string)
    requires names != []
    ensures r == JmxQuery.Sorted(names)[0]
  {
    assert JmxQuery.Sorted(names) != [];
    JmxQuery.Sorted(names)[0]
  }

  /** The rest of the session once "serverInfo" was read as `info`, after the messages
      `quiet` reading it logged. */
  function Announce(info: Result<string>, quiet: seq<string>, server: Server, c: CommandConfig): (r: Session)
    requires c.Valid()
    ensures r.result.Ok? ==> server.runtime.Ok? && server.os.Ok? && |r.logged| >= 1
  {
    if info.Err? then Session(Err(info.error), quiet)
    else if server.runtime.Err? then Session(Err(Rewrap(server.runtime.error)), quiet)
    else
      var rt := server.runtime.value;
      var connected := ConnectedLine(info.value, rt);
      if server.os.Err? then Session(Err(Rewrap(server.os.error)), quiet + [connected])
      else
        var verbose := if IsSet(c, "verbose") then [SystemLine] else [];
        var debug := if IsSet(c, "debug") then [" JVM info: " + rt.vmName + " " + rt.vmVendor + " " + rt.vmVersion] else [];
        Session(Ok(()), quiet + [connected] + verbose + debug)
  }

  /** The line announcing the server and its uptime. */
  function ConnectedLine(info: string, rt: RuntimeBean): string
  {
    "Connected: " + info + " [uptime:" + Uptime(rt) + "]\n"
  }

  /** `DateTime.formatUptime(runtime.getUptime())`: the boxed uptime is never null. */
  function Uptime(rt: RuntimeBean): string
  {
    DateTime.FormatUptime(NonNull(rt.uptime)).value
  }

  /** What `configure()` did: the new cache, how it ended, what it logged before the
      password prompt (`resolved`) and after connecting (`session`). */
  datatype Configured = Configured(cache: Cache, result: Result<()>, resolved: seq<string>, session: seq<string>)

  /** What opening a connector did: the connector now cached (still null when none was
      made), how it ended (normally only when it connected), and what was logged. */
  datatype Connection = Connection(connector: Nullable<Connector>, result: Result<()>, logged: seq<string>)

  /** The body of `if (connector == null)`. */
  function OpenStep(c: CommandConfig, remote: Remote, prompted: Result<seq<string>>): (r: Connection)
    requires c.Valid()
    ensures r.result.Ok? ==> r.connector.NonNull? && r.connector.value.state == Connected
  {
    var r := ServiceUrl(c, remote.jvm);
    if r.url.Err? then Connection(Null, Err(Rewrap(r.url.error)), r.logged)
    else Dial(r.url.value, ConnectorProperties(c, prompted), remote).(logged := r.logged)
  }

  /** From the address on: the connector properties, the address parsed (a null one
      throws), the connector made and connected. Nothing is logged. */
  function Dial(url: Nullable<string>, props: Result<Nullable<Credentials>>, remote: Remote): (r: Connection)
    ensures r.logged == []
    ensures r.result.Ok? ==> r.connector.NonNull? && r.connector.value.state == Connected
  {
    if props.Err? then Connection(Null, Err(Rewrap(props.error)), [])
    else if url.Null? then Connection(Null, Err(Rewrap(Exception(NullPointer, Null))), [])
    else
      match remote.open(url.value, props.value)
      case Rejected(e) => Connection(Null, Err(Rewrap(e)), [])
      case Refused(e) => Connection(NonNull(Connector(url.value, props.value, Unconnected)), Err(Rewrap(e)), [])
      case Opened => Connection(NonNull(Connector(url.value, props.value, Connected)), Ok(()), [])
  }

  /** `configure()` of a JMX command on the shared cache `s`: the server queries run
      on the cached connector, or on a new one once it connected. */
  function ConfigureStep(s: Cache, c: CommandConfig, remote: Remote, prompted: Result<seq<string>>): Configured
    requires c.Valid()
  {
    var persistent := s.persistent || IsSet(c, "interactive");
    var o := if s.connector.NonNull? then Connection(s.connector, Ok(()), []) else OpenStep(c, remote, prompted);
    var q := Resume(o, remote.server, c);
    Configured(Cache(o.connector, persistent), q.result, o.logged, q.logged)
  }

  /** The server queries on the connector, unless opening it failed. */
  function Resume(o: Connection, server: Server, c: CommandConfig): Session
    requires c.Valid() && (o.result.Ok? ==> o.connector.NonNull?)
  {
    if o.result.Err? then Session(o.result, []) else AfterConnect(o.connector.value, server, c)
  }

  /** Whether this `configure()` reads a password from the console. */
  predicate PromptsIn(s: Cache, c: CommandConfig, jvm: Jvm)
    requires c.Valid()
  {
    s.connector.Null? && ServiceUrl(c, jvm).url.Ok? && Prompts(c)
  }

  /** What `cleanup()` did: the new cache, how it ended, and what it logged. */
  datatype Cleaned = Cleaned(cache: Cache, result: Result<()>, logged: seq<string>)

  /** `cleanup()` with the command's configuration `config`, where `connectionId` is
      what a connected connector's `getConnectionId()` answers. Unless persistent,
      `isDebug()` is asked first (a NullPointerException without a configuration,
      which escapes before anything is closed); under debug the connection is
      announced, which a connector that is not connected cannot do (its IOException is
      caught and only its stack trace printed); then the connector is closed and stays
      cached. */
  function CleanupStep(s: Cache, config: Nullable<CommandConfig>, connectionId: string): (r: Cleaned)
    requires config.NonNull? ==> config.value.Valid()
  {
    if s.persistent then Cleaned(s, Ok(()), [])
    else
      var debug := BaseCommand.OptionSet(config, "debug");
      if debug.Err? then Cleaned(s, Err(debug.error), [])
      else
        var announced := debug.value && s.connector.NonNull? && s.connector.value.state == Connected;
        Cleaned(Cache(if s.connector.Null? then Null else NonNull(s.connector.value.(state := Closed)), false),
                Ok(()),
                if announced then ["Closing connection " + connectionId] else [])
  }

  // ------------------------------------------------------------ properties

  /** A "url" option wins over every other: no foreign call is made, and the address
      is the option's value. */
  lemma ManualUrlFirst(c: CommandConfig, jvm: Jvm, other: Jvm)
    requires c.Valid() && IsSet(c, "url")
    ensures ServiceUrl(c, jvm).url == ServiceUrl(c, other).url == Ok(NonNull(ValueOf(c, "url")))
  {
  }

  /** With none of the four options set the address is the RMI registry on the given
      host and port, each defaulting; with neither given it is the local registry on
      port 1099. */
  lemma DefaultAddress(c: CommandConfig, jvm: Jvm)
    requires c.Valid() && !IsSet(c, "url") && !IsSet(c, "pid") && !IsSet(c, "inject") && !IsSet(c, "guess")
    ensures ServiceUrl(c, jvm).url
            == Ok(NonNull("service:jmx:rmi:///jndi/rmi://" + (if IsSet(c, "host") then ValueOf(c, "host") else "127.0.0.1")
                          + ":" + (if IsSet(c, "port") then ValueOf(c, "port") else "1099") + "/jmxrmi"))
    ensures !IsSet(c, "host") && !IsSet(c, "port") ==>
              ServiceUrl(c, jvm).url == Ok(NonNull("service:jmx:rmi:///jndi/rmi://127.0.0.1:1099/jmxrmi"))
  {
    assert "service:jmx:rmi:///jndi/rmi://" + "127.0.0.1" + ":" + "1099" + "/jmxrmi"
           == "service:jmx:rmi:///jndi/rmi://127.0.0.1:1099/jmxrmi";
  }

  /** Only which options are bound matters, never the values typed for them:
      `getOptionValue` answers with declared defaults. */
  lemma TypedValuesIgnored(c: CommandConfig, d: CommandConfig, jvm: Jvm)
    requires c.Valid() && d.Valid() && c.order == d.order
    ensures ServiceUrl(c, jvm) == ServiceUrl(d, jvm)
  {
    SameAnswers(c, d, "url");
    if !IsSet(c, "url") && IsSet(c, "pid") {
      SamePid(c, d, jvm);
    } else if !IsSet(c, "url") && !IsSet(c, "pid") && IsSet(c, "inject") {
      SameInject(c, d, jvm);
    } else {
      SameDefault(c, d);
    }
  }

  lemma SamePid(c: CommandConfig, d: CommandConfig, jvm: Jvm)
    requires c.Valid() && d.Valid() && c.order == d.order && IsSet(c, "pid")
    ensures IsSet(d, "pid") && PidUrl(c, jvm) == PidUrl(d, jvm)
  {
    SameAnswers(c, d, "pid");
  }

  lemma SameInject(c: CommandConfig, d: CommandConfig, jvm: Jvm)
    requires c.Valid() && d.Valid() && c.order == d.order && IsSet(c, "inject")
    ensures IsSet(d, "inject") && InjectUrl(c, jvm) == InjectUrl(d, jvm)
  {
    SameAnswers(c, d, "inject");
  }

  lemma SameDefault(c: CommandConfig, d: CommandConfig)
    requires c.Valid() && d.Valid() && c.order == d.order
    ensures DefaultUrl(c) == DefaultUrl(d)
  {
    SameAnswers(c, d, "port");
    SameAnswers(c, d, "host");
  }

  /** The same for the credentials. */
  lemma TypedCredentialsIgnored(c: CommandConfig, d: CommandConfig, prompted: Result<seq<string>>)
    requires c.Valid() && d.Valid() && c.order == d.order
    ensures ConnectorProperties(c, prompted) == ConnectorProperties(d, prompted)
  {
    SameAnswers(c, d, "username");
    SameAnswers(c, d, "password");
  }

  lemma SameAnswers(c: CommandConfig, d: CommandConfig, name: string)
    requires c.Valid() && d.Valid() && c.order == d.order
    ensures IsSet(c, name) == IsSet(d, name)
    ensures IsSet(c, name) ==> ValueOf(c, name) == ValueOf(d, name)
  {
    BoundValueIgnored(c, d, NonNull(name));
  }

  /** The "pid" option this class declares has the default "", so when it decides,
      `Integer.parseInt("")` throws and no process is ever looked up. */
  lemma DeclaredPidNeverParses(c: CommandConfig, jvm: Jvm)
    requires c.Valid() && !IsSet(c, "url") && IsSet(c, "pid")
    requires forall o :: o in c.options && o.name == "pid" ==> o.value == ""
    ensures ServiceUrl(c, jvm).url.Err? && ServiceUrl(c, jvm).url.error.kind == NumberFormat
  {
    assert ValueOf(c, "pid") == "";
  }

  /** Guessing needs exactly one running Tomcat: any other number is an error that
      names the count, and with one, its address is read without loading an agent. */
  lemma GuessNeedsOne(c: CommandConfig, jvm: Jvm)
    requires c.Valid() && !IsSet(c, "url") && !IsSet(c, "pid") && !IsSet(c, "inject") && IsSet(c, "guess")
    ensures var n := |Candidates(jvm.machines)|;
            n != 1 ==> ServiceUrl(c, jvm).url
                         == Throw(Runtime, "Expected 1 virtual machine, found " + DecimalString(n) + " PIDs: "
                                           + ArrayString(Candidates(jvm.machines)))
    ensures |Candidates(jvm.machines)| == 1 ==>
              var id := Candidates(jvm.machines)[0];
              && (exists k :: 0 <= k < |jvm.machines| && jvm.machines[k].id == id
                                && StartsWith(jvm.machines[k].displayName, CatalinaBootstrap))
              && (jvm.attach(id).Ok? ==>
                    ServiceUrl(c, jvm).url == Ok(Property(jvm.attach(id).value.agentProperties, LocalConnectorAddress)))
  {
    if |Candidates(jvm.machines)| == 1 {
      CandidatesExact(jvm.machines, Candidates(jvm.machines)[0]);
    }
  }

  /** The "already installed" warning tests property values: a machine whose agent
      already publishes its address under the key is not warned about. */
  lemma InstalledAgentNotWarned(c: CommandConfig, jvm: Jvm, address: string)
    requires c.Valid() && !IsSet(c, "url") && !IsSet(c, "pid") && IsSet(c, "inject")
    requires address != LocalConnectorAddress
    requires jvm.attach(ValueOf(c, "inject")).Ok?
    requires jvm.attach(ValueOf(c, "inject")).value.agentProperties == map[LocalConnectorAddress := address]
    ensures AgentWarning !in Chosen(c, jvm).logged
  {
    var m := map[LocalConnectorAddress := address];
    assert LocalConnectorAddress !in m.Values;
  }

  /** A prompted password is the bracketed list of what was typed. */
  lemma PromptedPasswordBracketed(c: CommandConfig)
    requires c.Valid() && Prompts(c)
    ensures ConnectorProperties(c, Ok(["s3cret"])) == Ok(NonNull(Credentials(ValueOf(c, "username"), "[s3cret]")))
  {
    assert ArrayString(["s3cret"]) == "[" + "s3cret" + "]" == "[s3cret]";
  }

  /** A cached connector is used as it is: nothing is resolved or opened and no
      password is asked for; only the server queries run again. */
  lemma CachedConnectorKept(s: Cache, c: CommandConfig, remote: Remote, prompted: Result<seq<string>>)
    requires c.Valid() && s.connector.NonNull?
    ensures var t := ConfigureStep(s, c, remote, prompted);
            && t.cache.connector == s.connector && t.resolved == [] && !PromptsIn(s, c, remote.jvm)
            && t.session == AfterConnect(s.connector.value, remote.server, c).logged
  {
  }

  /** A quiet session on a server whose "serverInfo" reads as a string logs exactly
      one line: the server and its uptime. */
  lemma QuietSessionAnnounces(k: Connector, server: Server, c: CommandConfig)
    requires c.Valid() && k.state == Connected && !IsSet(c, "verbose") && !IsSet(c, "debug")
    requires server.mbeans.queryNames(ServerQuery).Ok? && server.mbeans.queryNames(ServerQuery).value != []
    requires server.runtime.Ok? && server.os.Ok?
    ensures var names := server.mbeans.queryNames(ServerQuery).value;
            var first := JmxQuery.Sorted(names)[0];
            server.mbeans.attribute(first, "serverInfo").Ok? && server.mbeans.attribute(first, "serverInfo").value.Str? ==>
              AfterConnect(k, server, c)
              == Session(Ok(()), [ConnectedLine(server.mbeans.attribute(first, "serverInfo").value.s, server.runtime.value)])
  {
    var first := First(server.mbeans.queryNames(ServerQuery).value);
  }

  /** An unreadable "serverInfo" does not stop the session: the error is logged and
      the server is announced as "null". */
  lemma UnreadableServerInfo(k: Connector, server: Server, c: CommandConfig)
    requires c.Valid() && k.state == Connected
    requires server.mbeans.queryNames(ServerQuery).Ok? && server.mbeans.queryNames(ServerQuery).value != []
    requires server.runtime.Ok? && server.os.Ok?
    ensures var names := server.mbeans.queryNames(ServerQuery).value;
            var first := JmxQuery.Sorted(names)[0];
            var read := server.mbeans.attribute(first, "serverInfo");
            read.Err? ==>
              && AfterConnect(k, server, c).result == Ok(())
              && AfterConnect(k, server, c).logged[..2]
                 == ["ERROR: " + JmxQuery.MessageText(read.error.message),
                     ConnectedLine("null", server.runtime.value)]
  {
    var names := server.mbeans.queryNames(ServerQuery).value;
    var first := First(names);
    var read := server.mbeans.attribute(first, "serverInfo");
    if read.Err? {
      var calls := JmxQuery.Attribute(server.mbeans, first, "serverInfo").1;
      var quiet := ["ERROR: " + JmxQuery.MessageText(read.error.message)];
      assert Messages(calls) == quiet;
      var connected := ConnectedLine("null", server.runtime.value);
      assert JmxQuery.Attribute(server.mbeans, first, "serverInfo").0 == JmxQuery.NullValue;
      assert AfterConnect(k, server, c) == Announce(Ok("null"), quiet, server, c);
      var rt := server.runtime.value;
      var verbose := if IsSet(c, "verbose") then [SystemLine] else [];
      var debug := if IsSet(c, "debug") then [" JVM info: " + rt.vmName + " " + rt.vmVendor + " " + rt.vmVersion] else [];
      assert Announce(Ok("null"), quiet, server, c).logged == quiet + [connected] + verbose + debug;
      assert (quiet + [connected] + verbose + debug)[..2] == quiet + [connected];
    }
  }

  /** A server with no Server bean fails with the NoSuchElementException of
      `first()`, which `configure` does not wrap, and nothing is logged. */
  lemma NoServerBean(k: Connector, server: Server, c: CommandConfig)
    requires c.Valid() && k.state == Connected
    requires server.mbeans.queryNames(ServerQuery) == Ok([])
    ensures AfterConnect(k, server, c) == Session(Err(Exception(NoSuchElement, Null)), [])
  {
  }

  /** Once a connector was closed by a non-interactive `cleanup`, it stays cached and
      closed, so every later `configure` outside interactive mode fails without a
      word. */
  lemma NoReconnectAfterCleanup(s: Cache, d: CommandConfig, id: string, c: CommandConfig, remote: Remote,
                                prompted: Result<seq<string>>)
    requires d.Valid() && c.Valid() && s.connector.NonNull? && !s.persistent && !IsSet(c, "interactive")
    ensures var u := CleanupStep(s, NonNull(d), id).cache;
            var t := ConfigureStep(u, c, remote, prompted);
            && t.cache == u && t.cache.connector.value.state == Closed
            && t.result == Err(Exception(Command, Null)) && t.session == []
  {
  }

  /** In an interactive session `cleanup` leaves the connection alone, logs nothing
      and never consults the configuration. */
  lemma InteractiveKeepsConnection(s: Cache, c: CommandConfig, remote: Remote, prompted: Result<seq<string>>,
                                   config: Nullable<CommandConfig>, id: string)
    requires c.Valid() && IsSet(c, "interactive") && (config.NonNull? ==> config.value.Valid())
    ensures var t := ConfigureStep(s, c, remote, prompted);
            t.cache.persistent && CleanupStep(t.cache, config, id) == Cleaned(t.cache, Ok(()), [])
  {
  }

  /** A command cleaned up before it was configured fails on `isDebug()` and leaves
      the connector open, unless the session is interactive. */
  lemma CleanupNeedsConfig(s: Cache, id: string)
    ensures CleanupStep(s, Null, id)
            == if s.persistent then Cleaned(s, Ok(()), []) else Cleaned(s, Err(Exception(NullPointer, Null)), [])
  {
  }

  /** Only a debug cleanup of a connected connector says which connection it closes. */
  lemma CleanupAnnounces(s: Cache, d: CommandConfig, id: string)
    requires d.Valid() && !s.persistent
    ensures var r := CleanupStep(s, NonNull(d), id);
            && r.result == Ok(())
            && (r.logged != [] <==> IsSet(d, "debug") && s.connector.NonNull? && s.connector.value.state == Connected)
            && (r.logged != [] ==> r.logged == ["Closing connection " + id])
            && (s.connector.NonNull? ==> r.cache.connector == NonNull(s.connector.value.(state := Closed)))
  {
  }

  /** A call a JMX command receives: `configure`, or `cleanup` with the configuration
      the command holds. */
  datatype Call =
    | ConfigureCall(config: CommandConfig, remote: Remote, prompted: Result<seq<string>>)
    | CleanupCall(held: Nullable<CommandConfig>, connectionId: string)

  ghost predicate CallsValid(calls: seq<Call>)
  {
    forall k :: 0 <= k < |calls| ==>
      && (calls[k].ConfigureCall? ==> calls[k].config.Valid())
      && (calls[k].CleanupCall? && calls[k].held.NonNull? ==> calls[k].held.value.Valid())
  }

  /** The shared cache after a sequence of calls. */
  function Replay(s: Cache, calls: seq<Call>): Cache
    requires CallsValid(calls)
  {
    if |calls| == 0 then s
    else
      var prefix := calls[..|calls| - 1];
      assert CallsValid(prefix) by {
        forall k | 0 <= k < |prefix|
          ensures prefix[k].ConfigureCall? ==> prefix[k].config.Valid()
          ensures prefix[k].CleanupCall? && prefix[k].held.NonNull? ==> prefix[k].held.value.Valid()
        {
          assert prefix[k] == calls[k];
        }
      }
      var before := Replay(s, prefix);
      match calls[|calls| - 1]
      case CleanupCall(held, id) => CleanupStep(before, held, id).cache
      case ConfigureCall(c, remote, prompted) => ConfigureStep(before, c, remote, prompted).cache
  }

  /** Nothing resets the persistent flag, and a connector once cached is never
      forgotten or replaced: whatever follows keeps its address and credentials. */
  lemma {:induction false} StickyState(s: Cache, calls: seq<Call>)
    requires CallsValid(calls)
    ensures s.persistent ==> Replay(s, calls).persistent
    ensures s.connector.NonNull? ==>
              && Replay(s, calls).connector.NonNull?
              && Replay(s, calls).connector.value.url == s.connector.value.url
              && Replay(s, calls).connector.value.credentials == s.connector.value.credentials
    decreases |calls|
  {
    if |calls| > 0 {
      var prefix := calls[..|calls| - 1];
      assert CallsValid(prefix) by {
        forall k | 0 <= k < |prefix|
          ensures prefix[k].ConfigureCall? ==> prefix[k].config.Valid()
          ensures prefix[k].CleanupCall? && prefix[k].held.NonNull? ==> prefix[k].held.value.Valid()
        {
          assert prefix[k] == calls[k];
        }
      }
      StickyState(s, prefix);
    }
  }

  // ------------------------------------------------------------ the classes

  /** The static fields `connector` and `persistentConnection`. */
  class ConnectorCache {
    var connector: Nullable<Connector>
    var persistent: bool

    constructor ()
      ensures connector == Null && !persistent
    {
      connector := Null;
      persistent := false;
    }

    function State(): Cache
      reads this
    {
      Cache(connector, persistent)
    }
  }

  /** The console line a password prompt returns on the input left. */
  function Prompted(input: seq<string>): Result<seq<string>>
  {
    if input == [] then Err(Exception(NullPointer, Null)) else Ok(LineTokens(input[0]))
  }

  function Logged(messages: seq<string>): seq<Printed>
  {
    if |messages| == 0 then []
    else Logged(messages[..|messages| - 1]) + [MessageLine(NonNull(LogMessage(messages[|messages| - 1], [])))]
  }

  class AbstractJmxCommand {
    var config: Nullable<CommandConfig>
    const cache: ConnectorCache

    constructor (cache: ConnectorCache)
      ensures config == Null && this.cache == cache
    {
      config := Null;
      this.cache := cache;
    }

    /** `log` for each message, in order. */
    method LogAll(messages: seq<string>, env: EnvironmentImpl)
      modifies env`out
      ensures env.out == old(env.out) + Logged(messages)
    {
      var i := 0;
      while i < |messages|
        invariant 0 <= i <= |messages|
        invariant env.out == old(env.out) + Logged(messages[..i])
      {
        assert messages[..i + 1][..i] == messages[..i];
        env.SysoutMessage(NonNull(LogMessage(messages[i], [])));
        i := i + 1;
      }
      assert messages[..i] == messages;
    }

    /** `configure(config)` followed by this class's `configure()`, on the console
        `env` of the configuration. */
    method Configure(c: CommandConfig, remote: Remote, env: EnvironmentImpl) returns (r: Result<()>)
      requires c.Valid()
      modifies this`config, cache, env`out, env`input
      ensures config == NonNull(c)
      ensures var step := ConfigureStep(old(cache.State()), c, remote, Prompted(old(env.input)));
              var prompts := PromptsIn(old(cache.State()), c, remote.jvm);
              cache.State() == step.cache && r == step.result
              && env.out == old(env.out) + Logged(step.resolved) + (if prompts then [Line(PasswordPrompt)] else [])
                            + Logged(step.session)
              && env.input == (if prompts && old(env.input) != [] then old(env.input)[1..] else old(env.input))
    {
      config := NonNull(c);
      if IsSet(c, "interactive") {
        cache.persistent := true;
      }
      r := Reach(c, remote, env);
    }

    /** From `if (connector == null)` on: a connector opened unless one is cached, then
        the server queries on it. */
    method Reach(c: CommandConfig, remote: Remote, env: EnvironmentImpl) returns (r: Result<()>)
      requires c.Valid()
      modifies cache`connector, env`out, env`input
      ensures var o := if old(cache.connector).NonNull? then Connection(old(cache.connector), Ok(()), [])
                       else OpenStep(c, remote, Prompted(old(env.input)));
              var q := Resume(o, remote.server, c);
              var prompts := old(cache.connector).Null? && ServiceUrl(c, remote.jvm).url.Ok? && Prompts(c);
              cache.connector == o.connector && r == q.result
              && env.out == old(env.out) + Logged(o.logged) + (if prompts then [Line(PasswordPrompt)] else [])
                            + Logged(q.logged)
              && env.input == (if prompts && old(env.input) != [] then old(env.input)[1..] else old(env.input))
    {
      ghost var o := if cache.connector.NonNull? then Connection(cache.connector, Ok(()), [])
                     else OpenStep(c, remote, Prompted(env.input));
      if cache.connector.Null? {
        r := Open(c, remote, env);
      } else {
        r := Ok(());
      }
      assert r == o.result && cache.connector == o.connector;
      if r.Ok? {
        r := Query(cache.connector.value, remote.server, c, env);
      } else {
        assert Resume(o, remote.server, c).logged == [];
        assert Logged([]) == [];
      }
    }

    /** The branch taken while no connector is cached. */
    method Open(c: CommandConfig, remote: Remote, env: EnvironmentImpl) returns (r: Result<()>)
      requires c.Valid() && cache.connector.Null?
      modifies cache`connector, env`out, env`input
      ensures var o := OpenStep(c, remote, Prompted(old(env.input)));
              var prompts := ServiceUrl(c, remote.jvm).url.Ok? && Prompts(c);
              cache.connector == o.connector && r == o.result
              && env.out == old(env.out) + Logged(o.logged) + (if prompts then [Line(PasswordPrompt)] else [])
              && env.input == (if prompts && old(env.input) != [] then old(env.input)[1..] else old(env.input))
    {
      var resolved := ResolveServiceUrl(c, remote.jvm);
      LogAll(resolved.logged, env);
      if resolved.url.Err? {
        r := Err(Rewrap(resolved.url.error));
        return;
      }
      var prompted: Result<seq<string>> := Ok([]);
      if Prompts(c) {
        prompted := env.ReadPromptWith(PasswordPrompt);
      }
      r := Connect(resolved.url.value, ConnectorProperties(c, prompted), remote);
    }

    /** The connector made for the address and connected. */
    method Connect(url: Nullable<string>, props: Result<Nullable<Credentials>>, remote: Remote) returns (r: Result<()>)
      requires cache.connector.Null?
      modifies cache`connector
      ensures var d := Dial(url, props, remote);
              cache.connector == d.connector && r == d.result
    {
      if props.Err? {
        r := Err(Rewrap(props.error));
        return;
      }
      if url.Null? {
        r := Err(Rewrap(Exception(NullPointer, Null)));
        return;
      }
      var opening := remote.open(url.value, props.value);
      if opening.Rejected? {
        r := Err(Rewrap(opening.error));
        return;
      }
      cache.connector := NonNull(Connector(url.value, props.value, Unconnected));
      if opening.Refused? {
        r := Err(Rewrap(opening.error));
        return;
      }
      cache.connector := NonNull(Connector(url.value, props.value, Connected));
      r := Ok(());
    }

    /** The server queries, logging as they go. */
    method Query(k: Connector, server: Server, c: CommandConfig, env: EnvironmentImpl) returns (r: Result<()>)
      requires c.Valid()
      modifies env`out
      ensures var q := AfterConnect(k, server, c);
              r == q.result && env.out == old(env.out) + Logged(q.logged)
    {
      var q := AfterConnect(k, server, c);
      LogAll(q.logged, env);
      r := q.result;
    }

    /** `cleanup()`, logging on the console `env` of the configuration; `connectionId`
        is what the connector answers when connected. */
    method Cleanup(env: EnvironmentImpl, connectionId: string) returns (r: Result<()>)
      requires config.NonNull? ==> config.value.Valid()
      modifies cache, env`out
      ensures var step := CleanupStep(old(cache.State()), config, connectionId);
              cache.State() == step.cache && r == step.result && env.out == old(env.out) + Logged(step.logged)
    {
      r := Ok(());
      if !cache.persistent {
        var debug := OptionSet(config, "debug");
        if debug.Err? {
          r := Err(debug.error);
          return;
        }
        if debug.value && cache.connector.NonNull? && cache.connector.value.state == Connected {
          LogAll(["Closing connection " + connectionId], env);
        }
        if cache.connector.NonNull? {
          cache.connector := NonNull(cache.connector.value.(state := Closed));
        }
      }
    }
  }
}
