/** The reflective facts the registry reads from command classes, made explicit: each
    class names its superclass, its `@Descriptor` name if it has one, and the options
    of its `@Options` annotation. A command's viable options are those of its class
    followed by those of every superclass up to `Object`, most-derived first. */
module CommandClasses {
  import opened JavaLang
  import opened OptionBinding

  /** A command class. `parent` is null for a direct subclass of `Object`; a class
      without `@Options` has no options. */
  datatype ClassDecl = ClassDecl(
    name: string,
    parent: Nullable<nat>,
    descriptor: Nullable<string>,
    options: seq<Option>)

  /** Classes are listed so that every superclass comes before its subclasses, which is
      what makes the walk up to `Object` finite. */
  type Hierarchy = seq<ClassDecl>

  predicate WellFormed(h: Hierarchy)
  {
    forall i :: 0 <= i < |h| ==> (h[i].parent.NonNull? ==> h[i].parent.value < i)
  }

  /** A command object: its identity and the index of its runtime class. */
  datatype Command = Command(id: nat, cls: nat)

  predicate ClassRef(h: Hierarchy, c: Nullable<nat>)
  {
    c.NonNull? ==> c.value < |h|
  }

  function Rank(c: Nullable<nat>): nat
  {
    if c.Null? then 0 else c.value + 1
  }

  /** The options collected by the superclass walk from `c` up to `Object`. */
  function OptionsFrom(h: Hierarchy, c: Nullable<nat>): seq<Option>
    requires WellFormed(h) && ClassRef(h, c)
    decreases Rank(c)
  {
    if c.Null? then [] else h[c.value].options + OptionsFrom(h, h[c.value].parent)
  }

  function OptionsOf(h: Hierarchy, cls: nat): seq<Option>
    requires WellFormed(h) && cls < |h|
  {
    OptionsFrom(h, NonNull(cls))
  }

  /** `c` itself and its superclasses, most-derived first. */
  function Lineage(h: Hierarchy, c: Nullable<nat>): (r: seq<nat>)
    requires WellFormed(h) && ClassRef(h, c)
    ensures forall k :: 0 <= k < |r| ==> r[k] < |h|
    ensures forall k :: 0 < k < |r| ==> h[r[k - 1]].parent == NonNull(r[k])
    ensures c.NonNull? <==> |r| > 0
    ensures c.NonNull? ==> r[0] == c.value && h[r[|r| - 1]].parent.Null?
    decreases Rank(c)
  {
    if c.Null? then [] else [c.value] + Lineage(h, h[c.value].parent)
  }

  /** The options of an ancestor, its own and inherited, end the options of every
      descendant: nothing is dropped or de-duplicated on the way down. */
  lemma {:induction false} InheritedSuffix(h: Hierarchy, c: Nullable<nat>, k: nat)
    requires WellFormed(h) && ClassRef(h, c)
    requires k < |Lineage(h, c)|
    ensures exists p: seq<Option> :: OptionsFrom(h, c) == p + OptionsOf(h, Lineage(h, c)[k])
    decreases Rank(c)
  {
    var i := c.value;
    if k == 0 {
      assert OptionsFrom(h, c) == [] + OptionsOf(h, i);
    } else {
      InheritedSuffix(h, h[i].parent, k - 1);
      var p :| OptionsFrom(h, h[i].parent) == p + OptionsOf(h, Lineage(h, h[i].parent)[k - 1]);
      assert OptionsFrom(h, c) == (h[i].options + p) + OptionsOf(h, Lineage(h, c)[k]);
    }
  }

  // ---------------------------------------------------------- the command classes

  function Flag(name: string, single: char): Option
  {
    Option(name, single, "", false, false, "")
  }

  function Setter(name: string, single: char, value: string, required: bool): Option
  {
    Option(name, single, value, true, required, "")
  }

  const AbstractCommandOptions: seq<Option> :=
    [Flag("verbose", 'V'), Flag("debug", 'D'), Flag("interactive", 'I')]

  const AbstractJMXCommandOptions: seq<Option> :=
    [Setter("pid", 'i', "", false), Setter("jmx", 'u', "", false), Setter("port", 'p', "", false),
     Setter("username", 'U', "", false), Setter("password", 'P', "", false),
     Flag("guess", 'g'), Setter("inject", 'j', "", false)]

  const StatusCommandOptions: seq<Option> :=
    [Setter("engine", 'E', "*", false), Setter("hostname", 'H', "*", false), Setter("webapp", 'W', "", false),
     Flag("webapps", 'w'), Flag("datasources", 'D'), Flag("connectors", 'c'), Flag("threads", 't'),
     Flag("stats", 's')]

  const WebappCommandOptions: seq<Option> :=
    [Setter("engine", 'e', "", false), Setter("hostname", 'n', "", false), Setter("webapp", 'a', "", true)]

  const HostCommandOptions: seq<Option> :=
    [Setter("engine", 'E', "", false), Setter("hostname", 'H', "", true)]

  const DiagnosticCommandOptions: seq<Option> :=
    [Setter("samples", 'S', "10", false), Setter("duration", 'D', "1", false)]

  const AbstractWebappCommandOptions: seq<Option> :=
    [Setter("webapp", 'a', "", true)]

  const AbstractCommandClass: nat := 0
  const AbstractJMXCommandClass: nat := 1
  const StatusCommandClass: nat := 2
  const WebappCommandClass: nat := 3
  const HostCommandClass: nat := 4
  const DiagnosticCommandClass: nat := 5
  const HelpCommandClass: nat := 6
  const AbstractWebappCommandClass: nat := 7

  /** The commands package: the classes whose logic this model covers, with their
      annotations. */
  const Commands: Hierarchy := [
    ClassDecl("AbstractCommand", Null, Null, AbstractCommandOptions),
    ClassDecl("AbstractJMXCommand", NonNull(0), Null, AbstractJMXCommandOptions),
    ClassDecl("StatusCommand", NonNull(1), NonNull("status"), StatusCommandOptions),
    ClassDecl("WebappCommand", NonNull(2), NonNull("webapp"), WebappCommandOptions),
    ClassDecl("HostCommand", NonNull(1), NonNull("host"), HostCommandOptions),
    ClassDecl("DiagnosticCommand", NonNull(1), NonNull("diagnostic"), DiagnosticCommandOptions),
    ClassDecl("HelpCommand", NonNull(0), NonNull("help"), []),
    ClassDecl("AbstractWebappCommand", NonNull(2), Null, AbstractWebappCommandOptions)
  ]

  lemma CommandsWellFormed()
    ensures WellFormed(Commands)
  {
  }

  /** In a hierarchy with a single root class, every class ends its options with the
      root's. */
  lemma SingleRootInherited(h: Hierarchy, cls: nat)
    requires WellFormed(h) && cls < |h|
    requires forall i :: 0 < i < |h| ==> h[i].parent.NonNull?
    ensures exists p: seq<Option> :: OptionsOf(h, cls) == p + OptionsOf(h, 0)
  {
    var c := NonNull(cls);
    var l := Lineage(h, c);
    var last := l[|l| - 1];
    assert last == 0 by {
      assert h[last].parent.Null?;
    }
    InheritedSuffix(h, c, |l| - 1);
  }

  /** Every command class inherits verbose 'V', debug 'D' and interactive 'I' from
      `AbstractCommand`, as the last three of its options. */
  lemma EveryCommandInheritsBase(cls: nat)
    requires cls < |Commands|
    ensures WellFormed(Commands)
    ensures exists p: seq<Option> :: OptionsOf(Commands, cls) == p + AbstractCommandOptions
  {
    var h := Commands;
    assert forall i :: 0 < i < |h| ==> h[i].parent.NonNull?;
    SingleRootInherited(h, cls);
    assert OptionsOf(h, 0) == AbstractCommandOptions by {
      assert OptionsFrom(h, Null) == [];
      assert h[0].options == AbstractCommandOptions;
    }
  }

  /** The webapp command's options: its own, then the status command's, then the
      JMX and base options; "webapp", "engine" and "hostname" are each declared twice. */
  lemma WebappCommandOptionList()
    ensures WellFormed(Commands)
    ensures OptionsOf(Commands, WebappCommandClass)
      == WebappCommandOptions + StatusCommandOptions + AbstractJMXCommandOptions + AbstractCommandOptions
    ensures OptionsOf(Commands, WebappCommandClass)[2].name == OptionsOf(Commands, WebappCommandClass)[5].name == "webapp"
    ensures OptionsOf(Commands, WebappCommandClass)[2] != OptionsOf(Commands, WebappCommandClass)[5]
  {
    assert OptionsFrom(Commands, NonNull(0)) == AbstractCommandOptions;
    assert OptionsFrom(Commands, NonNull(1)) == AbstractJMXCommandOptions + AbstractCommandOptions;
    assert OptionsFrom(Commands, NonNull(2)) == StatusCommandOptions + AbstractJMXCommandOptions + AbstractCommandOptions;
  }

  /** The diagnostic command's "duration" and the inherited "debug" share the trigger
      'D'. */
  lemma DiagnosticCommandOptionList()
    ensures WellFormed(Commands)
    ensures OptionsOf(Commands, DiagnosticCommandClass)
      == DiagnosticCommandOptions + AbstractJMXCommandOptions + AbstractCommandOptions
  {
    assert OptionsFrom(Commands, NonNull(0)) == AbstractCommandOptions;
    assert OptionsFrom(Commands, NonNull(1)) == AbstractJMXCommandOptions + AbstractCommandOptions;
  }

  /** The host command's options: its own, then the JMX and base options. */
  lemma HostCommandOptionList()
    ensures WellFormed(Commands)
    ensures OptionsOf(Commands, HostCommandClass)
      == HostCommandOptions + AbstractJMXCommandOptions + AbstractCommandOptions
  {
    assert OptionsFrom(Commands, NonNull(0)) == AbstractCommandOptions;
    assert OptionsFrom(Commands, NonNull(1)) == AbstractJMXCommandOptions + AbstractCommandOptions;
  }

  /** The options of a command built on `AbstractWebappCommand`: "webapp", then the
      status command's, then the JMX and base options. */
  lemma AbstractWebappCommandOptionList()
    ensures WellFormed(Commands)
    ensures OptionsOf(Commands, AbstractWebappCommandClass)
      == AbstractWebappCommandOptions + StatusCommandOptions + AbstractJMXCommandOptions + AbstractCommandOptions
  {
    assert OptionsFrom(Commands, NonNull(0)) == AbstractCommandOptions;
    assert OptionsFrom(Commands, NonNull(1)) == AbstractJMXCommandOptions + AbstractCommandOptions;
    assert OptionsFrom(Commands, NonNull(2)) == StatusCommandOptions + AbstractJMXCommandOptions + AbstractCommandOptions;
  }

  /** No JMX or base option is named "engine", "hostname" or "webapp": those come only
      from the host, status and webapp commands' own declarations. */
  lemma InheritedNames()
    ensures forall o :: o in AbstractJMXCommandOptions + AbstractCommandOptions ==>
              o.name != "engine" && o.name != "hostname" && o.name != "webapp"
  {
    assert forall o :: o in AbstractJMXCommandOptions ==> o.name != "engine" && o.name != "hostname" && o.name != "webapp";
    assert forall o :: o in AbstractCommandOptions ==> o.name != "engine" && o.name != "hostname" && o.name != "webapp";
  }

  /** The status command declares "engine" and "hostname" with the default "*" and
      "webapp" with "". */
  lemma StatusOptionDefaults()
    ensures forall o :: o in StatusCommandOptions ==>
              (o.name == "engine" ==> o.value == "*") && (o.name == "hostname" ==> o.value == "*")
              && (o.name == "webapp" ==> o.value == "")
  {
  }
}
