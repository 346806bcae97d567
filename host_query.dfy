/** What the host and webapp commands (`commands.HostCommand`, `commands.WebappCommand`,
    `commands.AbstractWebappCommand`) share: the Host query pattern built from the
    "engine" and "hostname" options, the rule that exactly one Host must match, the
    rewrapping of every failure as a CommandException, and the loop that invokes an
    operation on each child of the Host whose docBase equals the "webapp" option. */
module HostQuery {
  import opened JavaLang
  import opened OptionBinding
  import opened ImplCommandConfig
  import opened JmxQuery

  const HostKeys: string := ":type=Host,host="

  // ------------------------------------------------------------ the pattern

  /** The engine or hostname part: "*" unless the option is set, and then
      `getOptionValue`, the declared default of the option bound under that name. */
  function PatternPart(c: CommandConfig, name: string): (r: string)
    requires c.Valid()
    ensures !IsOptionSet(c, NonNull(name)) ==> r == "*"
    ensures IsOptionSet(c, NonNull(name)) ==> exists o :: o in c.options && o.name == name && r == o.value
  {
    if IsOptionSet(c, NonNull(name)) then GetOptionValue(c, NonNull(name)).value else "*"
  }

  /** engine + ":type=Host,host=" + hostname. */
  function HostPattern(c: CommandConfig): string
    requires c.Valid()
  {
    PatternPart(c, "engine") + HostKeys + PatternPart(c, "hostname")
  }

  /** Every option named `name` among the bound ones declares the default `d`. */
  predicate Declares(c: CommandConfig, name: string, d: string)
  {
    forall o :: o in c.options && o.name == name ==> o.value == d
  }

  /** When each of the two options is declared with a single default, the pattern is
      fixed by which of them are set: the text typed after the option plays no part. */
  lemma PatternOfDeclared(c: CommandConfig, engine: string, hostname: string)
    requires c.Valid() && Declares(c, "engine", engine) && Declares(c, "hostname", hostname)
    ensures HostPattern(c) == (if IsOptionSet(c, NonNull("engine")) then engine else "*") + HostKeys
                             + (if IsOptionSet(c, NonNull("hostname")) then hostname else "*")
  {
  }

  /** After binding, a required declared option is always set ... */
  lemma RequiredIsSet(rev: Revision, viable: seq<Option>, tokens: seq<string>, c: CommandConfig, o: Option)
    requires o in viable && o.required
    requires Bind(rev, viable, tokens).Ok? && c.options == Bind(rev, viable, tokens).value && c.Valid()
    ensures IsOptionSet(c, NonNull(o.name))
  {
    BindCases(rev, viable, tokens);
    BoundKeys(rev, viable, tokens);
    var k :| 0 <= k < |viable| && viable[k] == o;
    assert !Fails(viable[k], tokens);
    OptionSetIffFound(c, NonNull(o.name));
  }

  /** ... and a name all of whose declarations carry one default answers that default. */
  lemma BoundDeclares(rev: Revision, viable: seq<Option>, tokens: seq<string>, c: CommandConfig, name: string, d: string)
    requires forall o :: o in viable && o.name == name ==> o.value == d
    requires Bind(rev, viable, tokens).Ok? && c.options == Bind(rev, viable, tokens).value
    ensures Declares(c, name, d)
  {
    BoundKeys(rev, viable, tokens);
  }

  // ------------------------------------------------------------ finding the Host

  /** The Host found, or the failure, with the log calls made on the way. */
  datatype HostLookup = HostLookup(host: Result<string>, logged: seq<LogCall>)

  function CountMessage(n: nat): Exception
  {
    Exception(Command, NonNull(Text("Expected one Host, found: " + DecimalString(n))))
  }

  /** `ObjectName.getInstance(pattern)`, `query(host, null)` and the check that exactly
      one Host matched; otherwise the pattern is logged and the count thrown. */
  function FindHost(c: CommandConfig, mb: Mbeans): HostLookup
    requires c.Valid()
  {
    var p := HostPattern(c);
    var on := mb.objectName(p);
    if on.Err? then HostLookup(Err(on.error), [])
    else
      var hosts := Query(mb, on.value);
      if hosts.Err? then HostLookup(Err(hosts.error), [])
      else if |hosts.value| != 1 then HostLookup(Err(CountMessage(|hosts.value|)), [LogCall("hosts query:" + p, [])])
      else HostLookup(Ok(hosts.value[0]), [])
  }

  /** A Host is found exactly when the server reports one name for the pattern, and it
      is that name; any other count is thrown, after logging the pattern. */
  lemma FindHostCases(c: CommandConfig, mb: Mbeans)
    requires c.Valid()
    ensures var p := HostPattern(c);
            var r := FindHost(c, mb);
            (mb.objectName(p).Err? ==> r == HostLookup(Err(mb.objectName(p).error), []))
            && (mb.objectName(p).Ok? ==>
                  var found := mb.queryNames(mb.objectName(p).value);
                  (found.Err? ==> r == HostLookup(Err(found.error), []))
                  && (found.Ok? && |found.value| == 1 ==> r == HostLookup(Ok(found.value[0]), []))
                  && (found.Ok? && |found.value| != 1 ==>
                        r == HostLookup(Err(CountMessage(|found.value|)), [LogCall("hosts query:" + p, [])])))
  {
    var p := HostPattern(c);
    if mb.objectName(p).Ok? {
      var found := mb.queryNames(mb.objectName(p).value);
      if found.Ok? {
        SortedAscending(found.value);
        assert |Sorted(found.value)| == |multiset(found.value)| == |found.value|;
        if |found.value| == 1 {
          assert Sorted(found.value) == Insert(found.value[0], []);
        }
      }
    }
  }

  // ------------------------------------------------------------ rewrapping

  /** `catch (Exception e) { throw new CommandException(e.getMessage(), ...) }`. */
  function AsCommand(r: Run): (w: Run)
    ensures w.logged == r.logged && w.invoked == r.invoked
    ensures r.result.Ok? ==> w.result == r.result
    ensures r.result.Err? ==> w.result == Err(Exception(Command, r.result.error.message))
  {
    if r.result.Ok? then r else r.(result := Err(Exception(Command, r.result.error.message)))
  }

  // ------------------------------------------------------------ the children

  /** `(ObjectName[]) attribute(host, "children")` walked by a for-each loop: null
      throws NullPointerException, anything but an array of names ClassCastException. */
  function ChildNames(v: Value): Result<seq<string>>
  {
    match v
    case NullValue => Err(Exception(NullPointer, Null))
    case Items(xs) =>
      if forall k :: 0 <= k < |xs| ==> xs[k].Name? then Ok(Names(xs)) else Err(Exception(ClassCast, Null))
    case _ => Err(Exception(ClassCast, Null))
  }

  function Names(xs: seq<Value>): (ns: seq<string>)
    requires forall k :: 0 <= k < |xs| ==> xs[k].Name?
    ensures |ns| == |xs| && forall k :: 0 <= k < |xs| ==> ns[k] == xs[k].name
  {
    if xs == [] then [] else [xs[0].name] + Names(xs[1..])
  }

  /** `(String) attribute(webapp, "docBase")`. */
  function DocBase(v: Value): Result<Nullable<string>>
  {
    match v
    case NullValue => Ok(Null)
    case Str(s) => Ok(NonNull(s))
    case _ => Err(Exception(ClassCast, Null))
  }

  /** One pass of the loop for the child `n`: read its docBase, and invoke `op` on it
      when `docBase.equals(appDocBase)`; a null `docBase` throws. */
  function VisitChild(mb: Mbeans, docBase: Nullable<string>, op: string, n: string): Run
  {
    var (v, logs) := Attribute(mb, n, "docBase");
    var app := DocBase(v);
    if app.Err? then Run(Err(app.error), logs, [])
    else if docBase.Null? then Run(Err(Exception(NullPointer, Null)), logs, [])
    else if app.value == docBase then
      var answer := mb.invoke(n, op);
      Run(if answer.Err? then Err(answer.error) else Ok(()), logs, [Invocation(n, op)])
    else Run(Ok(()), logs, [])
  }

  /** The loop over `names`: each pass in turn, up to the first that throws. */
  function Visit(mb: Mbeans, docBase: Nullable<string>, op: string, names: seq<string>): Run
    decreases |names|
  {
    if names == [] then Run(Ok(()), [], [])
    else
      var before := Visit(mb, docBase, op, names[..|names| - 1]);
      if before.result.Err? then before
      else
        var pass := VisitChild(mb, docBase, op, names[|names| - 1]);
        Run(pass.result, before.logged + pass.logged, before.invoked + pass.invoked)
  }

  /** The children whose docBase the server answers as exactly `docBase`, in order. */
  function Matching(mb: Mbeans, docBase: string, names: seq<string>): (m: seq<string>)
    decreases |names|
  {
    if names == [] then []
    else
      var last := names[|names| - 1];
      Matching(mb, docBase, names[..|names| - 1]) + (if mb.attribute(last, "docBase") == Ok(Str(docBase)) then [last] else [])
  }

  /** `op` on each of `targets`, in order. */
  function Calls(targets: seq<string>, op: string): (r: seq<Invocation>)
    decreases |targets|
  {
    if targets == [] then [] else Calls(targets[..|targets| - 1], op) + [Invocation(targets[|targets| - 1], op)]
  }

  /** A loop that completes invoked `op` on exactly the matching children, in order:
      none, one or several of them. */
  lemma {:induction false} CompletedLoopInvokesMatching(mb: Mbeans, docBase: Nullable<string>, op: string, names: seq<string>)
    requires Visit(mb, docBase, op, names).result.Ok?
    ensures names != [] ==> docBase.NonNull?
    ensures docBase.NonNull? ==> Visit(mb, docBase, op, names).invoked == Calls(Matching(mb, docBase.value, names), op)
    decreases |names|
  {
    if names != [] {
      var init := names[..|names| - 1];
      var last := names[|names| - 1];
      CompletedLoopInvokesMatching(mb, docBase, op, init);
      var m := Matching(mb, docBase.value, init);
      if mb.attribute(last, "docBase") == Ok(Str(docBase.value)) {
        assert (m + [last])[..|m|] == m;
        assert VisitChild(mb, docBase, op, last).invoked == [Invocation(last, op)];
      } else {
        assert VisitChild(mb, docBase, op, last).invoked == [];
        assert Matching(mb, docBase.value, names) == m + [] == m;
      }
    }
  }

  /** A loop that throws stops at the first child whose pass throws: every invocation
      made is on a child of the list, and the last one made, if any, may be the one
      that failed. */
  lemma {:induction false} InvokedAreChildren(mb: Mbeans, docBase: Nullable<string>, op: string, names: seq<string>)
    ensures var r := Visit(mb, docBase, op, names);
            |r.invoked| <= |names| && forall k :: 0 <= k < |r.invoked| ==> r.invoked[k].target in names && r.invoked[k].operation == op
    decreases |names|
  {
    if names != [] {
      InvokedAreChildren(mb, docBase, op, names[..|names| - 1]);
    }
  }

  /** The loop, as the source runs it. */
  method InvokeMatching(mb: Mbeans, docBase: Nullable<string>, op: string, names: seq<string>) returns (run: Run)
    ensures run == Visit(mb, docBase, op, names)
  {
    run := Run(Ok(()), [], []);
    var i := 0;
    while i < |names|
      invariant 0 <= i <= |names|
      invariant run == Visit(mb, docBase, op, names[..i])
      invariant run.result.Ok?
    {
      var (v, logs) := Attribute(mb, names[i], "docBase");
      var app := DocBase(v);
      run := run.(logged := run.logged + logs);
      if app.Err? {
        run := run.(result := Err(app.error));
      } else if docBase.Null? {
        run := run.(result := Err(Exception(NullPointer, Null)));
      } else if app.value == docBase {
        var answer := mb.invoke(names[i], op);
        run := run.(invoked := run.invoked + [Invocation(names[i], op)]);
        if answer.Err? {
          run := run.(result := Err(answer.error));
        }
      }
      i := i + 1;
      assert run == Visit(mb, docBase, op, names[..i]) by {
        assert names[..i][..i - 1] == names[..i - 1];
      }
      if run.result.Err? {
        StopsAtFailure(mb, docBase, op, names, i);
        break;
      }
    }
    assert names[..|names|] == names;
  }

  /** Once a prefix of the loop throws, the whole loop ends as that prefix did. */
  lemma {:induction false} StopsAtFailure(mb: Mbeans, docBase: Nullable<string>, op: string, names: seq<string>, i: nat)
    requires i <= |names| && Visit(mb, docBase, op, names[..i]).result.Err?
    ensures Visit(mb, docBase, op, names) == Visit(mb, docBase, op, names[..i])
    decreases |names| - i
  {
    if i < |names| {
      assert names[..i + 1][..i] == names[..i];
      StopsAtFailure(mb, docBase, op, names, i + 1);
    } else {
      assert names[..i] == names;
    }
  }

  // ------------------------------------------------------------ the webapp commands

  /** The body shared by `WebappCommand.execute` and `AbstractWebappCommand.execute`
      once the operation `op` is known: read the "webapp" option, find the one Host,
      read its children, invoke `op` on each whose docBase matches, then run the status
      report, which ends as `status`. */
  function WebappsRun(c: CommandConfig, mb: Mbeans, op: string, status: Result<()>): Run
    requires c.Valid()
  {
    var docBase := GetOptionValue(c, NonNull("webapp"));
    var found := FindHost(c, mb);
    if found.host.Err? then Run(Err(found.host.error), found.logged, [])
    else
      var (v, logs) := Attribute(mb, found.host.value, "children");
      var children := ChildNames(v);
      if children.Err? then Run(Err(children.error), logs, [])
      else
        var loop := Visit(mb, docBase, op, children.value);
        Run(if loop.result.Err? then loop.result else status, logs + loop.logged, loop.invoked)
  }

  /** A run that completes found exactly one Host, read an array of children from it,
      invoked `op` on exactly the children whose docBase equals the "webapp" option,
      and ended as the status report did. */
  lemma WebappsRunCompleted(c: CommandConfig, mb: Mbeans, op: string, status: Result<()>)
    requires c.Valid() && WebappsRun(c, mb, op, status).result.Ok?
    ensures FindHost(c, mb).host.Ok? && status.Ok?
    ensures var children := ChildNames(Attribute(mb, FindHost(c, mb).host.value, "children").0);
            var docBase := GetOptionValue(c, NonNull("webapp"));
            children.Ok?
            && (children.value != [] ==> docBase.NonNull?)
            && (docBase.NonNull? ==>
                  WebappsRun(c, mb, op, status).invoked == Calls(Matching(mb, docBase.value, children.value), op))
  {
    var found := FindHost(c, mb);
    var children := ChildNames(Attribute(mb, found.host.value, "children").0);
    CompletedLoopInvokesMatching(mb, GetOptionValue(c, NonNull("webapp")), op, children.value);
  }

  /** No Host found, or not exactly one: nothing is read from a Host or invoked. */
  lemma NoHostNoInvocation(c: CommandConfig, mb: Mbeans, op: string, status: Result<()>)
    requires c.Valid() && FindHost(c, mb).host.Err?
    ensures WebappsRun(c, mb, op, status) == Run(Err(FindHost(c, mb).host.error), FindHost(c, mb).logged, [])
  {
  }

  /** `WebappsRun`, as the source runs it. */
  method ApplyToWebapps(c: CommandConfig, mb: Mbeans, op: string, status: Result<()>) returns (run: Run)
    requires c.Valid()
    ensures run == WebappsRun(c, mb, op, status)
  {
    var docBase := GetOptionValue(c, NonNull("webapp"));
    var found := FindHost(c, mb);
    if found.host.Err? {
      return Run(Err(found.host.error), found.logged, []);
    }
    var (v, logs) := Attribute(mb, found.host.value, "children");
    var children := ChildNames(v);
    if children.Err? {
      return Run(Err(children.error), logs, []);
    }
    var loop := InvokeMatching(mb, docBase, op, children.value);
    if loop.result.Err? {
      return Run(loop.result, logs + loop.logged, loop.invoked);
    }
    run := Run(status, logs + loop.logged, loop.invoked);
  }

  /** A name all of whose declarations carry one of two defaults answers one of them. */
  lemma BoundDeclaresEither(rev: Revision, viable: seq<Option>, tokens: seq<string>, c: CommandConfig, name: string, d: string, e: string)
    requires forall o :: o in viable && o.name == name ==> o.value == d || o.value == e
    requires Bind(rev, viable, tokens).Ok? && c.options == Bind(rev, viable, tokens).value && c.Valid()
    ensures PatternPart(c, name) == "*" || PatternPart(c, name) == d || PatternPart(c, name) == e
  {
    BoundKeys(rev, viable, tokens);
  }
}
