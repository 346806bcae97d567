/** What the dispatch loops of `ConsoleUIImpl`, `TerminalImpl` and the older `Terminal`
    have in common: the registration step, the decision taken for each command line,
    and the configure, execute and cleanup lifecycle of a found command. Commands are
    abstract: what their lifecycle methods do in a given iteration is a `Behaviour`. */
module Dispatch {
  import opened JavaLang
  import opened OptionBinding
  import opened CommandClasses
  import opened Tokenizer
  import opened ImplCommandRegistry
  import opened ImplEnvironment

  /** How a lifecycle call of a command ends. */
  datatype Outcome = Completes | Throws(error: Exception)

  /** What a command's `configure`, `execute` and `cleanup` do when called. */
  datatype Behaviour = Behaviour(configure: Outcome, execute: Outcome, cleanup: Outcome)

  /** A lifecycle call made on a command. */
  datatype Event = Configured(command: Command) | Executed(command: Command) | CleanedUp(command: Command)

  /** What the `try { bind; configure; execute } catch (Throwable) finally { cleanup }`
      block did: the calls made, the throwable caught and printed, and the one thrown
      by `cleanup`, which escapes the loop. */
  datatype Lifecycle = Lifecycle(events: seq<Event>, caught: Nullable<Exception>, escaped: Nullable<Exception>)

  function RunLifecycle(c: Command, bound: Result<map<Option, string>>, b: Behaviour): Lifecycle
  {
    var caught :=
      if bound.Err? then NonNull(bound.error)
      else if b.configure.Throws? then NonNull(b.configure.error)
      else if b.execute.Throws? then NonNull(b.execute.error)
      else Null;
    var events :=
      (if bound.Ok? then [Configured(c)] else [])
      + (if bound.Ok? && b.configure.Completes? then [Executed(c)] else [])
      + [CleanedUp(c)];
    Lifecycle(events, caught, if b.cleanup.Throws? then NonNull(b.cleanup.error) else Null)
  }

  /** The lifecycle of a found command: `configure` only once its options bound,
      `execute` only once `configure` completed, `cleanup` always and last; the
      throwable caught is the first one raised, and `cleanup`'s own escapes. */
  lemma LifecycleShape(c: Command, bound: Result<map<Option, string>>, b: Behaviour)
    ensures var l := RunLifecycle(c, bound, b);
            && |l.events| > 0 && l.events[|l.events| - 1] == CleanedUp(c)
            && (forall k :: 0 <= k < |l.events| - 1 ==> !l.events[k].CleanedUp?)
            && (forall e :: e in l.events ==> e.command == c)
            && (Configured(c) in l.events <==> bound.Ok?)
            && (Executed(c) in l.events <==> bound.Ok? && b.configure.Completes?)
            && (Executed(c) in l.events ==> l.events == [Configured(c), Executed(c), CleanedUp(c)])
            && (l.caught.Null? <==> bound.Ok? && b.configure.Completes? && b.execute.Completes?)
            && (bound.Err? ==> l.caught == NonNull(bound.error))
            && l.escaped == (if b.cleanup.Throws? then NonNull(b.cleanup.error) else Null)
  {
  }

  /** The branch an iteration of the loop takes for a line whose command name is `name`;
      `Fails` is a check that threw before any branch was taken. */
  datatype Decision =
    | Exit | Usage | NotFound(name: string) | Found(name: string, command: Command) | Idle
    | Fails(error: Exception)

  /** The checks in source order: exit/quit first, then a missing command outside
      interactive mode, then the registry lookup. An interactive line without a command
      falls through every branch. */
  function Decide(name: Nullable<string>, interactive: bool, commands: map<string, Command>): Decision
  {
    if IsExitName(name) then Exit
    else if name.Null? && !interactive then Usage
    else if name.NonNull? && name.value !in commands then NotFound(name.value)
    else if name.NonNull? then Found(name.value, commands[name.value])
    else Idle
  }

  /** Exactly one branch is taken for each line, and the found branch carries the
      registered command. */
  lemma DecideCases(name: Nullable<string>, interactive: bool, commands: map<string, Command>)
    ensures var d := Decide(name, interactive, commands);
            && (d.Exit? <==> IsExitName(name))
            && (d.Usage? <==> !IsExitName(name) && name.Null? && !interactive)
            && (d.Idle? <==> !IsExitName(name) && name.Null? && interactive)
            && (d.NotFound? <==> !IsExitName(name) && name.NonNull? && name.value !in commands)
            && (d.NotFound? ==> d.name == name.value)
            && (d.Found? <==> !IsExitName(name) && name.NonNull? && name.value in commands)
            && (d.Found? ==> d.name == name.value && d.command == commands[name.value])
  {
  }

  /** The decisions after which the loop breaks. */
  predicate Stops(d: Decision)
  {
    d.Exit? || d.Usage?
  }

  /** `first()` keeps the loop going while its counter, after the increment, is at
      most one; this measure falls at every such call, including the one that wraps
      the counter from `Long.MAX_VALUE` to `Long.MIN_VALUE`. */
  function FirstBudget(count: int): nat
  {
    if count <= 0 then 1 - count
    else if count == LongMax then 2 - LongMin
    else 0
  }

  lemma FirstBudgetFalls(count: int)
    requires LongMin <= count <= LongMax && Wrap64(count + 1) <= 1
    ensures FirstBudget(Wrap64(count + 1)) < FirstBudget(count)
  {
  }

  /** The source of the k-th command line of a run: the program arguments first, then,
      in interactive mode, the lines read from the console; outside it the loop keeps
      dispatching the arguments' line. */
  function SourceArgs(args: seq<string>, input: seq<string>, interactive: bool, k: nat): seq<string>
    requires interactive ==> k <= |input|
  {
    if k == 0 || !interactive then args else LineTokens(input[k - 1])
  }

  /** What one iteration did before reading the next line: lifecycle calls, printed
      output, and a throwable that escapes the loop. */
  datatype Effect = Effect(events: seq<Event>, printed: seq<Printed>, escaped: Nullable<Exception>)

  /** The record of one iteration: the line it dispatched, the branch taken, its
      effect, and whether it then prompted for the next line. */
  datatype Iteration = Iteration(
    options: seq<string>,
    arguments: seq<string>,
    decision: Decision,
    effect: Effect,
    prompted: bool)

  /** Everything the iterations printed, prompts included. */
  function AllPrinted(ran: seq<Iteration>, prompt: string): seq<Printed>
  {
    if |ran| == 0 then []
    else
      var it := ran[|ran| - 1];
      AllPrinted(ran[..|ran| - 1], prompt) + it.effect.printed + (if it.prompted then [Line(prompt)] else [])
  }

  /** The output after one more iteration: what it printed, then its prompt. */
  lemma PrintedSnoc(out0: seq<Printed>, out: seq<Printed>, ran: seq<Iteration>, it: Iteration, prompt: string)
    requires out == out0 + AllPrinted(ran, prompt)
    ensures !it.prompted ==> out + it.effect.printed == out0 + AllPrinted(ran + [it], prompt)
    ensures it.prompted ==> out + it.effect.printed + [Line(prompt)] == out0 + AllPrinted(ran + [it], prompt)
  {
    assert (ran + [it])[..|ran|] == ran;
    var a := AllPrinted(ran, prompt);
    if it.prompted {
      assert out0 + a + it.effect.printed + [Line(prompt)] == out0 + (a + it.effect.printed + [Line(prompt)]);
    } else {
      assert out0 + a + it.effect.printed == out0 + (a + it.effect.printed + []);
    }
  }

  /** Every lifecycle call of a run, in order. */
  function AllEvents(ran: seq<Iteration>): seq<Event>
  {
    if |ran| == 0 then [] else AllEvents(ran[..|ran| - 1]) + ran[|ran| - 1].effect.events
  }

  // --------------------------------------------------------------- registration

  /** Every `register(commands)`: each command through the first-wins `register`, then
      "help" bound unconditionally. */
  method RegisterAll(registry: CommandRegistryImpl, commands: seq<Command>, help: Command)
    requires registry.Valid() && Known(registry.hierarchy, commands) && help.cls < |registry.hierarchy|
    modifies registry`commands, registry`commandOptions
    ensures registry.Valid()
    ensures registry.State()
            == Put(registry.hierarchy, RegisterEach(registry.hierarchy, old(registry.State()), commands), "help", help)
  {
    ghost var h := registry.hierarchy;
    var i := 0;
    while i < |commands|
      invariant 0 <= i <= |commands| && registry.Valid()
      invariant RegisterEach(h, registry.State(), commands[i..]) == RegisterEach(h, old(registry.State()), commands)
    {
      assert commands[i..][1..] == commands[i + 1..];
      registry.Register(commands[i]);
      i := i + 1;
    }
    assert commands[i..] == [];
    registry.RegisterAs("help", help);
  }

  /** After registration "help" is the given help command, whatever was registered
      under that name before; every other name keeps the first registered command. */
  lemma HelpOverride(h: Hierarchy, s: RegistryState, commands: seq<Command>, help: Command, name: string)
    requires WellFormed(h) && Known(h, commands) && help.cls < |h| && h[help.cls].descriptor.NonNull?
    requires name != "help" && name !in s.commands
    ensures var r := Put(h, RegisterEach(h, s, commands), "help", help);
            "help" in r.commands && r.commands["help"] == help
            && r.commandOptions[help] == OptionsOf(h, help.cls)
            && (name in r.commands <==> name in RegisterEach(h, s, commands).commands)
            && (forall k :: 0 <= k < |commands| && Named(h, commands[k], name)
                  && (forall j :: 0 <= j < k ==> !Named(h, commands[j], name))
                  ==> name in r.commands && r.commands[name] == commands[k])
  {
    forall k | 0 <= k < |commands| && Named(h, commands[k], name)
               && (forall j :: 0 <= j < k ==> !Named(h, commands[j], name))
      ensures name in RegisterEach(h, s, commands).commands && RegisterEach(h, s, commands).commands[name] == commands[k]
    {
      FirstNamedWins(h, s, commands, name, k);
    }
  }
}
