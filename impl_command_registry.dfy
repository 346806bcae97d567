/** `CommandRegistryImpl`: a map from command name to command and a map from command
    to its viable options. `register(command)` keeps the first command registered under
    a name; `register(name, command)` overwrites, and is what installs "help". */
module ImplCommandRegistry {
  import opened JavaLang
  import opened OptionBinding
  import opened CommandClasses

  /** The registry's two maps. */
  datatype RegistryState = RegistryState(commands: map<string, Command>, commandOptions: map<Command, seq<Option>>)

  /** Every option list stored is the one the superclass walk gives, and every
      registered command has one. */
  predicate Coherent(h: Hierarchy, s: RegistryState)
  {
    WellFormed(h)
    && (forall c :: c in s.commandOptions ==> c.cls < |h| && s.commandOptions[c] == OptionsOf(h, c.cls))
    && (forall n :: n in s.commands ==> s.commands[n] in s.commandOptions)
  }

  /** `register(name, command)`: ignored for a class without `@Descriptor`. */
  function Put(h: Hierarchy, s: RegistryState, name: string, command: Command): RegistryState
    requires WellFormed(h) && command.cls < |h|
  {
    if h[command.cls].descriptor.Null? then s
    else RegistryState(s.commands[name := command], s.commandOptions[command := OptionsOf(h, command.cls)])
  }

  /** `register(command)`: under the descriptor's name, unless that name is taken. */
  function RegisterFirst(h: Hierarchy, s: RegistryState, command: Command): RegistryState
    requires WellFormed(h) && command.cls < |h|
  {
    var d := h[command.cls].descriptor;
    if d.Null? || d.value in s.commands then s else Put(h, s, d.value, command)
  }

  predicate Known(h: Hierarchy, commands: seq<Command>)
  {
    forall k :: 0 <= k < |commands| ==> commands[k].cls < |h|
  }

  /** `register(command)` for each command in turn. */
  function RegisterEach(h: Hierarchy, s: RegistryState, commands: seq<Command>): RegistryState
    requires WellFormed(h) && Known(h, commands)
    decreases |commands|
  {
    if |commands| == 0 then s
    else RegisterEach(h, RegisterFirst(h, s, commands[0]), commands[1..])
  }

  predicate Named(h: Hierarchy, c: Command, name: string)
    requires c.cls < |h|
  {
    h[c.cls].descriptor == NonNull(name)
  }

  // ------------------------------------------------------------------ lemmas

  lemma PutCoherent(h: Hierarchy, s: RegistryState, name: string, command: Command)
    requires Coherent(h, s) && command.cls < |h|
    ensures Coherent(h, Put(h, s, name, command))
  {
  }

  lemma {:induction false} RegisterEachCoherent(h: Hierarchy, s: RegistryState, commands: seq<Command>)
    requires Coherent(h, s) && Known(h, commands)
    ensures Coherent(h, RegisterEach(h, s, commands))
    decreases |commands|
  {
    if |commands| > 0 {
      var d := h[commands[0].cls].descriptor;
      if d.NonNull? && d.value !in s.commands {
        PutCoherent(h, s, d.value, commands[0]);
      }
      RegisterEachCoherent(h, RegisterFirst(h, s, commands[0]), commands[1..]);
    }
  }

  /** A name registered before stays bound to the same command. */
  lemma {:induction false} EarlierWins(h: Hierarchy, s: RegistryState, commands: seq<Command>, name: string)
    requires WellFormed(h) && Known(h, commands) && name in s.commands
    ensures name in RegisterEach(h, s, commands).commands
    ensures RegisterEach(h, s, commands).commands[name] == s.commands[name]
    decreases |commands|
  {
    if |commands| > 0 {
      EarlierWins(h, RegisterFirst(h, s, commands[0]), commands[1..], name);
    }
  }

  /** A fresh name ends up bound to the first command whose descriptor carries it,
      here the one at `k`: later commands with the same name do not replace it. */
  lemma {:induction false} FirstNamedWins(h: Hierarchy, s: RegistryState, commands: seq<Command>, name: string, k: nat)
    requires WellFormed(h) && Known(h, commands) && name !in s.commands
    requires k < |commands| && Named(h, commands[k], name)
    requires forall j :: 0 <= j < k ==> !Named(h, commands[j], name)
    ensures name in RegisterEach(h, s, commands).commands
    ensures RegisterEach(h, s, commands).commands[name] == commands[k]
    decreases k
  {
    var s' := RegisterFirst(h, s, commands[0]);
    var rest := commands[1..];
    assert Known(h, rest);
    if k == 0 {
      assert s'.commands[name] == commands[0];
      EarlierWins(h, s', rest, name);
    } else {
      assert !Named(h, commands[0], name);
      assert name !in s'.commands;
      assert rest[k - 1] == commands[k];
      assert forall j :: 0 <= j < k - 1 ==> rest[j] == commands[j + 1];
      FirstNamedWins(h, s', rest, name, k - 1);
    }
  }

  /** A fresh name that no command's descriptor carries stays unbound. */
  lemma {:induction false} NoneNamed(h: Hierarchy, s: RegistryState, commands: seq<Command>, name: string)
    requires WellFormed(h) && Known(h, commands) && name !in s.commands
    requires forall k :: 0 <= k < |commands| ==> !Named(h, commands[k], name)
    ensures name !in RegisterEach(h, s, commands).commands
    decreases |commands|
  {
    if |commands| > 0 {
      var s' := RegisterFirst(h, s, commands[0]);
      var rest := commands[1..];
      assert Known(h, rest);
      assert !Named(h, commands[0], name);
      assert name !in s'.commands;
      assert forall k :: 0 <= k < |rest| ==> rest[k] == commands[k + 1];
      NoneNamed(h, s', rest, name);
    }
  }

  // ------------------------------------------------------------------- the class

  class CommandRegistryImpl {
    /** What reflection tells about command classes. */
    const hierarchy: Hierarchy
    var commands: map<string, Command>
    var commandOptions: map<Command, seq<Option>>

    function State(): RegistryState
      reads this
    {
      RegistryState(commands, commandOptions)
    }

    ghost predicate Valid()
      reads this
    {
      Coherent(hierarchy, State())
    }

    constructor (h: Hierarchy)
      requires WellFormed(h)
      ensures Valid() && hierarchy == h && commands == map[] && commandOptions == map[]
    {
      hierarchy := h;
      commands := map[];
      commandOptions := map[];
    }

    /** `register(name, command)`: stores the command under `name` and its options
        under the command, overwriting both; the options are gathered by walking the
        superclasses up to `Object`. */
    method RegisterAs(name: string, command: Command)
      requires Valid() && command.cls < |hierarchy|
      modifies this`commands, this`commandOptions
      ensures Valid()
      ensures State() == Put(hierarchy, old(State()), name, command)
    {
      var c: Nullable<nat> := NonNull(command.cls);
      if hierarchy[c.value].descriptor.Null? {
        return;
      }
      commands := commands[name := command];
      var options: seq<Option> := [];
      while c.NonNull?
        invariant ClassRef(hierarchy, c)
        invariant options + OptionsFrom(hierarchy, c) == OptionsOf(hierarchy, command.cls)
        decreases Rank(c)
      {
        options := options + hierarchy[c.value].options;
        c := hierarchy[c.value].parent;
      }
      commandOptions := commandOptions[command := options];
      PutCoherent(hierarchy, old(State()), name, command);
    }

    /** `register(command)`: a no-op without `@Descriptor` or when the descriptor's name
        is already registered. */
    method Register(command: Command)
      requires Valid() && command.cls < |hierarchy|
      modifies this`commands, this`commandOptions
      ensures Valid()
      ensures State() == RegisterFirst(hierarchy, old(State()), command)
    {
      var d := hierarchy[command.cls].descriptor;
      if d.Null? {
        return;
      }
      if d.value in commands {
        return;
      }
      RegisterAs(d.value, command);
    }

    /** `isRegistered`: false for null, otherwise key membership. */
    function IsRegistered(name: Nullable<string>): (b: bool)
      reads this
      ensures b <==> name.NonNull? && name.value in commands
    {
      if name.Null? then false else name.value in commands
    }

    /** `get`: the registered command, or null. */
    function Get(name: Nullable<string>): (r: Nullable<Command>)
      reads this
      ensures r.NonNull? <==> IsRegistered(name)
      ensures r.NonNull? ==> r.value == commands[name.value]
    {
      if name.NonNull? && name.value in commands then NonNull(commands[name.value]) else Null
    }

    /** `getViableOptions`: the stored list, which for a registered command is the
        superclass walk's. */
    function GetViableOptions(command: Command): (r: Nullable<seq<Option>>)
      requires Valid()
      reads this
      ensures r.NonNull? <==> command in commandOptions
      ensures r.NonNull? ==> command.cls < |hierarchy| && r.value == OptionsOf(hierarchy, command.cls)
    {
      if command in commandOptions then NonNull(commandOptions[command]) else Null
    }

    /** `getCommands`: the registered command objects. */
    function GetCommands(): (r: set<Command>)
      reads this
      ensures forall c :: c in r <==> exists n :: n in commands && commands[n] == c
    {
      commands.Values
    }
  }
}
