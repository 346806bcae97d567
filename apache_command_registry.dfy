/** The `org.apache` revision's `CommandRegistry`: two sorted maps keyed by command
    name, one to the command and one to the option array of its `@Descriptor`. The
    public `register` keeps the first command registered under a name; the
    package-private `register(name, command)` overwrites both entries. */
module ApacheCommandRegistry {
  import opened JavaLang

  /** The `org.apache` `@Option`: a one-character trigger and an extended name. */
  datatype TriggerOption = TriggerOption(trigger: char, extended: string)

  /** The `@Descriptor` of a command's class: its name and its options. */
  datatype Descriptor = Descriptor(name: string, options: seq<TriggerOption>)

  /** A command object, with what reflection finds on its class: the descriptor, or
      null for a class without one. */
  datatype Command = Command(id: nat, descriptor: Nullable<Descriptor>)

  /** The registry's two maps. */
  datatype RegistryState = RegistryState(commands: map<string, Command>, commandOptions: map<string, seq<TriggerOption>>)

  /** Every registered name has an option array, which is the one of its command's
      descriptor, and no other name has one. */
  predicate Coherent(s: RegistryState)
  {
    s.commands.Keys == s.commandOptions.Keys
    && forall n :: n in s.commands ==>
         s.commands[n].descriptor.NonNull? && s.commandOptions[n] == s.commands[n].descriptor.value.options
  }

  /** `register(name, command)`: ignored for a class without `@Descriptor`. */
  function PutAs(s: RegistryState, name: string, command: Command): RegistryState
  {
    if command.descriptor.Null? then s
    else RegistryState(s.commands[name := command], s.commandOptions[name := command.descriptor.value.options])
  }

  /** The public `register(command)` on the name map alone: a command whose class has
      a descriptor claims the descriptor's name unless it is taken. */
  function Claim(m: map<string, Command>, command: Command): (r: map<string, Command>)
    ensures command.descriptor.NonNull? && command.descriptor.value.name !in m ==>
              r == m[command.descriptor.value.name := command]
    ensures command.descriptor.Null? || command.descriptor.value.name in m ==> r == m
  {
    if command.descriptor.Null? || command.descriptor.value.name in m then m
    else m[command.descriptor.value.name := command]
  }

  /** `register(command)`: under the descriptor's name, unless that name is taken. */
  function RegisterFirst(s: RegistryState, command: Command): (r: RegistryState)
    ensures r.commands == Claim(s.commands, command)
  {
    var d := command.descriptor;
    if d.Null? || d.value.name in s.commands then s else PutAs(s, d.value.name, command)
  }

  /** `register(command)` of each command in turn, on the name map. */
  function ClaimEach(m: map<string, Command>, commands: seq<Command>): map<string, Command>
    decreases |commands|
  {
    if |commands| == 0 then m else ClaimEach(Claim(m, commands[0]), commands[1..])
  }

  predicate Named(c: Command, name: string)
  {
    c.descriptor.NonNull? && c.descriptor.value.name == name
  }

  /** `o.trigger() == option.charAt(0) || o.extended().equalsIgnoreCase(option)`. */
  predicate Offers(o: TriggerOption, option: string)
    requires option != ""
  {
    o.trigger == option[0] || EqualsIgnoreCase(o.extended, NonNull(option))
  }

  // ------------------------------------------------------------------ lemmas

  /** Both registrations keep the two maps in step. */
  lemma PutCoherent(s: RegistryState, name: string, command: Command)
    requires Coherent(s)
    ensures Coherent(PutAs(s, name, command)) && Coherent(RegisterFirst(s, command))
  {
  }

  /** A name registered before stays bound to the same command. */
  lemma {:induction false} EarlierWins(m: map<string, Command>, commands: seq<Command>, name: string)
    requires name in m
    ensures name in ClaimEach(m, commands) && ClaimEach(m, commands)[name] == m[name]
    decreases |commands|
  {
    if |commands| > 0 {
      EarlierWins(Claim(m, commands[0]), commands[1..], name);
    }
  }

  /** A fresh name ends up bound to the first command whose descriptor carries it,
      here the one at `k`: later commands with the same name do not replace it. */
  lemma {:induction false} FirstNamedWins(m: map<string, Command>, commands: seq<Command>, name: string, k: nat)
    requires name !in m && k < |commands| && Named(commands[k], name)
    requires forall j :: 0 <= j < k ==> !Named(commands[j], name)
    ensures name in ClaimEach(m, commands) && ClaimEach(m, commands)[name] == commands[k]
    decreases k
  {
    var m' := Claim(m, commands[0]);
    var rest := commands[1..];
    if k == 0 {
      EarlierWins(m', rest, name);
    } else {
      assert !Named(commands[0], name);
      assert rest[k - 1] == commands[k];
      assert forall j :: 0 <= j < k - 1 ==> rest[j] == commands[j + 1];
      FirstNamedWins(m', rest, name, k - 1);
    }
  }

  /** A fresh name that no command's descriptor carries stays unbound: commands
      without a descriptor are never registered. */
  lemma {:induction false} NoneNamed(m: map<string, Command>, commands: seq<Command>, name: string)
    requires name !in m
    requires forall k :: 0 <= k < |commands| ==> !Named(commands[k], name)
    ensures name !in ClaimEach(m, commands)
    decreases |commands|
  {
    if |commands| > 0 {
      var rest := commands[1..];
      assert !Named(commands[0], name);
      assert forall k :: 0 <= k < |rest| ==> rest[k] == commands[k + 1];
      NoneNamed(Claim(m, commands[0]), rest, name);
    }
  }

  /** Every command bound after the run was bound before or claimed its own
      descriptor's name. */
  lemma {:induction false} ClaimedAreNamed(m: map<string, Command>, commands: seq<Command>, name: string)
    requires name in ClaimEach(m, commands) && name !in m
    ensures Named(ClaimEach(m, commands)[name], name)
    ensures ClaimEach(m, commands)[name] in commands
    decreases |commands|
  {
    if |commands| > 0 {
      var m' := Claim(m, commands[0]);
      if name in m' {
        EarlierWins(m', commands[1..], name);
      } else {
        ClaimedAreNamed(m', commands[1..], name);
      }
    }
  }

  // ---------------------------------------------------------- TreeMap key order

  /** A finite set of names has a least one in `compareTo` order. */
  lemma {:induction false} LeastExists(names: set<string>)
    requires names != {}
    ensures exists m :: m in names && forall x :: x in names ==> NotAfter(m, x)
    decreases |names|
  {
    var y :| y in names;
    NotAfterTotal(y, y);
    if names != {y} {
      var rest := names - {y};
      LeastExists(rest);
      var m :| m in rest && forall x :: x in rest ==> NotAfter(m, x);
      NotAfterTotal(m, y);
      if NotAfter(m, y) {
        assert forall x :: x in names ==> NotAfter(m, x);
      } else {
        forall x | x in names
          ensures NotAfter(y, x)
        {
          if x != y {
            NotAfterTransitive(y, m, x);
          }
        }
      }
    }
  }

  /** The keys of a sorted map in iteration order: ascending, each once. */
  ghost function AscendingNames(names: set<string>): (r: seq<string>)
    ensures |r| == |names| && Ascending(r)
    ensures forall n :: n in r <==> n in names
    ensures forall i, j :: 0 <= i < j < |r| ==> r[i] != r[j]
    decreases |names|
  {
    if names == {} then []
    else
      LeastExists(names);
      var m :| m in names && forall x :: x in names ==> NotAfter(m, x);
      var rest := AscendingNames(names - {m});
      LeastFirst(m, names - {m}, rest);
      [m] + rest
  }

  /** A name not after any of `names` keeps an ascending list of them, each once,
      ascending and duplicate-free in front. */
  lemma LeastFirst(m: string, names: set<string>, rest: seq<string>)
    requires forall x :: x in names ==> NotAfter(m, x)
    requires m !in names && forall n :: n in rest <==> n in names
    requires Ascending(rest) && forall i, j :: 0 <= i < j < |rest| ==> rest[i] != rest[j]
    ensures Ascending([m] + rest) && forall i, j :: 0 <= i < j < |[m] + rest| ==> ([m] + rest)[i] != ([m] + rest)[j]
  {
    var r := [m] + rest;
    forall i, j | 0 <= i < j < |r|
      ensures NotAfter(r[i], r[j]) && r[i] != r[j]
    {
      assert r[j] == rest[j - 1] && rest[j - 1] in rest;
      if i > 0 {
        assert r[i] == rest[i - 1];
      }
    }
  }

  // ------------------------------------------------------------------- the class

  class CommandRegistry {
    var commands: map<string, Command>
    var commandOptions: map<string, seq<TriggerOption>>

    function State(): RegistryState
      reads this
    {
      RegistryState(commands, commandOptions)
    }

    ghost predicate Valid()
      reads this
    {
      Coherent(State())
    }

    constructor ()
      ensures Valid() && commands == map[] && commandOptions == map[]
    {
      commands := map[];
      commandOptions := map[];
    }

    /** `register(command)`: a no-op without `@Descriptor` or when the descriptor's
        name is already registered. */
    method Register(command: Command)
      requires Valid()
      modifies this
      ensures Valid()
      ensures State() == RegisterFirst(old(State()), command)
    {
      if command.descriptor.Null? {
        return;
      }
      var d := command.descriptor.value;
      if d.name in commands {
        return;
      }
      RegisterAs(d.name, command);
    }

    /** `register(name, command)`: overwrites both entries for `name`. */
    method RegisterAs(name: string, command: Command)
      requires Valid()
      modifies this
      ensures Valid()
      ensures State() == PutAs(old(State()), name, command)
    {
      if command.descriptor.Null? {
        return;
      }
      var d := command.descriptor.value;
      commands := commands[name := command];
      commandOptions := commandOptions[name := d.options];
      PutCoherent(old(State()), name, command);
    }

    /** `isRegistered`: false for null, otherwise key membership. */
    function IsRegistered(name: Nullable<string>): (b: bool)
      reads this
      ensures b <==> name.NonNull? && name.value in commands
    {
      name.NonNull? && name.value in commands
    }

    /** `hasOption`: false for a null or empty name or option and for a name without
        options; otherwise whether one of the command's options has the option's first
        character as trigger or its whole text, ignoring case, as extended name. */
    method HasOption(name: Nullable<string>, option: Nullable<string>) returns (b: bool)
      ensures b <==> name.NonNull? && name.value != "" && option.NonNull? && option.value != ""
                     && name.value in commandOptions
                     && exists k :: 0 <= k < |commandOptions[name.value]| && Offers(commandOptions[name.value][k], option.value)
    {
      if name.Null? || name.value == "" {
        return false;
      }
      if option.Null? || option.value == "" {
        return false;
      }
      if name.value !in commandOptions {
        return false;
      }
      var options := commandOptions[name.value];
      var o := option.value;
      var i := 0;
      while i < |options|
        invariant 0 <= i <= |options|
        invariant forall k :: 0 <= k < i ==> !Offers(options[k], o)
      {
        if options[i].trigger == o[0] {
          return true;
        }
        if EqualsIgnoreCase(options[i].extended, NonNull(o)) {
          return true;
        }
        i := i + 1;
      }
      return false;
    }

    /** `commands()`: the registered commands in ascending order of their names. */
    ghost function Listing(): (r: seq<Command>)
      reads this
      ensures |r| == |commands|
      ensures forall k :: 0 <= k < |r| ==> r[k] == commands[AscendingNames(commands.Keys)[k]]
    {
      var names, m := AscendingNames(commands.Keys), commands;
      seq(|names|, k requires 0 <= k < |names| => m[names[k]])
    }

    /** `get` on a non-null name: the registered command, or null. */
    function Get(name: string): (r: Nullable<Command>)
      reads this
      ensures r.NonNull? <==> IsRegistered(NonNull(name))
      ensures r.NonNull? ==> r.value == commands[name]
    {
      if name in commands then NonNull(commands[name]) else Null
    }
  }
}
