/** `ConsoleUIImpl`: the resource-bundle revision of the dispatch loop. Its messages
    come from the bundle, and a caught throwable is reported by its message only.
    `CommandParserImpl`, the parser it names, is not part of this model; the loop is
    modelled over `CommandProcessorImpl`, which offers the same four calls. */
module ImplConsoleUI {
  import opened JavaLang
  import opened OptionBinding
  import opened CommandClasses
  import opened Tokenizer
  import opened ImplCommandLine
  import opened ImplCommandProcessor
  import opened ImplCommandRegistry
  import opened ImplEnvironment
  import opened OptionParsers
  import opened Dispatch
  import opened DispatchLoop

  class ConsoleUIImpl {
    const registry: CommandRegistryImpl
    const processor: CommandProcessorImpl
    const environment: EnvironmentImpl
    const optionParser: OptionParserImpl

    ghost predicate Valid()
      reads this, registry, processor
    {
      registry.Valid() && processor.Valid() && optionParser.registry == registry
    }

    constructor (h: Hierarchy, console: seq<string>)
      requires WellFormed(h)
      ensures Valid() && fresh(registry) && fresh(processor) && fresh(environment) && fresh(optionParser)
      ensures registry.hierarchy == h && registry.commands == map[] && registry.commandOptions == map[]
      ensures processor.count == 0 && !processor.interactive && processor.history == []
      ensures environment.input == console && environment.out == [] && environment.prompt == DefaultPrompt
    {
      var r := new CommandRegistryImpl(h);
      registry := r;
      processor := new CommandProcessorImpl();
      environment := new EnvironmentImpl(console);
      optionParser := new OptionParserImpl(r);
    }

    /** `register(commands)`. */
    method Register(commands: seq<Command>, help: Command)
      requires Valid() && Known(registry.hierarchy, commands) && help.cls < |registry.hierarchy|
      modifies registry`commands, registry`commandOptions
      ensures Valid()
      ensures registry.State()
              == Put(registry.hierarchy, RegisterEach(registry.hierarchy, old(registry.State()), commands), "help", help)
    {
      RegisterAll(registry, commands, help);
    }

    /** The body of the loop, up to the reading of the next line, for `line`, the last
        line the processor parsed, as the `k`-th iteration of a run in setting `s`. */
    method Dispatch(line: CommandLineImpl, interactive: bool, behave: (Command, nat) -> Behaviour,
                    k: nat, ghost s: Setting)
      returns (it: Iteration)
      requires Valid() && s.loop == ConsoleLoop && s.interactive == interactive && s.behave == behave
      requires s.h == registry.hierarchy && s.commands == registry.commands
      requires processor.history != [] && processor.history[|processor.history| - 1] == line
      modifies environment`out
      ensures it.options == line.options && it.arguments == line.arguments
      ensures LoopStep(s, it, k)
      ensures environment.out == old(environment.out) + it.effect.printed
    {
      var options, arguments := line.options, line.arguments;
      var decision := LoopDecide(ConsoleLoop, arguments, interactive, registry.commands);
      LoopDecideCases(ConsoleLoop, arguments, interactive, registry.commands);
      DecideCases(line.CommandName(), interactive, registry.commands);
      if processor.IsExit() {
        assert decision == Exit;
        it := Iteration(options, arguments, decision, Effect([], [], Null), false);
      } else if !line.HasCommand() && !interactive {
        assert decision == Usage;
        environment.SysoutMessage(NonNull(Resource(UsageKey, [])));
        it := Iteration(options, arguments, decision, Effect([], [UsagePrinted(ConsoleLoop)], Null), false);
      } else {
        it := Lookup(line, interactive, behave, k, s);
      }
    }

    /** The rest of the body, for a line that is neither an exit line nor, outside
        interactive mode, a line without a command: the registry lookup. */
    method Lookup(line: CommandLineImpl, interactive: bool, behave: (Command, nat) -> Behaviour,
                  k: nat, ghost s: Setting)
      returns (it: Iteration)
      requires Valid() && s.loop == ConsoleLoop && s.interactive == interactive && s.behave == behave
      requires s.h == registry.hierarchy && s.commands == registry.commands
      requires !IsExitName(line.CommandName()) && (line.HasCommand() || interactive)
      modifies environment`out
      ensures it.options == line.options && it.arguments == line.arguments
      ensures LoopStep(s, it, k)
      ensures environment.out == old(environment.out) + it.effect.printed
    {
      var options, arguments, name := line.options, line.arguments, line.CommandName();
      var decision := LoopDecide(ConsoleLoop, arguments, interactive, registry.commands);
      LoopDecideCases(ConsoleLoop, arguments, interactive, registry.commands);
      DecideCases(name, interactive, registry.commands);
      if line.HasCommand() && !registry.IsRegistered(name) {
        assert decision == NotFound(name.value);
        environment.SysoutMessage(NonNull(Resource(NotFoundKey, [name.value])));
        it := Iteration(options, arguments, decision, Effect([], [NotFoundPrinted(ConsoleLoop, name.value)], Null),
                        interactive);
      } else if registry.IsRegistered(name) {
        assert decision == Found(name.value, registry.commands[name.value]);
        var e := Execute(name.value, options, behave, k, s);
        it := Iteration(options, arguments, decision, e, interactive && e.escaped.Null?);
      } else {
        assert decision == Idle;
        it := Iteration(options, arguments, decision, Effect([], [], Null), interactive);
      }
    }

    /** The block for a registered command: look it up, bind the line's options with
        the revision's parser, then run its lifecycle, reporting what it caught. */
    method Execute(name: string, options: seq<string>, behave: (Command, nat) -> Behaviour, k: nat, ghost s: Setting)
      returns (e: Effect)
      requires Valid() && s.loop == ConsoleLoop && s.behave == behave
      requires s.h == registry.hierarchy && s.commands == registry.commands && name in registry.commands
      modifies environment`out
      ensures e == LoopEffect(s.loop, Found(name, registry.commands[name]), options, s.h,
                              behave(registry.commands[name], k))
      ensures environment.out == old(environment.out) + e.printed
    {
      var command := registry.Get(NonNull(name)).value;
      var bound := optionParser.ActiveOptions(options, command);
      e := RunFound(environment, ConsoleLoop, command, bound, behave(command, k));
    }

    /** The end of an interactive pass: prompt, read the next console line and parse
        it; a console with no more lines makes the read throw. */
    method ReadNext() returns (next: Result<CommandLineImpl>)
      requires Valid()
      modifies processor`history, processor`interactive, environment`input, environment`out
      ensures Valid()
      ensures environment.out == old(environment.out) + [Line(environment.prompt)]
      ensures old(environment.input) == [] ==> next == Err(Exception(NullPointer, Null)) && environment.input == []
      ensures old(environment.input) != [] ==>
                next.Ok? && environment.input == old(environment.input)[1..]
                && ParsedFrom(next.value.options, next.value.arguments, LineTokens(old(environment.input)[0]))
      ensures next.Ok? ==> processor.history != [] && processor.history[|processor.history| - 1] == next.value
    {
      var read := environment.ReadPrompt();
      if read.Err? {
        next := Err(read.error);
      } else {
        var parsed := processor.ParseArguments(read.value);
        next := Ok(parsed);
      }
    }

    /** One pass of the loop body once `first()` let it in: dispatch `line`, then, when
        the loop goes on in interactive mode, prompt for the next line and parse it.
        `next` is the line the following pass dispatches, or the throwable raised when
        the console has no more lines. */
    method Step(line: CommandLineImpl, interactive: bool, behave: (Command, nat) -> Behaviour, ran: seq<Iteration>, ghost s: Setting)
      returns (it: Iteration, next: Result<CommandLineImpl>)
      requires Valid() && s.loop == ConsoleLoop && s.interactive == interactive && s.behave == behave
      requires s.h == registry.hierarchy && s.commands == registry.commands && s.prompt == environment.prompt
      requires processor.history != [] && processor.history[|processor.history| - 1] == line
      requires Running(s, ran, line.options, line.arguments, environment.input, environment.out)
      modifies processor`history, processor`interactive, environment`input, environment`out
      ensures Valid()
      ensures next.Ok? ==> processor.history != [] && processor.history[|processor.history| - 1] == next.value
      ensures Passed(s, ran, it, if next.Ok? then Ok((next.value.options, next.value.arguments)) else Err(next.error),
                     environment.input, environment.out)
      ensures interactive && Continues(it) && next.Ok? ==> |environment.input| < |old(environment.input)|
    {
      ghost var before, remaining := environment.out, environment.input;
      it := Dispatch(line, interactive, behave, |ran|, s);
      next := Advance(line, it, ran, s, before, remaining);
    }

    /** The rest of the body once iteration `it` dispatched `line`: when it prompts,
        read and parse the next line; either way, the run is extended by `it`. */
    method Advance(line: CommandLineImpl, it: Iteration, ran: seq<Iteration>, ghost s: Setting,
                   ghost before: seq<Printed>, ghost remaining: seq<string>)
      returns (next: Result<CommandLineImpl>)
      requires Valid() && s.prompt == environment.prompt
      requires processor.history != [] && processor.history[|processor.history| - 1] == line
      requires Running(s, ran, line.options, line.arguments, remaining, before)
      requires it.options == line.options && it.arguments == line.arguments && LoopStep(s, it, |ran|)
      requires environment.out == before + it.effect.printed && environment.input == remaining
      modifies processor`history, processor`interactive, environment`input, environment`out
      ensures Valid()
      ensures next.Ok? ==> processor.history != [] && processor.history[|processor.history| - 1] == next.value
      ensures Passed(s, ran, it, if next.Ok? then Ok((next.value.options, next.value.arguments)) else Err(next.error),
                     environment.input, environment.out)
      ensures s.interactive && Continues(it) && next.Ok? ==> |environment.input| < |remaining|
    {
      next := Ok(line);
      if !it.prompted {
        PassOf(s, ran, it, line.options, line.arguments, remaining, before, Ok((line.options, line.arguments)),
               remaining, environment.out);
      } else {
        next := ReadNext();
        if next.Err? {
          PassOf(s, ran, it, line.options, line.arguments, remaining, before, Err(next.error), [], environment.out);
        } else {
          PassOf(s, ran, it, line.options, line.arguments, remaining, before,
                 Ok((next.value.options, next.value.arguments)), remaining[1..], environment.out);
        }
      }
    }

    /** One pass of the `while` loop: the condition `first() || interactive`, then, when
        it holds, the body. `done` says the loop is over, with `escaped` the throwable
        that leaves it, if any; otherwise `next` is the line of the following pass. */
    method Pass(line: CommandLineImpl, interactive: bool, behave: (Command, nat) -> Behaviour, ran: seq<Iteration>,
                ghost s: Setting, ghost count0: int)
      returns (ran': seq<Iteration>, next: CommandLineImpl, done: bool, escaped: Nullable<Exception>)
      requires Valid() && s.loop == ConsoleLoop && s.interactive == interactive && s.behave == behave
      requires s.h == registry.hierarchy && s.commands == registry.commands && s.prompt == environment.prompt
      requires processor.history != [] && processor.history[|processor.history| - 1] == line
      requires Running(s, ran, line.options, line.arguments, environment.input, environment.out)
      requires !interactive && count0 == 0 ==>
                 (|ran| == 0 && processor.count == 0) || (|ran| == 1 && processor.count == 1)
      modifies processor`count, processor`history, processor`interactive, environment`input, environment`out
      ensures Valid()
      ensures done ==> Ended(s, ran', escaped, count0, environment.out, environment.input)
      ensures !done ==> processor.history != [] && processor.history[|processor.history| - 1] == next
      ensures !done ==> Running(s, ran', next.options, next.arguments, environment.input, environment.out)
      ensures !done && !interactive && count0 == 0 ==> |ran'| == 1 && processor.count == 1
      ensures !done && interactive ==> |environment.input| < |old(environment.input)|
      ensures !done && !interactive ==>
                environment.input == old(environment.input) && FirstBudget(processor.count) < FirstBudget(old(processor.count))
    {
      ghost var countBefore := processor.count;
      var first := processor.First();
      if !(first || interactive) {
        EndAtCondition(s, ran, line.options, line.arguments, environment.input, environment.out, count0);
        return ran, line, true, Null;
      }
      ran', next, done, escaped := Body(line, interactive, behave, ran, s, count0);
      if !done && !interactive {
        FirstBudgetFalls(countBefore);
      }
    }

    /** The body of the loop, entered once the condition held: one pass, after which
        the loop is over when the iteration stopped it or a throwable escaped. */
    method Body(line: CommandLineImpl, interactive: bool, behave: (Command, nat) -> Behaviour, ran: seq<Iteration>,
                ghost s: Setting, ghost count0: int)
      returns (ran': seq<Iteration>, next: CommandLineImpl, done: bool, escaped: Nullable<Exception>)
      requires Valid() && s.loop == ConsoleLoop && s.interactive == interactive && s.behave == behave
      requires s.h == registry.hierarchy && s.commands == registry.commands && s.prompt == environment.prompt
      requires processor.history != [] && processor.history[|processor.history| - 1] == line
      requires Running(s, ran, line.options, line.arguments, environment.input, environment.out)
      requires !interactive && count0 == 0 ==> |ran| == 0
      modifies processor`history, processor`interactive, environment`input, environment`out
      ensures Valid()
      ensures done ==> Ended(s, ran', escaped, count0, environment.out, environment.input)
      ensures !done ==> |ran'| == |ran| + 1
      ensures !done ==> processor.history != [] && processor.history[|processor.history| - 1] == next
      ensures !done ==> Running(s, ran', next.options, next.arguments, environment.input, environment.out)
      ensures !done && interactive ==> |environment.input| < |old(environment.input)|
      ensures !done && !interactive ==> environment.input == old(environment.input)
    {
      ghost var remaining0, before := environment.input, environment.out;
      var it, following := Step(line, interactive, behave, ran, s);
      ghost var view := if following.Ok? then Ok((following.value.options, following.value.arguments)) else Err(following.error);
      if !Continues(it) || following.Err? {
        escaped := if !Continues(it) then it.effect.escaped else NonNull(following.error);
        EndAfterPass(s, ran, it, view, escaped, line.options, line.arguments, remaining0, before,
                     environment.input, environment.out, count0);
        return ran + [it], line, true, escaped;
      }
      return ran + [it], following.value, false, Null;
    }

    /** `process(arguments)`: the first line comes from the arguments, every later one
        from the console. The loop runs while `first()` holds or the first parse made
        the processor interactive; an exit line or (outside interactive mode) a missing
        command ends it, and a throwable from `cleanup` or the end of console input
        escapes it. */
    method Process(args: seq<string>, behave: (Command, nat) -> Behaviour)
      returns (ran: seq<Iteration>, escaped: Nullable<Exception>)
      requires Valid()
      modifies processor`count, processor`history, processor`interactive, environment`input, environment`out
      ensures Valid()
      ensures Ended(Setting(ConsoleLoop, args, old(environment.input), old(processor.interactive) || SawInteractive(args),
                            old(environment.out), environment.prompt, registry.hierarchy, registry.commands, behave),
                    ran, escaped, old(processor.count), environment.out, environment.input)
    {
      ghost var count0 := processor.count;
      var line := processor.ParseArguments(args);
      var interactive := processor.interactive;
      ghost var s := Setting(ConsoleLoop, args, old(environment.input), interactive, old(environment.out),
                             environment.prompt, registry.hierarchy, registry.commands, behave);
      ran, escaped := Loop(line, interactive, behave, s, count0);
    }

    /** The `while (first() || interactive)` loop, from the line parsed from the program
        arguments until an iteration or a throwable ends it. */
    method Loop(start: CommandLineImpl, interactive: bool, behave: (Command, nat) -> Behaviour, ghost s: Setting, ghost count0: int)
      returns (ran: seq<Iteration>, escaped: Nullable<Exception>)
      requires Valid() && s.loop == ConsoleLoop && s.interactive == interactive && s.behave == behave
      requires s.h == registry.hierarchy && s.commands == registry.commands && s.prompt == environment.prompt
      requires processor.history != [] && processor.history[|processor.history| - 1] == start
      requires Running(s, [], start.options, start.arguments, environment.input, environment.out)
      requires processor.count == count0
      modifies processor`count, processor`history, processor`interactive, environment`input, environment`out
      ensures Valid()
      ensures Ended(s, ran, escaped, count0, environment.out, environment.input)
    {
      var line := start;
      ran := [];
      while true
        invariant Valid()
        invariant processor.history != [] && processor.history[|processor.history| - 1] == line
        invariant Running(s, ran, line.options, line.arguments, environment.input, environment.out)
        invariant !interactive && count0 == 0 ==>
                    (|ran| == 0 && processor.count == 0) || (|ran| == 1 && processor.count == 1)
        decreases |environment.input|, FirstBudget(processor.count)
      {
        var done;
        ran, line, done, escaped := Pass(line, interactive, behave, ran, s, count0);
        if done {
          return;
        }
      }
    }
  }
}
