/** The `org.apache` revision's `Terminal`: a registry of the discovered commands with
    "help" put last, and `process`, which dispatches the line given by the program
    arguments and, when that line asked for it, every line read from the console
    after it. Commands are abstract: what their `init` and `execute` do in a given
    pass is a `Behaviour`. */
module ApacheTerminal {
  import opened JavaLang
  import opened Tokenizer
  import opened ImplEnvironment
  import opened ApacheEnvironment
  import opened ApacheCommandRegistry
  import opened ApacheCommandParser
  import Dispatch

  /** What a command's `init(env)` and `execute()` do when called. */
  datatype Behaviour = Behaviour(init: Dispatch.Outcome, execute: Dispatch.Outcome)

  /** A call made on a command. */
  datatype Event = Initialised(command: Command) | Executed(command: Command)

  // ------------------------------------------------------------------ registration

  /** The constructor's registry: each discovered command with a descriptor under its
      name unless the name is taken, then "help" put over whatever holds that name. */
  function Discover(commands: seq<Command>, help: Command): map<string, Command>
  {
    ClaimEach(map[], commands)["help" := help]
  }

  /** "help" is always the help command; any other name is bound to the first
      discovered command whose descriptor carries it, and unbound when none does. */
  lemma DiscoverNames(commands: seq<Command>, help: Command, name: string)
    ensures "help" in Discover(commands, help) && Discover(commands, help)["help"] == help
    ensures name != "help" ==>
              (name in Discover(commands, help) <==> exists k :: 0 <= k < |commands| && Named(commands[k], name))
    ensures name != "help" ==>
              forall k :: 0 <= k < |commands| && Named(commands[k], name)
                            && (forall j :: 0 <= j < k ==> !Named(commands[j], name))
                ==> Discover(commands, help)[name] == commands[k]
  {
    if name != "help" {
      forall k | 0 <= k < |commands| && Named(commands[k], name) && (forall j :: 0 <= j < k ==> !Named(commands[j], name))
        ensures name in ClaimEach(map[], commands) && ClaimEach(map[], commands)[name] == commands[k]
      {
        FirstNamedWins(map[], commands, name, k);
      }
      if name in ClaimEach(map[], commands) {
        ClaimedAreNamed(map[], commands, name);
        var c := ClaimEach(map[], commands)[name];
        var k :| 0 <= k < |commands| && commands[k] == c;
        assert Named(commands[k], name);
      } else if exists k :: 0 <= k < |commands| && Named(commands[k], name) {
        FirstNamer(commands, name);
      }
    }
  }

  /** A name some command carries is carried by a first one. */
  lemma FirstNamer(commands: seq<Command>, name: string)
    requires exists k :: 0 <= k < |commands| && Named(commands[k], name)
    ensures exists k :: 0 <= k < |commands| && Named(commands[k], name)
                          && forall j :: 0 <= j < k ==> !Named(commands[j], name)
  {
    var k :| 0 <= k < |commands| && Named(commands[k], name);
    var m := 0;
    while !Named(commands[m], name)
      invariant 0 <= m <= k
      invariant forall j :: 0 <= j < m ==> !Named(commands[j], name)
      decreases k - m
    {
      m := m + 1;
    }
  }

  // ------------------------------------------------------------ what a pass prints

  const UsageFormat: string := "Usage: "
  const InitialisingFormat: string := "Initialising command '%s'...\n"
  const ExecutingFormat: string := "Executing '%s'...\n"
  const NotFoundFormat: string := "Command '%s' not found\n"

  function InitialisingText(name: string): string
  {
    "Initialising command '" + name + "'...\n"
  }

  function ExecutingText(name: string): string
  {
    "Executing '" + name + "'...\n"
  }

  function NotFoundMessage(name: string): string
  {
    "Command '" + name + "' not found\n"
  }

  /** The formats the loop passes to `sysout` hold no conversion but one "%s", so
      `console.format` prints them with the command name in its place and never throws. */
  lemma UsageFormatted()
    ensures Format(UsageFormat, [], 0) == Ok(UsageFormat)
  {
    assert '%' !in UsageFormat;
  }

  lemma InitialisingFormatted(name: string)
    ensures Format(InitialisingFormat, [name], 0) == Ok(InitialisingText(name))
  {
    Between("Initialising command '", "'...\n", name, InitialisingFormat);
  }

  lemma ExecutingFormatted(name: string)
    ensures Format(ExecutingFormat, [name], 0) == Ok(ExecutingText(name))
  {
    Between("Executing '", "'...\n", name, ExecutingFormat);
  }

  lemma NotFoundFormatted(name: string)
    ensures Format(NotFoundFormat, [name], 0) == Ok(NotFoundMessage(name))
  {
    Between("Command '", "' not found\n", name, NotFoundFormat);
  }

  lemma Between(a: string, b: string, name: string, f: string)
    requires f == a + "%s" + b && '%' !in a && '%' !in b
    ensures Format(f, [name], 0) == Ok(a + name + b)
  {
    OneConversion(a, b, name);
  }

  // ------------------------------------------------------------------- one pass

  /** What the loop reads from a parser: its options and its command name. */
  datatype View = View(options: map<string, string>, name: Nullable<string>)

  /** `new CommandParser(registry, tokens)` as the loop sees it, or what it throws. */
  function Parse(tokens: seq<string>): Result<View>
  {
    var options := ParsedOptions(tokens);
    if options.Err? then Err(options.error) else Ok(View(options.value, CommandNameOf(ArgumentTokens(tokens))))
  }

  /** What the body of the loop does before it reads the next line: whether it broke
      out at an exit line, the calls made, what it printed and a throwable that leaves
      `process`. */
  datatype Effect = Effect(exit: bool, events: seq<Event>, printed: seq<Printed>, escaped: Nullable<Exception>)

  /** The body for the line seen as `view`, in the pass `k`: exit or quit breaks out at
      once; no command prints the usage; an unknown one the not-found message; a
      found one is initialised outside any `try`, so a throw from `init` leaves
      `process`, and then executed, with a throw from `execute` caught and its stack
      trace printed. With "--verbose" each call is announced first. */
  function Body(registry: map<string, Command>, view: View, behave: (Command, nat) -> Behaviour, k: nat): Effect
  {
    if IsExitName(view.name) then Effect(true, [], [], Null)
    else if view.name.Null? then Effect(false, [], [Line(UsageFormat)], Null)
    else if view.name.value !in registry then Effect(false, [], [Line(NotFoundMessage(view.name.value))], Null)
    else
      var name := view.name.value;
      Found(registry[name], name, Flag(view.options, "verbose"), behave(registry[name], k))
  }

  /** The block for a found command. */
  function Found(c: Command, name: string, verbose: bool, b: Behaviour): (e: Effect)
    ensures !e.exit && |e.events| > 0 && e.events[0] == Initialised(c)
  {
    var announced := if verbose then [Line(InitialisingText(name))] else [];
    if b.init.Throws? then Effect(false, [Initialised(c)], announced, NonNull(b.init.error))
    else
      var executing := if verbose then [Line(ExecutingText(name))] else [];
      var caught := if b.execute.Throws? then [StackTrace(b.execute.error)] else [];
      Effect(false, [Initialised(c), Executed(c)], announced + executing + caught, Null)
  }

  /** Only a found command is called, `init` always before `execute`, and `execute`
      only once `init` returned; a throw from `init` is the only one that leaves the
      body, and an exit line does nothing at all. */
  lemma BodyShape(registry: map<string, Command>, view: View, behave: (Command, nat) -> Behaviour, k: nat)
    ensures var e := Body(registry, view, behave, k);
            && (e.exit <==> IsExitName(view.name))
            && (e.exit ==> e.events == [] && e.printed == [] && e.escaped.Null?)
            && (e.events != [] <==> !e.exit && view.name.NonNull? && view.name.value in registry)
            && (e.events != [] ==>
                  var c := registry[view.name.value];
                  var b := behave(c, k);
                  (b.init.Throws? ==> e.events == [Initialised(c)] && e.escaped == NonNull(b.init.error))
                  && (b.init.Completes? ==> e.events == [Initialised(c), Executed(c)] && e.escaped.Null?))
            && (e.events == [] ==> e.escaped.Null?)
  {
  }

  // --------------------------------------------------------------- the whole loop

  /** What a run of `process` did: the calls made, what it printed, the throwable that
      left it, the passes of the loop body entered, and the console lines not read. */
  datatype Trace = Trace(events: seq<Event>, printed: seq<Printed>, escaped: Nullable<Exception>, passes: nat,
                         rest: seq<string>)

  /** The loop from pass `k` on, with the line seen as `view` and `input` still on the
      console. It ends at an exit line, at a throw, or after the pass when the first
      line was not interactive; otherwise the environment prompts for the next line. */
  function Session(registry: map<string, Command>, view: View, interactive: bool, input: seq<string>,
                   behave: (Command, nat) -> Behaviour, k: nat): (t: Trace)
    ensures t.passes >= 1 && |t.rest| <= |input|
    decreases |input|, 2
  {
    var p := Body(registry, view, behave, k);
    if p.exit || p.escaped.NonNull? || !interactive then Trace(p.events, p.printed, p.escaped, 1, input)
    else
      var t := Prompt(registry, interactive, input, behave, k + 1);
      Trace(p.events + t.events, p.printed + t.printed, t.escaped, t.passes + 1, t.rest)
  }

  /** `env.readPrompt()` before pass `k`: the prompt is printed, and a console at its
      end throws. */
  function Prompt(registry: map<string, Command>, interactive: bool, input: seq<string>,
                  behave: (Command, nat) -> Behaviour, k: nat): (t: Trace)
    ensures |t.rest| <= |input|
    decreases |input|, 1
  {
    if input == [] then Trace([], [Line(DefaultPrompt)], NonNull(Exception(NullPointer, Null)), 0, [])
    else
      var t := Resume(registry, interactive, input[0], input[1..], behave, k);
      Trace(t.events, [Line(DefaultPrompt)] + t.printed, t.escaped, t.passes, t.rest)
  }

  /** `new CommandParser(registry, line)` for the line read, with `input` left on the
      console: a line that cannot be parsed throws, any other starts pass `k`. */
  function Resume(registry: map<string, Command>, interactive: bool, line: string, input: seq<string>,
                  behave: (Command, nat) -> Behaviour, k: nat): (t: Trace)
    ensures |t.rest| <= |input|
    decreases |input| + 1, 0
  {
    var next := Parse(LineTokens(line));
    if next.Err? then Trace([], [], NonNull(next.error), 0, input)
    else Session(registry, next.value, interactive, input, behave, k)
  }

  /** `process(arguments)` on a console holding `input`: a first line that cannot be
      parsed throws before the loop; otherwise it runs with the interactive flag of
      that first line. */
  function Run(registry: map<string, Command>, args: seq<string>, input: seq<string>,
               behave: (Command, nat) -> Behaviour): Trace
  {
    var first := Parse(args);
    if first.Err? then Trace([], [], NonNull(first.error), 0, input)
    else Session(registry, first.value, Flag(first.value.options, "interactive"), input, behave, 0)
  }

  /** A first line that is not interactive makes exactly one pass and reads nothing
      from the console, whatever the commands do. */
  lemma RunsOnce(registry: map<string, Command>, args: seq<string>, input: seq<string>,
                 behave: (Command, nat) -> Behaviour)
    requires Parse(args).Ok? && !Flag(Parse(args).value.options, "interactive")
    ensures Run(registry, args, input, behave).passes == 1
    ensures Run(registry, args, input, behave).rest == input
    ensures Run(registry, args, input, behave).printed == Body(registry, Parse(args).value, behave, 0).printed
  {
  }

  /** An exit or quit line ends the loop before anything is printed or called. */
  lemma ExitFirst(registry: map<string, Command>, view: View, interactive: bool, input: seq<string>,
                  behave: (Command, nat) -> Behaviour, k: nat)
    requires IsExitName(view.name)
    ensures Session(registry, view, interactive, input, behave, k) == Trace([], [], Null, 1, input)
  {
  }

  /** A console line that parses to an exit or quit line. */
  predicate ExitLine(line: string)
  {
    var view := Parse(LineTokens(line));
    view.Ok? && IsExitName(view.value.name)
  }

  /** In interactive mode only an exit line ends the loop quietly: without one on the
      console the session ends with a throwable, at the latest when the input runs out. */
  lemma {:induction false} OnlyExitEndsQuietly(registry: map<string, Command>, view: View, input: seq<string>,
                                               behave: (Command, nat) -> Behaviour, k: nat)
    requires !IsExitName(view.name)
    requires forall j :: 0 <= j < |input| ==> !ExitLine(input[j])
    ensures Session(registry, view, true, input, behave, k).escaped.NonNull?
    decreases |input|, 2
  {
    var p := Body(registry, view, behave, k);
    if !(p.exit || p.escaped.NonNull?) {
      PromptThrows(registry, input, behave, k + 1);
    }
  }

  lemma {:induction false} PromptThrows(registry: map<string, Command>, input: seq<string>,
                                        behave: (Command, nat) -> Behaviour, k: nat)
    requires forall j :: 0 <= j < |input| ==> !ExitLine(input[j])
    ensures Prompt(registry, true, input, behave, k).escaped.NonNull?
    decreases |input|, 1
  {
    if input != [] {
      assert !ExitLine(input[0]);
      assert forall j :: 0 <= j < |input[1..]| ==> input[1..][j] == input[j + 1];
      ResumeThrows(registry, input[0], input[1..], behave, k);
    }
  }

  lemma {:induction false} ResumeThrows(registry: map<string, Command>, line: string, input: seq<string>,
                                        behave: (Command, nat) -> Behaviour, k: nat)
    requires !ExitLine(line) && forall j :: 0 <= j < |input| ==> !ExitLine(input[j])
    ensures Resume(registry, true, line, input, behave, k).escaped.NonNull?
    decreases |input| + 1, 0
  {
    var next := Parse(LineTokens(line));
    if next.Ok? {
      OnlyExitEndsQuietly(registry, next.value, input, behave, k);
    }
  }

  /** Every call goes to a command of the registry. */
  predicate Registered(registry: map<string, Command>, events: seq<Event>)
  {
    forall i :: 0 <= i < |events| ==> events[i].command in registry.Values
  }

  /** Every `execute` comes right after the `init` of the same command. */
  predicate Paired(events: seq<Event>)
  {
    forall i :: 0 <= i < |events| && events[i].Executed? ==> i > 0 && events[i - 1] == Initialised(events[i].command)
  }

  lemma BodyCalls(registry: map<string, Command>, view: View, behave: (Command, nat) -> Behaviour, k: nat)
    ensures Registered(registry, Body(registry, view, behave, k).events) && Paired(Body(registry, view, behave, k).events)
  {
    BodyShape(registry, view, behave, k);
  }

  /** Every call of a run goes to a registered command, and every `execute` comes
      right after the `init` of the same command. */
  lemma {:induction false} CallsInOrder(registry: map<string, Command>, view: View, interactive: bool, input: seq<string>,
                                        behave: (Command, nat) -> Behaviour, k: nat)
    ensures Registered(registry, Session(registry, view, interactive, input, behave, k).events)
    ensures Paired(Session(registry, view, interactive, input, behave, k).events)
    decreases |input|, 2
  {
    var p := Body(registry, view, behave, k);
    BodyCalls(registry, view, behave, k);
    if !(p.exit || p.escaped.NonNull? || !interactive) {
      PromptCalls(registry, interactive, input, behave, k + 1);
      CallsJoin(registry, p.events, Prompt(registry, interactive, input, behave, k + 1).events);
    }
  }

  lemma {:induction false} PromptCalls(registry: map<string, Command>, interactive: bool, input: seq<string>,
                                       behave: (Command, nat) -> Behaviour, k: nat)
    ensures Registered(registry, Prompt(registry, interactive, input, behave, k).events)
    ensures Paired(Prompt(registry, interactive, input, behave, k).events)
    decreases |input|, 1
  {
    if input != [] {
      ResumeCalls(registry, interactive, input[0], input[1..], behave, k);
    }
  }

  lemma {:induction false} ResumeCalls(registry: map<string, Command>, interactive: bool, line: string, input: seq<string>,
                                       behave: (Command, nat) -> Behaviour, k: nat)
    ensures Registered(registry, Resume(registry, interactive, line, input, behave, k).events)
    ensures Paired(Resume(registry, interactive, line, input, behave, k).events)
    decreases |input| + 1, 0
  {
    var next := Parse(LineTokens(line));
    if next.Ok? {
      CallsInOrder(registry, next.value, interactive, input, behave, k);
    }
  }

  /** The calls of one body followed by those of the rest of the run. */
  lemma CallsJoin(registry: map<string, Command>, a: seq<Event>, b: seq<Event>)
    requires Registered(registry, a) && Paired(a) && Registered(registry, b) && Paired(b)
    ensures Registered(registry, a + b) && Paired(a + b)
  {
    forall i | 0 <= i < |a + b| && (a + b)[i].Executed?
      ensures i > 0 && (a + b)[i - 1] == Initialised((a + b)[i].command)
    {
      if i > |a| {
        assert (a + b)[i] == b[i - |a|] && (a + b)[i - 1] == b[i - |a| - 1];
      }
    }
  }

  // ------------------------------------------------------------------- the class

  /** A parser as the loop sees it. */
  function ViewOf(parser: CommandParser): View
    reads parser, parser.environment
  {
    View(parser.environment.options, parser.commandName)
  }

  /** The run after some passes: `events` and `said` are what the passes so far called
      and printed, `passes` how many there were, and `s` the rest of the session. */
  predicate Continuing(total: Trace, events: seq<Event>, said: seq<Printed>, passes: nat, s: Trace)
  {
    total.events == events + s.events && total.printed == said + s.printed && total.escaped == s.escaped
    && total.passes == passes + s.passes && total.rest == s.rest
  }

  /** The run is over: it called `events`, printed `said`, left with `escaped`. */
  predicate Over(total: Trace, events: seq<Event>, said: seq<Printed>, escaped: Nullable<Exception>, rest: seq<string>)
  {
    total.events == events && total.printed == said && total.escaped == escaped && total.rest == rest
  }

  class Terminal {
    const registry: map<string, Command>
    const console: Console

    /** Registers the commands the service loader finds, in the order found, then
        "help". */
    constructor (commands: seq<Command>, help: Command, console: Console)
      ensures registry == Discover(commands, help) && this.console == console
    {
      var found: map<string, Command> := map[];
      var i := 0;
      while i < |commands|
        invariant 0 <= i <= |commands|
        invariant ClaimEach(found, commands[i..]) == ClaimEach(map[], commands)
      {
        var command := commands[i];
        if command.descriptor.NonNull? {
          var x := command.descriptor.value;
          if x.name !in found {
            found := found[x.name := command];
          }
        }
        assert commands[i..][1..] == commands[i + 1..];
        i := i + 1;
      }
      assert commands[i..] == [];
      registry := found["help" := help];
      this.console := console;
    }

    /** `process(arguments)`: what it calls, prints and throws is the run `Run` of
        the arguments on the console's lines. */
    method Process(args: seq<string>, behave: (Command, nat) -> Behaviour)
      returns (events: seq<Event>, escaped: Nullable<Exception>)
      modifies console
      ensures var t := Run(registry, args, old(console.input), behave);
              events == t.events && escaped == t.escaped
              && console.out == old(console.out) + t.printed && console.input == t.rest
    {
      var created := CommandParser.Create(registry, args, console);
      if created.Err? {
        return [], NonNull(created.error);
      }
      var parser := created.value;
      var interactive := parser.IsInteractive();
      events, escaped := Loop(parser, interactive, behave);
    }

    /** The `while (index == 0 || interactive)` loop from the parser of the program
        arguments: its run is the session from that parser's line. */
    method Loop(start: CommandParser, interactive: bool, behave: (Command, nat) -> Behaviour)
      returns (events: seq<Event>, escaped: Nullable<Exception>)
      requires start.registry == registry && start.environment.console == console
      requires start.environment.prompt == DefaultPrompt
      modifies console
      ensures var t := Session(registry, old(ViewOf(start)), interactive, old(console.input), behave, 0);
              events == t.events && escaped == t.escaped
              && console.out == old(console.out) + t.printed && console.input == t.rest
    {
      var parser := start;
      ghost var view := ViewOf(parser);
      ghost var total := Session(registry, view, interactive, console.input, behave, 0);
      ghost var said: seq<Printed> := [];
      var index := 0;
      events, escaped := [], Null;
      while index == 0 || interactive
        invariant parser.registry == registry && parser.environment.console == console
        invariant parser.environment.prompt == DefaultPrompt && ViewOf(parser) == view
        invariant console.out == old(console.out) + said && escaped.Null?
        invariant index == 0 || interactive ==>
                    Continuing(total, events, said, index, Session(registry, view, interactive, console.input, behave, index))
        invariant !(index == 0 || interactive) ==> Over(total, events, said, escaped, console.input)
        decreases |console.input| + (if index == 0 then 1 else 0)
      {
        var k := index;
        index := index + 1;
        var passEvents, thrown, next, exit, printed, nextView :=
          Step(parser, view, interactive, behave, k, total, events, said);
        Associative(old(console.out), said, printed);
        events, said, escaped, parser, view := events + passEvents, said + printed, thrown, next, nextView;
        if exit || thrown.NonNull? {
          break;
        }
      }
      assert Over(total, events, said, escaped, console.input);
    }

    /** One pass of the loop, with its place in the whole run: `exit` when the line
        asked to leave, in which case nothing happens; when the loop goes on, the run
        continues from `next`; otherwise it is over. */
    method Step(parser: CommandParser, ghost view: View, interactive: bool, behave: (Command, nat) -> Behaviour, k: nat,
                ghost total: Trace, ghost events: seq<Event>, ghost said: seq<Printed>)
      returns (passEvents: seq<Event>, escaped: Nullable<Exception>, next: CommandParser, exit: bool,
               ghost printed: seq<Printed>, ghost nextView: View)
      requires parser.registry == registry && parser.environment.console == console
      requires parser.environment.prompt == DefaultPrompt && ViewOf(parser) == view
      requires Continuing(total, events, said, k, Session(registry, view, interactive, console.input, behave, k))
      modifies console
      ensures console.out == old(console.out) + printed
      ensures next.registry == registry && next.environment.console == console && next.environment.prompt == DefaultPrompt
      ensures ViewOf(next) == nextView
      ensures exit || escaped.NonNull? || !interactive ==>
                Over(total, events + passEvents, said + printed, escaped, console.input)
      ensures !exit && escaped.Null? && interactive ==>
                |console.input| < |old(console.input)|
                && Continuing(total, events + passEvents, said + printed, k + 1,
                              Session(registry, nextView, interactive, console.input, behave, k + 1))
    {
      if parser.IsExit() {
        ExitOver(registry, view, interactive, console.input, behave, k, total, events, said);
        return [], Null, parser, true, [], view;
      }
      ghost var s := Session(registry, view, interactive, console.input, behave, k);
      exit := false;
      passEvents, escaped, next, printed := Pass(parser, view, interactive, behave, k);
      nextView := ViewOf(next);
      if escaped.NonNull? || !interactive {
        Finished(total, events, said, k, s, passEvents, printed, console.input);
      } else {
        Joined(total, events, said, k, passEvents, printed, s,
               Session(registry, ViewOf(next), interactive, console.input, behave, k + 1));
      }
    }

    /** The loop body after the exit test: dispatch the line, then, in interactive
        mode, `parser = new CommandParser(registry, env.readPrompt())`. When the loop
        goes on, `next` is the new parser and the session from it is the rest of this
        one; otherwise this pass is the whole rest of the session. */
    method Pass(parser: CommandParser, ghost view: View, interactive: bool, behave: (Command, nat) -> Behaviour, k: nat)
      returns (events: seq<Event>, escaped: Nullable<Exception>, next: CommandParser, ghost printed: seq<Printed>)
      requires parser.registry == registry && parser.environment.console == console && !parser.IsExit()
      requires ViewOf(parser) == view
      requires parser.environment.prompt == DefaultPrompt
      modifies console
      ensures console.out == old(console.out) + printed
      ensures next.registry == registry && next.environment.console == console && next.environment.prompt == DefaultPrompt
      ensures var s := Session(registry, view, interactive, old(console.input), behave, k);
              escaped.NonNull? || !interactive ==>
                s.events == events && s.printed == printed && s.escaped == escaped && s.rest == console.input
      ensures escaped.Null? && interactive ==>
                |console.input| < |old(console.input)|
                && Session(registry, view, interactive, old(console.input), behave, k)
                   == Continued(events, printed, Session(registry, ViewOf(next), interactive, console.input, behave, k + 1))
    {
      next := parser;
      ghost var p := Body(registry, view, behave, k);
      events, escaped := Dispatch(parser, behave, k);
      printed := p.printed;
      if escaped.NonNull? || !interactive {
        return;
      }
      Associative(old(console.out), p.printed, [Line(DefaultPrompt)]);
      escaped, next := Reprompt(parser, interactive, behave, k + 1);
      printed := printed + [Line(DefaultPrompt)];
      if escaped.NonNull? {
        assert p.events + [] == p.events;
      } else {
        Associative(p.printed, [Line(DefaultPrompt)], Session(registry, ViewOf(next), interactive, console.input, behave, k + 1).printed);
      }
    }

    /** `parser = new CommandParser(registry, env.readPrompt())` at the end of an
        interactive pass: the prompt is printed, and either the reading or the parsing
        throws, or the new parser starts the rest of the session. */
    method Reprompt(parser: CommandParser, ghost interactive: bool, ghost behave: (Command, nat) -> Behaviour, ghost k: nat)
      returns (escaped: Nullable<Exception>, next: CommandParser)
      requires parser.registry == registry && parser.environment.console == console
      requires parser.environment.prompt == DefaultPrompt
      modifies console
      ensures console.out == old(console.out) + [Line(DefaultPrompt)]
      ensures next.registry == registry && next.environment.console == console && next.environment.prompt == DefaultPrompt
      ensures escaped.NonNull? ==>
                Prompt(registry, interactive, old(console.input), behave, k)
                == Trace([], [Line(DefaultPrompt)], escaped, 0, console.input)
      ensures escaped.Null? ==>
                |console.input| < |old(console.input)|
                && var s := Session(registry, ViewOf(next), interactive, console.input, behave, k);
                   Prompt(registry, interactive, old(console.input), behave, k)
                   == Trace(s.events, [Line(DefaultPrompt)] + s.printed, s.escaped, s.passes, s.rest)
    {
      next := parser;
      var read := ReadNext(parser.environment, registry);
      if read.Err? {
        assert [Line(DefaultPrompt)] + [] == [Line(DefaultPrompt)];
        return NonNull(read.error), parser;
      }
      escaped, next := Null, read.value;
    }

    /** The body of the loop after the exit test, up to the reading of the next line. */
    method Dispatch(parser: CommandParser, behave: (Command, nat) -> Behaviour, k: nat)
      returns (events: seq<Event>, escaped: Nullable<Exception>)
      requires parser.registry == registry && parser.environment.console == console && !parser.IsExit()
      modifies console`out
      ensures var e := Body(registry, ViewOf(parser), behave, k);
              events == e.events && escaped == e.escaped && console.out == old(console.out) + e.printed
    {
      var environment := parser.environment;
      events, escaped := [], Null;
      if !parser.HasCommand() {
        UsageFormatted();
        var ok := environment.Sysout(UsageFormat, []);
      } else if parser.FoundCommand() {
        var name := parser.commandName.value;
        var command := parser.GetCommand().value;
        events, escaped := RunFound(environment, command, name, parser.IsVerbose(), behave(command, k));
      } else {
        var name := parser.commandName.value;
        NotFoundFormatted(name);
        var ok := environment.Sysout(NotFoundFormat, [name]);
      }
    }

    /** `init(env)`, announced when verbose; then `execute()` inside `try`, announced
        when verbose, with a caught throwable's stack trace printed. */
    static method RunFound(environment: Environment, command: Command, name: string, verbose: bool, b: Behaviour)
      returns (events: seq<Event>, escaped: Nullable<Exception>)
      modifies environment.console`out
      ensures var e := Found(command, name, verbose, b);
              events == e.events && escaped == e.escaped
              && environment.console.out == old(environment.console.out) + e.printed
    {
      ghost var out0 := environment.console.out;
      var announced: seq<Printed> := [];
      if verbose {
        AnnounceInitialising(environment, name);
        announced := [Line(InitialisingText(name))];
      }
      events := [Initialised(command)];
      if b.init.Throws? {
        return events, NonNull(b.init.error);
      }
      var executing: seq<Printed> := [];
      if verbose {
        AnnounceExecuting(environment, name);
        executing := [Line(ExecutingText(name))];
      }
      assert environment.console.out == out0 + announced + executing;
      events := events + [Executed(command)];
      var caught: seq<Printed> := [];
      if b.execute.Throws? {
        environment.SysoutThrowable(b.execute.error);
        caught := [StackTrace(b.execute.error)];
      }
      assert environment.console.out == out0 + (announced + executing + caught);
      escaped := Null;
    }

    /** `env.sysout("Initialising command '%s'...\n", name)`. */
    static method AnnounceInitialising(environment: Environment, name: string)
      modifies environment.console`out
      ensures environment.console.out == old(environment.console.out) + [Line(InitialisingText(name))]
    {
      InitialisingFormatted(name);
      var ok := environment.Sysout(InitialisingFormat, [name]);
    }

    /** `env.sysout("Executing '%s'...\n", name)`. */
    static method AnnounceExecuting(environment: Environment, name: string)
      modifies environment.console`out
      ensures environment.console.out == old(environment.console.out) + [Line(ExecutingText(name))]
    {
      ExecutingFormatted(name);
      var ok := environment.Sysout(ExecutingFormat, [name]);
    }

    /** `new CommandParser(registry, env.readPrompt())`: prompt, read a line, parse it. */
    static method ReadNext(environment: Environment, registry: map<string, Command>) returns (r: Result<CommandParser>)
      requires environment.prompt == DefaultPrompt
      modifies environment.console
      ensures environment.console.out == old(environment.console.out) + [Line(DefaultPrompt)]
      ensures old(environment.console.input) == [] ==>
                r == Err(Exception(NullPointer, Null)) && environment.console.input == []
      ensures old(environment.console.input) != [] ==>
                environment.console.input == old(environment.console.input)[1..]
                && var view := Parse(LineTokens(old(environment.console.input)[0]));
                   (view.Err? ==> r == Err(view.error))
                   && (view.Ok? ==>
                         r.Ok? && fresh(r.value) && fresh(r.value.environment) && ViewOf(r.value) == view.value
                         && r.value.registry == registry && r.value.environment.console == environment.console
                         && r.value.environment.prompt == DefaultPrompt)
    {
      var read := environment.ReadPrompt();
      if read.Err? {
        return Err(read.error);
      }
      r := CommandParser.Create(registry, read.value, environment.console);
      if r.Err? {
        return;
      }
    }
  }

  /** A pass that called `events` and printed `printed`, followed by the session `t`. */
  function Continued(events: seq<Event>, printed: seq<Printed>, t: Trace): Trace
  {
    Trace(events + t.events, printed + t.printed, t.escaped, t.passes + 1, t.rest)
  }

  /** One interactive pass that went on to a parsed next line joins what came before. */
  lemma Joined(total: Trace, events: seq<Event>, said: seq<Printed>, passes: nat,
               passEvents: seq<Event>, printed: seq<Printed>, s: Trace, t: Trace)
    requires Continuing(total, events, said, passes, s)
    requires s == Continued(passEvents, printed, t)
    ensures Continuing(total, events + passEvents, said + printed, passes + 1, t)
  {
    assert events + (passEvents + t.events) == events + passEvents + t.events;
    assert said + (printed + t.printed) == said + printed + t.printed;
  }

  lemma Associative<T>(a: seq<T>, b: seq<T>, c: seq<T>)
    ensures a + b + c == a + (b + c)
  {
  }

  /** An exit or quit line with the run so far makes the run over, with nothing more
      called or printed. */
  lemma ExitOver(registry: map<string, Command>, view: View, interactive: bool, input: seq<string>,
                 behave: (Command, nat) -> Behaviour, k: nat, total: Trace, events: seq<Event>, said: seq<Printed>)
    requires IsExitName(view.name)
    requires Continuing(total, events, said, k, Session(registry, view, interactive, input, behave, k))
    ensures Over(total, events + [], said + [], Null, input)
  {
    ExitFirst(registry, view, interactive, input, behave, k);
    assert events + [] == events && said + [] == said;
  }

  /** A pass after which the loop is over: what it called and printed ends the run. */
  lemma Finished(total: Trace, events: seq<Event>, said: seq<Printed>, passes: nat, s: Trace,
                 passEvents: seq<Event>, passPrinted: seq<Printed>, rest: seq<string>)
    requires Continuing(total, events, said, passes, s)
    requires s.events == passEvents && s.printed == passPrinted && s.rest == rest
    ensures Over(total, events + passEvents, said + passPrinted, s.escaped, rest)
  {
  }
}
