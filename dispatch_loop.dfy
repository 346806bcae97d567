/** The `process` loop of the three pidster revisions (`ConsoleUIImpl`, `TerminalImpl`
    and `Terminal`) as a relation between a run of iterations and what started it. The
    revisions share the loop's shape and differ in the parser that binds options, the
    messages printed, and whether `isExit` can throw. */
module DispatchLoop {
  import opened JavaLang
  import opened OptionBinding
  import opened CommandClasses
  import opened Tokenizer
  import opened ImplEnvironment
  import opened Dispatch

  /** The revision a loop belongs to. */
  datatype Loop = ConsoleLoop | TerminalImplLoop | TerminalLoop

  /** Resource-bundle keys of `ConsoleUIImpl`'s two messages. */
  const UsageKey: string := "tomcat.cli.usage"
  const NotFoundKey: string := "tomcat.cli.commandNotFound"

  /** `ConsoleUIImpl` binds with `OptionParserImpl`; both terminals with `OptionParser`. */
  function Binder(loop: Loop): Revision
  {
    if loop == ConsoleLoop then Impl else Legacy
  }

  function UsagePrinted(loop: Loop): Printed
  {
    if loop == ConsoleLoop then MessageLine(NonNull(Resource(UsageKey, [])))
    else Line(SysoutText(NonNull("Usage: \n"), []))
  }

  function NotFoundPrinted(loop: Loop, name: string): Printed
  {
    if loop == ConsoleLoop then MessageLine(NonNull(Resource(NotFoundKey, [name])))
    else Line(SysoutText(NonNull("Command '%s' not found\n"), [name]))
  }

  /** `ConsoleUIImpl` prints a caught throwable's message; the terminals its stack trace. */
  function CaughtPrinted(loop: Loop, e: Exception): Printed
  {
    if loop == ConsoleLoop then MessageLine(e.message) else StackTrace(e)
  }

  /** The exception `Terminal`'s `isExit` throws for a line without arguments. */
  const NoCommand: Exception := Exception(IndexOutOfBounds, NonNull(Text("Index: 0, Size: 0")))

  /** The branch a loop takes for a line with positional tokens `arguments`. In
      `Terminal` a line without a command makes `isExit` throw before any other check. */
  function LoopDecide(loop: Loop, arguments: seq<string>, interactive: bool, commands: map<string, Command>): Decision
  {
    if loop == TerminalLoop && |arguments| == 0 then Fails(NoCommand)
    else Decide(CommandNameOf(arguments), interactive, commands)
  }

  /** What an iteration does for decision `d`: the lifecycle of a found command with
      its caught throwable printed, the usage or not-found message, nothing for an exit
      or empty interactive line, and a throw out of the loop when `isExit` failed. */
  function LoopEffect(loop: Loop, d: Decision, options: seq<string>, h: Hierarchy, b: Behaviour): Effect
    requires WellFormed(h) && (d.Found? ==> d.command.cls < |h|)
  {
    match d
    case Exit => Effect([], [], Null)
    case Idle => Effect([], [], Null)
    case Fails(error) => Effect([], [], NonNull(error))
    case Usage => Effect([], [UsagePrinted(loop)], Null)
    case NotFound(name) => Effect([], [NotFoundPrinted(loop, name)], Null)
    case Found(_, c) =>
      var l := RunLifecycle(c, Bind(Binder(loop), OptionsOf(h, c.cls), options), b);
      Effect(l.events, if l.caught.NonNull? then [CaughtPrinted(loop, l.caught.value)] else [], l.escaped)
  }

  /** `Terminal` alone throws for a line without a command; otherwise the decision
      is the one the shared checks take on the line's command name. */
  lemma LoopDecideCases(loop: Loop, arguments: seq<string>, interactive: bool, commands: map<string, Command>)
    ensures var d := LoopDecide(loop, arguments, interactive, commands);
            && (loop == TerminalLoop && |arguments| == 0 <==> d.Fails?)
            && (d.Fails? ==> d.error == NoCommand)
            && (!d.Fails? ==> d == Decide(CommandNameOf(arguments), interactive, commands))
  {
  }

  /** Only a found command makes lifecycle calls; the usage and not-found lines print
      their message, an exit or empty interactive line prints nothing, a failed
      `isExit` escapes, and a found command's effect is its lifecycle with the caught
      throwable reported as the revision reports it. */
  lemma LoopEffectCases(loop: Loop, d: Decision, options: seq<string>, h: Hierarchy, b: Behaviour)
    requires WellFormed(h) && (d.Found? ==> d.command.cls < |h|)
    ensures var e := LoopEffect(loop, d, options, h, b);
            && (!d.Found? ==> e.events == [])
            && (!d.Found? ==> (e.escaped.NonNull? <==> d.Fails?))
            && (d.Usage? ==> e.printed == [UsagePrinted(loop)])
            && (d.NotFound? ==> e.printed == [NotFoundPrinted(loop, d.name)])
            && (d.Exit? || d.Idle? || d.Fails? ==> e.printed == [])
            && (d.Found? ==>
                  var l := RunLifecycle(d.command, Bind(Binder(loop), OptionsOf(h, d.command.cls), options), b);
                  e.events == l.events && e.escaped == l.escaped
                  && e.printed == (if l.caught.NonNull? then [CaughtPrinted(loop, l.caught.value)] else []))
  {
  }

  /** What fixes a run of `process`: the revision, the program arguments, the lines the
      console will return, whether the first parse made the processor interactive, the
      output before the call, the prompt, the command classes, the registered commands,
      and what each command's lifecycle methods do in each iteration. */
  datatype Setting = Setting(
    loop: Loop,
    args: seq<string>,
    input: seq<string>,
    interactive: bool,
    out0: seq<Printed>,
    prompt: string,
    h: Hierarchy,
    commands: map<string, Command>,
    behave: (Command, nat) -> Behaviour)

  /** Commands that do nothing but complete: what an iteration without a command runs. */
  const Inert: Behaviour := Behaviour(Completes, Completes, Completes)

  /** Iteration `it`, the k-th of its run, did what the loop does for its line. */
  predicate LoopStep(s: Setting, it: Iteration, k: nat)
  {
    WellFormed(s.h)
    && (forall n :: n in s.commands ==> s.commands[n].cls < |s.h|)
    && it.decision == LoopDecide(s.loop, it.arguments, s.interactive, s.commands)
    && it.effect == LoopEffect(s.loop, it.decision, it.options, s.h,
                               if it.decision.Found? then s.behave(it.decision.command, k) else Inert)
    && it.prompted == (s.interactive && !Stops(it.decision) && it.effect.escaped.Null?)
  }

  /** The options and positional tokens of the line parsed from `source`. */
  predicate ParsedFrom(options: seq<string>, arguments: seq<string>, source: seq<string>)
  {
    options == OptionTokens(Tokens(source)) && arguments == ArgumentTokens(Tokens(source))
  }

  /** Every iteration of a run dispatched its own line as the loop does. */
  predicate Run(s: Setting, ran: seq<Iteration>)
    decreases |ran|, 1
  {
    (s.interactive ==> |ran| <= |s.input| + 1)
    && (|ran| > 0 ==> LastDispatched(s, ran))
  }

  /** The iterations before the last one form a run, and the last one dispatched the
      line it was given. */
  predicate LastDispatched(s: Setting, ran: seq<Iteration>)
    requires |ran| > 0 && (s.interactive ==> |ran| <= |s.input| + 1)
    decreases |ran|, 0
  {
    Run(s, ran[..|ran| - 1])
    && ParsedFrom(ran[|ran| - 1].options, ran[|ran| - 1].arguments, SourceArgs(s.args, s.input, s.interactive, |ran| - 1))
    && LoopStep(s, ran[|ran| - 1], |ran| - 1)
  }

  lemma RunExtend(s: Setting, ran: seq<Iteration>, it: Iteration)
    requires Run(s, ran)
    requires s.interactive ==> |ran| <= |s.input|
    requires ParsedFrom(it.options, it.arguments, SourceArgs(s.args, s.input, s.interactive, |ran|))
    requires LoopStep(s, it, |ran|)
    ensures Run(s, ran + [it])
  {
    assert (ran + [it])[..|ran|] == ran;
    assert LastDispatched(s, ran + [it]);
  }

  /** The run, iteration by iteration: the k-th iteration dispatched the k-th line. */
  lemma {:induction false} RunSteps(s: Setting, ran: seq<Iteration>)
    requires Run(s, ran)
    ensures s.interactive ==> |ran| <= |s.input| + 1
    ensures forall k :: 0 <= k < |ran| ==>
              ParsedFrom(ran[k].options, ran[k].arguments, SourceArgs(s.args, s.input, s.interactive, k))
              && LoopStep(s, ran[k], k)
    decreases |ran|
  {
    if |ran| > 0 {
      var init := ran[..|ran| - 1];
      assert LastDispatched(s, ran);
      RunSteps(s, init);
      assert forall k :: 0 <= k < |init| ==> ran[k] == init[k];
    }
  }

  /** Iteration `it` let the loop go on to the next line. */
  predicate Continues(it: Iteration)
  {
    !Stops(it.decision) && it.effect.escaped.Null?
  }

  /** The state at the head of a pass after the iterations `ran`: the line about to be
      dispatched (`options`, `arguments`) came from its source, the console holds the
      lines not read yet, the output is what the iterations printed, every iteration
      dispatched its own line, and each let the loop go on. */
  predicate Running(s: Setting, ran: seq<Iteration>, options: seq<string>, arguments: seq<string>,
                    remaining: seq<string>, out: seq<Printed>)
  {
    (s.interactive ==> |ran| <= |s.input| && remaining == s.input[|ran|..])
    && (!s.interactive ==> remaining == s.input)
    && ParsedFrom(options, arguments, SourceArgs(s.args, s.input, s.interactive, |ran|))
    && out == s.out0 + AllPrinted(ran, s.prompt)
    && Run(s, ran)
    && forall k :: 0 <= k < |ran| ==> Continues(ran[k])
  }

  /** What a pass of the loop body leaves behind: the run extended by `it`, the output
      extended by what it printed and its prompt, and, when the loop goes on, the next
      line (its options and arguments) or the end of the console input. */
  predicate Passed(s: Setting, ran: seq<Iteration>, it: Iteration, next: Result<(seq<string>, seq<string>)>,
                   remaining: seq<string>, out: seq<Printed>)
  {
    Run(s, ran + [it])
    && out == s.out0 + AllPrinted(ran + [it], s.prompt)
    && it.prompted == (s.interactive && Continues(it))
    && (!s.interactive ==> remaining == s.input)
    && (Continues(it) && next.Err? ==>
          s.interactive && next.error == Exception(NullPointer, Null) && |ran| == |s.input|)
    && (Continues(it) && next.Ok? ==> Running(s, ran + [it], next.value.0, next.value.1, remaining, out))
  }

  /** What `process` promises about its run `ran`, which ends with `escaped`: every
      iteration dispatched its own line, all but the last let the loop go on, the output
      is what they printed with the prompts, outside interactive mode the console is not
      read and a fresh processor runs exactly once, and the loop ends on an exit or usage
      line, or with a throwable from `isExit`, `cleanup` or the end of console input. */
  predicate Ended(s: Setting, ran: seq<Iteration>, escaped: Nullable<Exception>, count0: int,
                  out: seq<Printed>, remaining: seq<string>)
  {
    Run(s, ran)
    && (forall k :: 0 <= k < |ran| - 1 ==> Continues(ran[k]))
    && out == s.out0 + AllPrinted(ran, s.prompt)
    && (!s.interactive ==> remaining == s.input)
    && (!s.interactive && count0 == 0 ==> |ran| == 1)
    && (s.interactive && escaped.Null? ==> |ran| > 0 && Stops(ran[|ran| - 1].decision))
    && (escaped.NonNull? ==> |ran| > 0)
    && (escaped.NonNull? && !ran[|ran| - 1].prompted ==> escaped == ran[|ran| - 1].effect.escaped)
    && (escaped.NonNull? && ran[|ran| - 1].prompted ==>
          escaped == NonNull(Exception(NullPointer, Null)) && |ran| == |s.input| + 1)
  }

  /** The `try { configure; execute } catch (Throwable) { report } finally { cleanup }`
      block of a found command whose options bound to `bound`; the report goes to
      `environment` as revision `loop` writes it. */
  method RunFound(environment: EnvironmentImpl, loop: Loop, command: Command, bound: Result<map<Option, string>>,
                  b: Behaviour)
    returns (e: Effect)
    modifies environment`out
    ensures var l := RunLifecycle(command, bound, b);
            e == Effect(l.events, if l.caught.NonNull? then [CaughtPrinted(loop, l.caught.value)] else [], l.escaped)
    ensures environment.out == old(environment.out) + e.printed
  {
    var events: seq<Event> := [];
    var caught: Nullable<Exception> := Null;
    if bound.Err? {
      caught := NonNull(bound.error);
    } else {
      events := events + [Configured(command)];
      if b.configure.Throws? {
        caught := NonNull(b.configure.error);
      } else {
        events := events + [Executed(command)];
        if b.execute.Throws? {
          caught := NonNull(b.execute.error);
        }
      }
    }
    var printed: seq<Printed> := [];
    if caught.NonNull? {
      if loop == ConsoleLoop {
        environment.SysoutMessage(caught.value.message);
      } else {
        environment.SysoutThrowable(caught.value);
      }
      printed := [CaughtPrinted(loop, caught.value)];
    }
    events := events + [CleanedUp(command)];
    e := Effect(events, printed, if b.cleanup.Throws? then NonNull(b.cleanup.error) else Null);
  }

  // ------------------------------------------------------ the passes of the loop

  /** A pass of the loop body: iteration `it` dispatched the line, and when it prompted,
      the next line is the first one left on the console, or there is none; without a
      prompt (outside interactive mode) the same line comes next. */
  lemma PassOf(s: Setting, ran: seq<Iteration>, it: Iteration, options: seq<string>, arguments: seq<string>,
               remaining: seq<string>, before: seq<Printed>, next: Result<(seq<string>, seq<string>)>,
               remaining': seq<string>, out: seq<Printed>)
    requires Running(s, ran, options, arguments, remaining, before)
    requires it.options == options && it.arguments == arguments
    requires LoopStep(s, it, |ran|)
    requires !it.prompted ==> out == before + it.effect.printed && next == Ok((options, arguments)) && remaining' == remaining
    requires it.prompted ==> out == before + it.effect.printed + [Line(s.prompt)]
    requires it.prompted && remaining == [] ==> next == Err(Exception(NullPointer, Null)) && remaining' == []
    requires it.prompted && remaining != [] ==>
               next.Ok? && ParsedFrom(next.value.0, next.value.1, LineTokens(remaining[0])) && remaining' == remaining[1..]
    ensures Passed(s, ran, it, next, remaining', out)
  {
    RunExtend(s, ran, it);
    PrintedSnoc(s.out0, before, ran, it, s.prompt);
    if it.prompted && remaining != [] {
      NextLine(s, ran, it, remaining, out, next.value.0, next.value.1);
    } else {
      assert forall k :: 0 <= k < |ran| ==> (ran + [it])[k] == ran[k];
    }
  }

  /** The line read after iteration `it` is the next one of the run. */
  lemma NextLine(s: Setting, ran: seq<Iteration>, it: Iteration, remaining: seq<string>, out: seq<Printed>,
                 options: seq<string>, arguments: seq<string>)
    requires s.interactive && |ran| <= |s.input| && remaining == s.input[|ran|..] && remaining != []
    requires ParsedFrom(options, arguments, LineTokens(remaining[0]))
    requires Run(s, ran + [it]) && out == s.out0 + AllPrinted(ran + [it], s.prompt)
    requires (forall k :: 0 <= k < |ran| ==> Continues(ran[k])) && Continues(it)
    ensures Running(s, ran + [it], options, arguments, remaining[1..], out)
  {
    ContinuesSnoc(ran, it);
    assert remaining[0] == s.input[|ran|];
    assert remaining[1..] == s.input[|ran| + 1..];
  }

  /** A run all of whose iterations let the loop go on, extended by one more such. */
  lemma ContinuesSnoc(ran: seq<Iteration>, it: Iteration)
    requires (forall k :: 0 <= k < |ran| ==> Continues(ran[k])) && Continues(it)
    ensures forall k :: 0 <= k < |ran + [it]| ==> Continues((ran + [it])[k])
  {
    assert forall k :: 0 <= k < |ran| ==> (ran + [it])[k] == ran[k];
  }

  /** The loop left through its condition: outside interactive mode, after `first()`
      turned false. */
  lemma EndAtCondition(s: Setting, ran: seq<Iteration>, options: seq<string>, arguments: seq<string>,
                       remaining: seq<string>, out: seq<Printed>, count0: int)
    requires Running(s, ran, options, arguments, remaining, out)
    requires !s.interactive && (count0 == 0 ==> |ran| == 1)
    ensures Ended(s, ran, Null, count0, out, remaining)
  {
  }

  /** The loop left after a pass: the iteration stopped it, or the console ran out. */
  lemma EndAfterPass(s: Setting, ran: seq<Iteration>, it: Iteration, next: Result<(seq<string>, seq<string>)>,
                     escaped: Nullable<Exception>, options: seq<string>, arguments: seq<string>,
                     remaining0: seq<string>, before: seq<Printed>, remaining: seq<string>, out: seq<Printed>, count0: int)
    requires Running(s, ran, options, arguments, remaining0, before)
    requires Passed(s, ran, it, next, remaining, out)
    requires !s.interactive && count0 == 0 ==> |ran| == 0
    requires (!Continues(it) && escaped == it.effect.escaped)
             || (Continues(it) && next.Err? && escaped == NonNull(next.error))
    ensures Ended(s, ran + [it], escaped, count0, out, remaining)
  {
    assert forall k :: 0 <= k < |ran| ==> (ran + [it])[k] == ran[k];
  }
}
