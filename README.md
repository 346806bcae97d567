# A verified model of the Tomcat command-line client's dispatch engine

The Tomcat command-line client reads a command line, splits it into options and
arguments, finds the command it names in a registry, binds the command's declared
options from the option tokens, and runs the command's lifecycle. In interactive
mode it does this again for every line read from the console. This project models that engine in Dafny, revision by revision, and proves
what each revision does. The repository keeps three revisions of the same classes,
and they do not all compile against each other, so each is modelled on its own terms:

- the `impl` package of `org.pidster.tomcat.util.cli` (`CommandProcessorImpl`,
  `CommandLineImpl`, `CommandRegistryImpl`, `CommandConfigImpl`, `OptionParserImpl`,
  `EnvironmentImpl`, `TerminalImpl`, `ConsoleUIImpl`);
- the older classes of `org.pidster.tomcat.util.cli` (`CommandProcessor`,
  `CommandLine`, `OptionParser`, `Terminal`, `AbstractJMXCommand`), in the `legacy_*`
  files;
- the `org.apache.tomcat.util.cli` revision (`CommandLine`, `Environment`,
  `CommandParser`, `CommandProcessor`, `CommandRegistry`, `Terminal`), in the
  `apache_*` files;

together with the commands' own decision logic (`commands.AbstractCommand`,
`AbstractJMXCommand`, `HostCommand`, `WebappCommand`, `AbstractWebappCommand`,
`DiagnosticCommand`) and the small utilities `DateTime.formatUptime`, `IO.path` and
`Console.JarFilenameFilter.accept`.

Java's semantics are made explicit in `JavaLang`. `null` is `Nullable`, and a call that
may throw returns a `Result`. 32- and 64-bit wrap-around and truncating division are
written out. The library calls the engine makes (`split`, `indexOf`, `replaceAll`,
`compareTo`, `parseInt`, `equalsIgnoreCase`) are modelled there, the last two for
ASCII digits and letters only.

Objects whose fields the source updates become classes with `modifies` clauses:
command lines, processors, registries, environments and consoles, terminals, parsers,
and the diagnostic command. Their methods are proved against pure specification
functions, and the lemmas about those functions state what the source promises. The
main promises are:
- the token partition is a permutation in order;
- first registration wins, except for the "help" override;
- option binding succeeds exactly when no declared option fails, and binds exactly the
  first matching token;
- `cleanup` runs exactly once after an attempted lifecycle, and in the pidster loops
  no throwable from `configure` or `execute` escapes (one from `cleanup` does);
- the apache loop calls `init` before `execute`, and an interactive session without an exit
  line ends with a throwable;
- the JMX address priority;
- the uptime decomposition;
- path joining.

Commands are abstract. What their lifecycle methods do in a given pass is a `Behaviour`
chosen by the caller. Remote servers, the JVM attach API and the console are oracles
or finite input sequences.

Where the code's documented intent and its code differ, the model follows the code:
- `CommandConfigImpl.getOptionValue` answers with the option's declared default, not
  the bound value;
- `CommandLineImpl.getArguments` and the older `CommandLine.getArguments` drop the last
  argument as well as the command name;
- `AbstractCommand.log` drops its arguments for a message that is not a bundle key;
- the older `AbstractJMXCommand` discards the "port" option's value and always uses
  port 1099;
- the apache `CommandParser` sets a "--" token's option twice;
- the apache `CommandLine.setOption` throws for "name:" with an empty value;
- `AbstractJMXCommand`'s "already installed" test calls `Properties.contains`, which tests values, not keys.

## Model

| member | source | states |
|---|---|---|
| Tokenizer.PromptOrDefault | java/src/org/pidster/tomcat/util/cli/impl/CommandLineImpl.java:66-73 | the prompt is never empty: a non-empty prompt is kept, null or "" selects "> " |
| Tokenizer.RemoveFirst | java/src/org/pidster/tomcat/util/cli/impl/CommandProcessorImpl.java:67-70 | `remove("--interactive")` leaves a list without the marker unchanged and makes one with it exactly one token shorter |
| Tokenizer.RemoveFirstAt | java/src/org/pidster/tomcat/util/cli/impl/CommandProcessorImpl.java:67-70 | only the first occurrence of the marker is removed; the tokens before and after it keep their order |
| Tokenizer.RemoveFirstCount | java/src/org/pidster/tomcat/util/cli/impl/CommandProcessorImpl.java:67-70 | the removal loses one copy of the marker and nothing else (multiset) |
| Tokenizer.OptionTokens | java/src/org/pidster/tomcat/util/cli/impl/CommandProcessorImpl.java:74-81 | the tokens given to `addOption` all start with '-' |
| Tokenizer.ArgumentTokens | java/src/org/pidster/tomcat/util/cli/impl/CommandProcessorImpl.java:74-81 | the tokens given to `addArgument` never start with '-' |
| Tokenizer.PartitionComplete | java/src/org/pidster/tomcat/util/cli/impl/CommandProcessorImpl.java:74-81 | options and arguments together are a rearrangement of the tokens: nothing lost, nothing invented |
| Tokenizer.PartitionAppend | java/src/org/pidster/tomcat/util/cli/impl/CommandProcessorImpl.java:74-81 | both lists keep the token order: the partition of a concatenation is the concatenation of the partitions |
| Tokenizer.PartitionPrefix | java/src/org/pidster/tomcat/util/cli/impl/CommandProcessorImpl.java:74-81 | each loop iteration appends the token to exactly one of the two lists |
| Tokenizer.ResplitTokens | java/src/org/pidster/tomcat/util/cli/impl/CommandProcessorImpl.java:58-60 | after collapsing whitespace and splitting at ' ', no token holds whitespace and only the first can be empty |
| Tokenizer.CollapseIdentity | java/src/org/pidster/tomcat/util/cli/impl/CommandProcessorImpl.java:59 | the collapse leaves a string whose only whitespace is single spaces unchanged (it is idempotent) |
| Tokenizer.CommandNameOf | java/src/org/pidster/tomcat/util/cli/impl/CommandLineImpl.java:99-104 | `getCommandName` is null exactly when there are no arguments, and otherwise the first argument |
| Tokenizer.ArgumentsView | java/src/org/pidster/tomcat/util/cli/impl/CommandLineImpl.java:129-134 | `getArguments` has n-2 elements for n >= 2 arguments (none otherwise), and element k is argument k+1 |
| Tokenizer.ArgumentsDropLast | java/src/org/pidster/tomcat/util/cli/impl/CommandLineImpl.java:129-134 | for `webapp --hostname:h stop extra` the arguments after the command name are just ["stop"]: the last one is dropped |
| Tokenizer.ExitNames | java/src/org/pidster/tomcat/util/cli/impl/CommandProcessorImpl.java:94-107 | "EXIT" and "Quit" end the session; null and "exits" do not |
| Tokenizer.ExitFolded | java/src/org/apache/tomcat/util/cli/CommandParser.java:89-97 | a name ends the session exactly when it is non-null and folds to "exit" or to "quit" |
| ImplCommandLine.CommandLineImpl.constructor | java/src/org/pidster/tomcat/util/cli/impl/CommandLineImpl.java:44-48 | a new line has no arguments, no options and the prompt "> " |
| ImplCommandLine.CommandLineImpl.SetPrompt | java/src/org/pidster/tomcat/util/cli/impl/CommandLineImpl.java:66-73 | the prompt becomes the argument, or "> " for null or "" |
| ImplCommandLine.CommandLineImpl.AddOption | java/src/org/pidster/tomcat/util/cli/impl/CommandLineImpl.java:88-91 | the option is appended to the options; nothing else changes |
| ImplCommandLine.CommandLineImpl.AddArgument | java/src/org/pidster/tomcat/util/cli/impl/CommandLineImpl.java:119-121 | the argument is appended to the arguments; nothing else changes |
| ImplCommandLine.CommandLineImpl.CommandName | java/src/org/pidster/tomcat/util/cli/impl/CommandLineImpl.java:99-104 | null exactly when there are no arguments, otherwise the first argument |
| ImplCommandLine.CommandLineImpl.HasCommand | java/src/org/pidster/tomcat/util/cli/impl/CommandLineImpl.java:112-114 | true exactly when `getCommandName` is not null |
| ImplCommandLine.CommandLineImpl.Arguments | java/src/org/pidster/tomcat/util/cli/impl/CommandLineImpl.java:129-134 | `subList(1, size - 1)`: n-2 arguments for n >= 2, element k being argument k+1 |
| ImplCommandProcessor.CommandProcessorImpl.constructor | java/src/org/pidster/tomcat/util/cli/impl/CommandProcessorImpl.java:42-46 | a new processor has count 0, is not interactive and has an empty history |
| ImplCommandProcessor.CommandProcessorImpl.ParseArguments | java/src/org/pidster/tomcat/util/cli/impl/CommandProcessorImpl.java:56-86 | the new line holds the option tokens and the arguments of the normalised, marker-free tokens in order, with the default prompt; it is appended to the history; the interactive flag is raised exactly when the marker was present and never lowered |
| ImplCommandProcessor.CommandProcessorImpl.FillLine | java/src/org/pidster/tomcat/util/cli/impl/CommandProcessorImpl.java:72-81 | the loop gives a fresh line whose options are the '-' tokens and whose arguments are the others, each in input order |
| ImplCommandProcessor.CommandProcessorImpl.IsExit | java/src/org/pidster/tomcat/util/cli/impl/CommandProcessorImpl.java:94-107 | false with an empty history or a last line without arguments; otherwise true exactly when the last command name is "exit" or "quit", ignoring case |
| ImplCommandProcessor.CommandProcessorImpl.First | java/src/org/pidster/tomcat/util/cli/impl/CommandProcessorImpl.java:115-118 | the 64-bit counter is incremented with wrap-around; the answer is `count <= 1`, which for a counter that has not wrapped means this was the first call |
| ImplCommandRegistry.PutCoherent | java/src/org/pidster/tomcat/util/cli/impl/CommandRegistryImpl.java:72-93 | `register(name, command)` keeps every stored option list equal to the superclass walk of its command |
| ImplCommandRegistry.RegisterEachCoherent | java/src/org/pidster/tomcat/util/cli/impl/CommandRegistryImpl.java:54-66 | registering a list of commands one by one keeps the option lists coherent |
| ImplCommandRegistry.EarlierWins | java/src/org/pidster/tomcat/util/cli/impl/CommandRegistryImpl.java:62-63 | a name already registered stays bound to the same command whatever is registered later |
| ImplCommandRegistry.FirstNamedWins | java/src/org/pidster/tomcat/util/cli/impl/CommandRegistryImpl.java:54-66 | a fresh name ends bound to the first command whose descriptor carries it |
| ImplCommandRegistry.NoneNamed | java/src/org/pidster/tomcat/util/cli/impl/CommandRegistryImpl.java:54-66 | a fresh name that no descriptor carries stays unbound |
| ImplCommandRegistry.CommandRegistryImpl.constructor | java/src/org/pidster/tomcat/util/cli/impl/CommandRegistryImpl.java:46-49 | both maps start empty |
| ImplCommandRegistry.CommandRegistryImpl.RegisterAs | java/src/org/pidster/tomcat/util/cli/impl/CommandRegistryImpl.java:72-93 | the maps become `Put` of the old ones: the command under the name, its superclass-walk options under the command, or nothing without `@Descriptor` |
| ImplCommandRegistry.CommandRegistryImpl.Register | java/src/org/pidster/tomcat/util/cli/impl/CommandRegistryImpl.java:54-66 | the maps become `RegisterFirst` of the old ones: unchanged without `@Descriptor` or when the name is taken |
| ImplCommandRegistry.CommandRegistryImpl.IsRegistered | java/src/org/pidster/tomcat/util/cli/impl/CommandRegistryImpl.java:103-108 | true exactly for a non-null registered name |
| ImplCommandRegistry.CommandRegistryImpl.Get | java/src/org/pidster/tomcat/util/cli/impl/CommandRegistryImpl.java:138-140 | non-null exactly for a registered name, and then the command stored under it |
| ImplCommandRegistry.CommandRegistryImpl.GetViableOptions | java/src/org/pidster/tomcat/util/cli/impl/CommandRegistryImpl.java:118-120 | non-null exactly for a command with stored options, which are then its superclass walk |
| ImplCommandRegistry.CommandRegistryImpl.GetCommands | java/src/org/pidster/tomcat/util/cli/impl/CommandRegistryImpl.java:128-130 | exactly the commands bound to some name |
| ImplCommandConfig.FirstNamed | java/src/org/pidster/tomcat/util/cli/impl/CommandConfigImpl.java:69-76 | the option found is in the iteration order and carries the name; null only for a null name or when no option carries it |
| ImplCommandConfig.GetOption | java/src/org/pidster/tomcat/util/cli/impl/CommandConfigImpl.java:69-76 | the result is a bound option with that name, and null exactly when there is none (or the name is null) |
| ImplCommandConfig.GetOptionValue | java/src/org/pidster/tomcat/util/cli/impl/CommandConfigImpl.java:95-102 | non-null exactly when `isOptionSet` holds, and then the declared default of a bound option with that name |
| ImplCommandConfig.OptionSetIffFound | java/src/org/pidster/tomcat/util/cli/impl/CommandConfigImpl.java:69-89 | `isOptionSet(n)` holds exactly when `getOption(n)` is not null, and exactly when some bound option is named n (case-sensitive) |
| ImplCommandConfig.BoundValueIgnored | java/src/org/pidster/tomcat/util/cli/impl/CommandConfigImpl.java:95-102 | the value bound from the command line plays no part in `getOptionValue` |
| ImplCommandConfig.UniqueNameOrderFree | java/src/org/pidster/tomcat/util/cli/impl/CommandConfigImpl.java:69-102 | when only one bound option has the name, neither `getOption` nor `getOptionValue` depends on the map's iteration order |
| ImplCommandConfig.OrderDecidesDuplicate | java/src/org/pidster/tomcat/util/cli/impl/CommandConfigImpl.java:95-102 | with two bound options named "engine", the iteration order decides which default is answered |
| ImplEnvironment.Format | java/src/org/pidster/tomcat/util/cli/impl/EnvironmentImpl.java:59-61 | a format without '%' formats to itself |
| ImplEnvironment.FormatLiteralPrefix | java/src/org/pidster/tomcat/util/cli/impl/EnvironmentImpl.java:59-61 | literal text before the first conversion is copied through, and does not change whether formatting fails |
| ImplEnvironment.OneConversion | java/src/org/pidster/tomcat/util/cli/impl/EnvironmentImpl.java:59-61 | a format with one "%s" between literal parts prints the argument in its place |
| ImplEnvironment.FormatKeepsNewline | java/src/org/pidster/tomcat/util/cli/impl/EnvironmentImpl.java:55-61 | formatting a text that ends in a line feed gives a text that ends in one |
| ImplEnvironment.WithNewline | java/src/org/pidster/tomcat/util/cli/impl/EnvironmentImpl.java:55-57 | the result ends in a line feed, and equals the format exactly when it already did |
| ImplEnvironment.SysoutText | java/src/org/pidster/tomcat/util/cli/impl/EnvironmentImpl.java:52-69 | what `sysout` prints always ends in a line feed; a null format prints "Error: null"; without arguments the format is printed unformatted |
| ImplEnvironment.NotFoundText | java/src/org/pidster/tomcat/util/cli/impl/EnvironmentImpl.java:52-69 | "Command '%s' not found\n" with a name prints the name in place of "%s" |
| ImplEnvironment.ArgumentsUnused | java/src/org/pidster/tomcat/util/cli/impl/EnvironmentImpl.java:52-69 | a format without conversions prints as it is, whatever the arguments |
| ImplEnvironment.MessageLine | java/src/org/pidster/tomcat/util/cli/impl/EnvironmentImpl.java:52-69 | `sysout(message)`: a null message prints "Error: null", a text gets its line feed, a bundle message is printed by key |
| ImplEnvironment.LineTokensClean | java/src/org/pidster/tomcat/util/cli/impl/EnvironmentImpl.java:116-123 | no token of a console line holds whitespace, and only the first can be empty |
| ImplEnvironment.EnvironmentImpl.constructor | java/src/org/pidster/tomcat/util/cli/impl/EnvironmentImpl.java:39-43 | the prompt starts as "> " and nothing is printed |
| ImplEnvironment.EnvironmentImpl.SetPrompt | java/src/org/pidster/tomcat/util/cli/impl/EnvironmentImpl.java:97-104 | the prompt becomes the argument, or "> " for null or "" |
| ImplEnvironment.EnvironmentImpl.Sysout | java/src/org/pidster/tomcat/util/cli/impl/EnvironmentImpl.java:52-69 | exactly one line, `SysoutText(fmt, args)`, is appended to the output |
| ImplEnvironment.EnvironmentImpl.SysoutMessage | java/src/org/pidster/tomcat/util/cli/impl/EnvironmentImpl.java:52-69 | exactly the message's line is appended to the output |
| ImplEnvironment.EnvironmentImpl.SysoutThrowable | java/src/org/pidster/tomcat/util/cli/impl/EnvironmentImpl.java:77-79 | the stack trace of the throwable is appended to the output |
| ImplEnvironment.EnvironmentImpl.ReadPromptWith | java/src/org/pidster/tomcat/util/cli/impl/EnvironmentImpl.java:112-124 | the prompt is printed; at end of input a NullPointerException is thrown, otherwise one line is consumed and returned as its tokens |
| ImplEnvironment.EnvironmentImpl.ReadPrompt | java/src/org/pidster/tomcat/util/cli/impl/EnvironmentImpl.java:129-131 | as `readPrompt(prompt)` with the current prompt |
| ImplTerminal.TerminalImpl.constructor | java/src/org/pidster/tomcat/util/cli/impl/TerminalImpl.java:30-36 | a fresh registry with empty maps, a fresh processor (count 0, not interactive, no history) and an environment over the console with the prompt "> " and nothing printed |
| ImplTerminal.TerminalImpl.Register | java/src/org/pidster/tomcat/util/cli/impl/TerminalImpl.java:44-52 | the registry becomes each command registered first-wins in order, then "help" put over whatever held that name |
| ImplTerminal.TerminalImpl.Dispatch | java/src/org/pidster/tomcat/util/cli/impl/TerminalImpl.java:69-110 | the body up to the reading of the next line is the loop step of the specification (`LoopStep`), and exactly its printed lines are appended to the output |
| ImplTerminal.TerminalImpl.Lookup | java/src/org/pidster/tomcat/util/cli/impl/TerminalImpl.java:80-109 | for a line with a command (or in interactive mode), the not-found message or the found command's lifecycle, as `LoopStep` says |
| ImplTerminal.TerminalImpl.Execute | java/src/org/pidster/tomcat/util/cli/impl/TerminalImpl.java:86-108 | a registered command gets its options bound, then configure/execute/cleanup run as `LoopEffect` says, with what was caught printed |
| ImplTerminal.TerminalImpl.ReadNext | java/src/org/pidster/tomcat/util/cli/impl/TerminalImpl.java:112-113 | the prompt is printed; an exhausted console throws a NullPointerException, otherwise one line is consumed and parsed into the processor's history |
| ImplTerminal.TerminalImpl.Step | java/src/org/pidster/tomcat/util/cli/impl/TerminalImpl.java:69-113 | one pass once the condition held: the run is extended by exactly this iteration and the next line (or the throwable) is the one the next pass sees; the console shrinks when the loop goes on interactively |
| ImplTerminal.TerminalImpl.Advance | java/src/org/pidster/tomcat/util/cli/impl/TerminalImpl.java:111-113 | after the dispatch, prompting and reading happen only in interactive mode, and the run is extended by the iteration either way |
| ImplTerminal.TerminalImpl.Pass | java/src/org/pidster/tomcat/util/cli/impl/TerminalImpl.java:67-113 | one evaluation of `first() \|\| interactive` and, when it holds, the body: the run either ends as `Ended` says or goes on as `Running` says; outside interactive mode a fresh processor runs the body exactly once |
| ImplTerminal.TerminalImpl.Body | java/src/org/pidster/tomcat/util/cli/impl/TerminalImpl.java:69-113 | one pass of the body: the run ends (`Ended`) or is extended by one iteration (`Running`), consuming a console line only in interactive mode |
| ImplTerminal.TerminalImpl.Process | java/src/org/pidster/tomcat/util/cli/impl/TerminalImpl.java:60-115 | the whole of `process`: the output, the console left over and the throwable that escapes are those of the loop's specification `Ended` for these arguments and this console |
| ImplTerminal.TerminalImpl.Loop | java/src/org/pidster/tomcat/util/cli/impl/TerminalImpl.java:67-114 | the `while` loop from the first line until an iteration or a throwable ends it, as `Ended` says |
| ImplConsoleUI.ConsoleUIImpl.constructor | java/src/org/pidster/tomcat/util/cli/impl/ConsoleUIImpl.java:51-57 | a fresh registry with empty maps, a fresh processor (count 0, not interactive, no history) and an environment over the console with the prompt "> " and nothing printed |
| ImplConsoleUI.ConsoleUIImpl.Register | java/src/org/pidster/tomcat/util/cli/impl/ConsoleUIImpl.java:65-73 | the registry becomes each command registered first-wins in order, then "help" put over whatever held that name |
| ImplConsoleUI.ConsoleUIImpl.Dispatch | java/src/org/pidster/tomcat/util/cli/impl/ConsoleUIImpl.java:90-130 | the body up to the reading of the next line is the loop step of the specification (`LoopStep`), and exactly its printed lines are appended to the output |
| ImplConsoleUI.ConsoleUIImpl.Lookup | java/src/org/pidster/tomcat/util/cli/impl/ConsoleUIImpl.java:101-130 | for a line with a command (or in interactive mode), the not-found message or the found command's lifecycle, as `LoopStep` says |
| ImplConsoleUI.ConsoleUIImpl.Execute | java/src/org/pidster/tomcat/util/cli/impl/ConsoleUIImpl.java:107-129 | a registered command gets its options bound, then configure/execute/cleanup run as `LoopEffect` says, with what was caught printed |
| ImplConsoleUI.ConsoleUIImpl.ReadNext | java/src/org/pidster/tomcat/util/cli/impl/ConsoleUIImpl.java:133-134 | the prompt is printed; an exhausted console throws a NullPointerException, otherwise one line is consumed and parsed into the processor's history |
| ImplConsoleUI.ConsoleUIImpl.Step | java/src/org/pidster/tomcat/util/cli/impl/ConsoleUIImpl.java:90-134 | one pass once the condition held: the run is extended by exactly this iteration and the next line (or the throwable) is the one the next pass sees; the console shrinks when the loop goes on interactively |
| ImplConsoleUI.ConsoleUIImpl.Advance | java/src/org/pidster/tomcat/util/cli/impl/ConsoleUIImpl.java:132-134 | after the dispatch, prompting and reading happen only in interactive mode, and the run is extended by the iteration either way |
| ImplConsoleUI.ConsoleUIImpl.Pass | java/src/org/pidster/tomcat/util/cli/impl/ConsoleUIImpl.java:88-134 | one evaluation of `first() \|\| interactive` and, when it holds, the body: the run either ends as `Ended` says or goes on as `Running` says; outside interactive mode a fresh processor runs the body exactly once |
| ImplConsoleUI.ConsoleUIImpl.Body | java/src/org/pidster/tomcat/util/cli/impl/ConsoleUIImpl.java:90-134 | one pass of the body: the run ends (`Ended`) or is extended by one iteration (`Running`), consuming a console line only in interactive mode |
| ImplConsoleUI.ConsoleUIImpl.Process | java/src/org/pidster/tomcat/util/cli/impl/ConsoleUIImpl.java:81-136 | the whole of `process`: the output, the console left over and the throwable that escapes are those of the loop's specification `Ended` for these arguments and this console |
| ImplConsoleUI.ConsoleUIImpl.Loop | java/src/org/pidster/tomcat/util/cli/impl/ConsoleUIImpl.java:88-135 | the `while` loop from the first line until an iteration or a throwable ends it, as `Ended` says |
| Dispatch.LifecycleShape | java/src/org/pidster/tomcat/util/cli/impl/TerminalImpl.java:87-109 | a found command is configured only when its options bound and executed only when configure completed; cleanup is called always and last; the throwable caught is the first raised (the binding error, configure's, or execute's) and cleanup's own throwable escapes |
| Dispatch.DecideCases | java/src/org/pidster/tomcat/util/cli/impl/TerminalImpl.java:69-85 | each line takes exactly one branch, in source order: exit/quit, usage (no command, not interactive), not found, found (carrying the registered command), or nothing for an interactive line without a command |
| Dispatch.FirstBudgetFalls | java/src/org/pidster/tomcat/util/cli/impl/CommandProcessorImpl.java:115-118 | every `first()` that returns true lowers a natural measure of the 64-bit counter, so `first()` alone cannot keep the loop going forever, including across the wrap from Long.MAX_VALUE |
| Dispatch.RegisterAll | java/src/org/pidster/tomcat/util/cli/impl/TerminalImpl.java:44-52 | registering a command list is the first-wins registration of each command in order followed by an unconditional put of "help" |
| Dispatch.HelpOverride | java/src/org/pidster/tomcat/util/cli/impl/TerminalImpl.java:49-51 | after registration "help" maps to the given help command with its own options, whatever held that name; every other name is bound to the first command of the list that carries it |
| DispatchLoop.LoopDecideCases | java/src/org/pidster/tomcat/util/cli/Terminal.java:120-140 | only the older Terminal throws (index 0 of an empty argument list) for a line without a command, and then before any other check; otherwise every revision takes the shared decision on the line's command name |
| DispatchLoop.LoopEffectCases | java/src/org/pidster/tomcat/util/cli/impl/ConsoleUIImpl.java:90-130 | only a found command makes lifecycle calls; usage and not-found print their revision's message; exit and an empty interactive line print nothing; a failed `isExit` escapes; a found command's effect is its lifecycle with the caught throwable reported as the revision reports it (message or stack trace) |
| DispatchLoop.RunSteps | java/src/org/pidster/tomcat/util/cli/impl/TerminalImpl.java:67-114 | in a run, the k-th iteration dispatched the k-th command line (program arguments first, then console lines in interactive mode) as the loop does, and an interactive run has at most one iteration more than there are console lines |
| DispatchLoop.RunFound | java/src/org/pidster/tomcat/util/cli/impl/TerminalImpl.java:86-108 | the try/catch/finally block of a found command makes exactly the lifecycle calls, prints exactly the caught report, and lets exactly cleanup's throwable escape, as `RunLifecycle` says |
| DispatchLoop.PassOf | java/src/org/pidster/tomcat/util/cli/impl/TerminalImpl.java:67-113 | a pass of the loop body extends the run by its iteration, appends what it printed and its prompt, and in interactive mode the next line is the first unread console line, or a NullPointerException when there is none |
| DispatchLoop.NextLine | java/src/org/pidster/tomcat/util/cli/impl/TerminalImpl.java:111-113 | the line read after an iteration that let the loop go on is the next line of the run, and the console keeps the lines after it |
| DispatchLoop.EndAtCondition | java/src/org/pidster/tomcat/util/cli/impl/TerminalImpl.java:67 | leaving the loop through its condition (not interactive, `first()` false) ends the run without a throwable, after exactly one iteration for a fresh processor |
| DispatchLoop.EndAfterPass | java/src/org/pidster/tomcat/util/cli/impl/TerminalImpl.java:69-113 | leaving the loop after a pass (exit, usage, cleanup's throwable, or the end of console input) ends the run with that iteration last and the throwable that escaped |
| LegacyCommandLine.CommandLine.constructor | java/src/org/pidster/tomcat/util/cli/CommandLine.java:42-46 | a new line has no arguments, no options and the default prompt |
| LegacyCommandLine.CommandLine.SetPrompt | java/src/org/pidster/tomcat/util/cli/CommandLine.java:59-66 | a null or empty prompt selects the default "> ", any other becomes the prompt |
| LegacyCommandLine.CommandLine.AddOption | java/src/org/pidster/tomcat/util/cli/CommandLine.java:116-118 | the option is appended, nothing else changes |
| LegacyCommandLine.CommandLine.AddArgument | java/src/org/pidster/tomcat/util/cli/CommandLine.java:149-151 | the argument is appended, nothing else changes |
| LegacyCommandLine.CommandLine.CommandName | java/src/org/pidster/tomcat/util/cli/CommandLine.java:123-125 | the first argument, and an IndexOutOfBoundsException exactly when there is none |
| LegacyCommandLine.CommandLine.HasCommand | java/src/org/pidster/tomcat/util/cli/CommandLine.java:130-137 | true exactly when asking for the command name does not throw |
| LegacyCommandLine.CommandLine.Arguments | java/src/org/pidster/tomcat/util/cli/CommandLine.java:156-161 | the arguments after the command name without the last one: length size-2 (0 for fewer than two) and element k is argument k+1 |
| LegacyCommandProcessor.CommandProcessor.constructor | java/src/org/pidster/tomcat/util/cli/CommandProcessor.java:39-43 | count 0, not interactive, empty history |
| LegacyCommandProcessor.CommandProcessor.ParseArguments | java/src/org/pidster/tomcat/util/cli/CommandProcessor.java:49-79 | a fresh line whose options and arguments are the '-' and other tokens of the normalised argument list with the first "--interactive" removed (a second one stays as an option token), appended to the history; interactive turns on when "--interactive" was among the tokens and never turns off |
| LegacyCommandProcessor.CommandProcessor.FillLine | java/src/org/pidster/tomcat/util/cli/CommandProcessor.java:65-74 | a fresh line whose options are exactly the tokens starting with '-' and whose arguments are all the others, each in order |
| LegacyCommandProcessor.CommandProcessor.IsExit | java/src/org/pidster/tomcat/util/cli/CommandProcessor.java:84-94 | a NoSuchElementException on an empty history, an IndexOutOfBoundsException when the last line has no command, otherwise whether its command is exit or quit ignoring case |
| LegacyCommandProcessor.CommandProcessor.First | java/src/org/pidster/tomcat/util/cli/CommandProcessor.java:99-102 | the 64-bit counter is incremented with wrap-around and the answer is whether it is now at most one, that is, true on the first call only until the counter wraps |
| LegacyTerminal.Terminal.constructor | java/src/org/pidster/tomcat/util/cli/Terminal.java:93-108 | the registry holds the found commands registered first-wins in order and then "help"; a fresh processor and an environment over the console with nothing printed |
| LegacyTerminal.Terminal.Dispatch | java/src/org/pidster/tomcat/util/cli/Terminal.java:122-162 | the body up to the re-read is the loop step of the older Terminal (`LoopStep`), including the throw of `isExit` for a line without a command, and exactly its printed lines are appended |
| LegacyTerminal.Terminal.Lookup | java/src/org/pidster/tomcat/util/cli/Terminal.java:133-162 | for a line with a command that is not exit, the not-found message or the found command's lifecycle as `LoopStep` says |
| LegacyTerminal.Terminal.ReportNotFound | java/src/org/pidster/tomcat/util/cli/Terminal.java:133-137 | a command name nothing is registered under prints "Command '<name>' not found" and the loop goes on |
| LegacyTerminal.Terminal.Execute | java/src/org/pidster/tomcat/util/cli/Terminal.java:140-162 | a registered command has its options bound by the older parser, then runs its lifecycle as `LoopEffect` says, with a caught throwable printed as a stack trace |
| LegacyTerminal.Terminal.ReadNext | java/src/org/pidster/tomcat/util/cli/Terminal.java:165-166 | the prompt is printed; an exhausted console throws a NullPointerException, otherwise one line is consumed and parsed into the history |
| LegacyTerminal.Terminal.Step | java/src/org/pidster/tomcat/util/cli/Terminal.java:122-166 | one pass once the condition held: the run is extended by exactly this iteration and the line read next is the one the next pass sees |
| LegacyTerminal.Terminal.Advance | java/src/org/pidster/tomcat/util/cli/Terminal.java:164-166 | after the dispatch, the next line is read only in interactive mode, and the run is extended by the iteration either way |
| LegacyTerminal.Terminal.Pass | java/src/org/pidster/tomcat/util/cli/Terminal.java:120-166 | one evaluation of `first() \|\| interactive` and, when it holds, the body: the run ends as `Ended` says or goes on as `Running` says; outside interactive mode a fresh processor runs the body exactly once |
| LegacyTerminal.Terminal.Body | java/src/org/pidster/tomcat/util/cli/Terminal.java:122-166 | one pass of the body: the run ends or grows by one iteration, consuming a console line only in interactive mode |
| LegacyTerminal.Terminal.Process | java/src/org/pidster/tomcat/util/cli/Terminal.java:113-168 | the whole of `process`: output, remaining console and escaping throwable are those of `Ended` for the older Terminal with these arguments and this console |
| LegacyTerminal.Terminal.Loop | java/src/org/pidster/tomcat/util/cli/Terminal.java:120-167 | the `while` loop from the first line until an iteration or a throwable ends it, as `Ended` says |
| LegacyJmxCommand.ServiceUrl | java/src/org/pidster/tomcat/util/cli/AbstractJMXCommand.java:119-152 | "url" wins; else "pid" parsed as an int (a NumberFormatException otherwise) and its connector address, which may be null or an IOException; else the RMI address from host (default 127.0.0.1), port 1099 and "/jmxrmi" |
| LegacyJmxCommand.ConnectorProperties | java/src/org/pidster/tomcat/util/cli/AbstractJMXCommand.java:93-113 | no credentials without "username"; with "password" the pair of the two option values; otherwise the first token typed at the prompt is the password, and a blank line throws |
| LegacyJmxCommand.Caught | java/src/org/pidster/tomcat/util/cli/AbstractJMXCommand.java:78-80 | an IOException is printed and swallowed, anything else escapes; the connection is unchanged either way |
| LegacyJmxCommand.ConfigureOutcomes | java/src/org/pidster/tomcat/util/cli/AbstractJMXCommand.java:64-81 | the connection changes only when configure completed, connecting to the address `ServiceUrl` chose with the credentials `ConnectorProperties` chose; a failure that escapes is never an IOException and leaves the old connection |
| LegacyJmxCommand.ConnectFailureSwallowed | java/src/org/pidster/tomcat/util/cli/AbstractJMXCommand.java:74-80 | a connect failure completes configure and leaves a first-time command without a connection |
| LegacyJmxCommand.NullAddressEscapes | java/src/org/pidster/tomcat/util/cli/AbstractJMXCommand.java:126-128 | a process without a local connector address gives a null address, and the NullPointerException of `new JMXServiceURL` escapes configure |
| LegacyJmxCommand.DefaultAddress | java/src/org/pidster/tomcat/util/cli/AbstractJMXCommand.java:131-150 | with none of "url", "pid" and "host" set the address is service:jmx:rmi:///jndi/rmi://127.0.0.1:1099/jmxrmi whatever "port" says |
| LegacyJmxCommand.PortDiscarded | java/src/org/pidster/tomcat/util/cli/AbstractJMXCommand.java:132-134 | two configurations that agree on "url", "pid" and "host" resolve to the same address, since the port value is read and dropped |
| LegacyJmxCommand.DeclaredPidNeverParses | java/src/org/pidster/tomcat/util/cli/AbstractJMXCommand.java:36 | the declared "pid" option's value is "", so a set "pid" fails with NumberFormatException for input string "" |
| LegacyJmxCommand.OneTokenThreeOptions | java/src/org/pidster/tomcat/util/cli/AbstractJMXCommand.java:35-40 | the single token "-u:x" binds "jmx", "username" and "password" alike and leaves "pid" unbound |
| LegacyJmxCommand.OneTokenCredentials | java/src/org/pidster/tomcat/util/cli/AbstractJMXCommand.java:96-110 | a configuration bound from that token sends the credentials ("", "") without prompting |
| LegacyJmxCommand.BlankCredentials | java/src/org/pidster/tomcat/util/cli/AbstractJMXCommand.java:96-110 | with both options set to the bound empty value, username and password are both the empty string |
| LegacyJmxCommand.NoDefaults | java/src/org/pidster/tomcat/util/cli/AbstractJMXCommand.java:35-40 | every option the older parser binds for this class has the empty value |
| LegacyJmxCommand.BlankPasswordEscapes | java/src/org/pidster/tomcat/util/cli/AbstractJMXCommand.java:103-104 | a blank line at the password prompt makes configure throw an IndexOutOfBoundsException |
| LegacyJmxCommand.LegacyAbstractJmxCommand.constructor | java/src/org/pidster/tomcat/util/cli/AbstractJMXCommand.java:54-56 | no configuration and no connection yet |
| LegacyJmxCommand.LegacyAbstractJmxCommand.Configure | java/src/org/pidster/tomcat/util/cli/AbstractJMXCommand.java:64-81 | the configuration is stored and the new connection and completion are those of `ConfigureStep`; only when a password is prompted for is "JMX Password: " printed and one console line consumed, otherwise the console is untouched |
| OptionBinding.TokenValue | java/src/org/pidster/tomcat/util/cli/impl/OptionParserImpl.java:70-77 | a token without ':' gives the option's declared default, one with ':' the text after its first ':' |
| OptionBinding.FirstMatch | java/src/org/pidster/tomcat/util/cli/impl/OptionParserImpl.java:63-88 | the position of the first token selecting the option (nothing before it does), or null when no token selects it |
| OptionBinding.BindSucceeds | java/src/org/pidster/tomcat/util/cli/impl/OptionParserImpl.java:58-97 | when no declared option rejects the tokens, the result is exactly the options some token selects, each with the value of its first selecting token |
| OptionBinding.BindFails | java/src/org/pidster/tomcat/util/cli/impl/OptionParserImpl.java:79-95 | options are checked in declaration order: the first option that rejects the tokens decides the exception |
| OptionBinding.BindCases | java/src/org/pidster/tomcat/util/cli/impl/OptionParserImpl.java:58-97 | binding fails exactly when some declared option rejects the tokens, and otherwise yields `Expected` |
| OptionBinding.BoundKeys | java/src/org/pidster/tomcat/util/cli/impl/OptionParserImpl.java:61-87 | the keys of a successful result are the declared options some token selects, and each value comes from its first selecting token |
| OptionBinding.RequiredMissing | java/src/org/pidster/tomcat/util/cli/impl/OptionParserImpl.java:92-95 | a required option that no token selects is an error, even when it declares a default |
| OptionBinding.EmptySetter | java/src/org/pidster/tomcat/util/cli/impl/OptionParserImpl.java:79-83 | a setter option whose first selecting token carries an empty value is an error |
| OptionBinding.UnmatchedTokenIgnored | java/src/org/pidster/tomcat/util/cli/impl/OptionParserImpl.java:63-89 | inserting a token that selects no declared option does not change the result |
| OptionBinding.PrefixSelects | java/src/org/pidster/tomcat/util/cli/impl/OptionParserImpl.java:65-68 | matching is a prefix test: "--hostnameX" selects the option "hostname" |
| OptionBinding.SharedTrigger | java/src/org/pidster/tomcat/util/cli/impl/OptionParserImpl.java:63-87 | tokens are not consumed: the first token selecting two options binds both, each to the value that token gives it |
| OptionParsers.BindOptions | java/src/org/pidster/tomcat/util/cli/impl/OptionParserImpl.java:58-97 | the nested labelled loop returns exactly `Bind` for the viable options and tokens |
| OptionParsers.BindOption | java/src/org/pidster/tomcat/util/cli/impl/OptionParserImpl.java:63-95 | one pass of the outer loop: the inner loop stops at the first selecting token, then the required check runs, as `BindOne` says |
| OptionParsers.OptionParserImpl.constructor | java/src/org/pidster/tomcat/util/cli/impl/OptionParserImpl.java:43-45 | the parser shares the registry's live option map |
| OptionParsers.OptionParserImpl.ActiveOptions | java/src/org/pidster/tomcat/util/cli/impl/OptionParserImpl.java:55-98 | a command without a stored option list makes the loop throw a NullPointerException; otherwise the result is `Bind` over its options with the newer message |
| OptionParsers.OptionParser.constructor | java/src/org/pidster/tomcat/util/cli/OptionParser.java:35-37 | the parser shares the registry's live option map |
| OptionParsers.OptionParser.ActiveOptions | java/src/org/pidster/tomcat/util/cli/OptionParser.java:44-88 | as the newer parser, with the older empty-setter message "Option <name> must have value" |
| CommandClasses.Lineage | java/src/org/pidster/tomcat/util/cli/impl/CommandRegistryImpl.java:82-90 | the class and its superclasses, most-derived first, each the parent of the one before, ending at a direct subclass of Object; empty exactly for null |
| CommandClasses.InheritedSuffix | java/src/org/pidster/tomcat/util/cli/impl/CommandRegistryImpl.java:80-92 | the options of every ancestor, its own and inherited, end the options of each descendant: nothing is dropped or de-duplicated |
| CommandClasses.CommandsWellFormed | java/src/org/pidster/tomcat/util/cli/commands/AbstractCommand.java:31-34 | the command classes form a well-founded hierarchy with superclasses before subclasses |
| CommandClasses.SingleRootInherited | java/src/org/pidster/tomcat/util/cli/impl/CommandRegistryImpl.java:80-92 | in a hierarchy with a single root class, every class's options end with the root's |
| CommandClasses.EveryCommandInheritsBase | java/src/org/pidster/tomcat/util/cli/commands/AbstractCommand.java:31-33 | every command class ends its options with verbose 'V', debug 'D' and interactive 'I' |
| CommandClasses.WebappCommandOptionList | java/src/org/pidster/tomcat/util/cli/commands/WebappCommand.java:37-43 | the webapp command's options are its own, the status command's, then the JMX and base options; "webapp" appears twice as two different annotations |
| CommandClasses.DiagnosticCommandOptionList | java/src/org/pidster/tomcat/util/cli/commands/DiagnosticCommand.java:45-49 | the diagnostic command's options, where its "duration" and the inherited "debug" share the trigger 'D' |
| CommandClasses.HostCommandOptionList | java/src/org/pidster/tomcat/util/cli/commands/HostCommand.java:39-44 | the host command's options are its own, then the JMX and base options |
| CommandClasses.AbstractWebappCommandOptionList | java/src/org/pidster/tomcat/util/cli/commands/AbstractWebappCommand.java:32-35 | a command built on the abstract webapp command has "webapp", then the status command's, JMX and base options |
| CommandClasses.InheritedNames | java/src/org/pidster/tomcat/util/cli/commands/AbstractJMXCommand.java:60-67 | no JMX or base option is named "engine", "hostname" or "webapp" |
| CommandClasses.StatusOptionDefaults | java/src/org/pidster/tomcat/util/cli/commands/StatusCommand.java:40-49 | the status command declares "engine" and "hostname" with default "*" and "webapp" with "" |
| AbstractWebappCommand.CompletedRunInvokesMatching | java/src/org/pidster/tomcat/util/cli/commands/AbstractWebappCommand.java:54-100 | a completed run found one Host, invoked the fixed operation on exactly the children whose docBase equals the "webapp" option, in order, and the status report completed after it |
| AbstractWebappCommand.OneHostRequired | java/src/org/pidster/tomcat/util/cli/commands/AbstractWebappCommand.java:76-82 | unless exactly one Host is found nothing is invoked, and the wrong count is thrown as a CommandException |
| AbstractWebappCommand.AbstractWebappOptionDefaults | java/src/org/pidster/tomcat/util/cli/commands/AbstractWebappCommand.java:32-35 | across its options, "engine" and "hostname" are declared only with "*", and "webapp" only with "" |
| AbstractWebappCommand.BoundSelection | java/src/org/pidster/tomcat/util/cli/commands/AbstractWebappCommand.java:59-73 | after binding, the Host pattern is always "*:type=Host,host=*" and "webapp" answers its declared default "" whatever was typed |
| AbstractWebappCommand.AbstractWebappCommand.constructor | java/src/org/pidster/tomcat/util/cli/commands/AbstractWebappCommand.java:42-44 | the command keeps the operation it is given |
| AbstractWebappCommand.AbstractWebappCommand.Execute | java/src/org/pidster/tomcat/util/cli/commands/AbstractWebappCommand.java:54-100 | the run of `execute()` is `AbstractWebappRun` for this operation |
| WebappCommand.SubCommandChecked | java/src/org/pidster/tomcat/util/cli/commands/WebappCommand.java:69-77 | without arguments, or with a first argument outside {start, stop, reload}, the run throws the sub-command message and nothing is queried, logged or invoked |
| WebappCommand.InvokesSubCommandOnOneHost | java/src/org/pidster/tomcat/util/cli/commands/WebappCommand.java:96-114 | every invocation made is of the typed sub-command on a child of the one Host found, and the server reported exactly one Host |
| WebappCommand.CompletedRunInvokesMatching | java/src/org/pidster/tomcat/util/cli/commands/WebappCommand.java:66-122 | a completed run invoked the sub-command on exactly the children whose docBase equals the "webapp" option |
| WebappCommand.FailuresAreCommandExceptions | java/src/org/pidster/tomcat/util/cli/commands/WebappCommand.java:118-120 | every failure leaves `execute` as a CommandException |
| WebappCommand.WebappOptionDefaults | java/src/org/pidster/tomcat/util/cli/commands/WebappCommand.java:38-43 | "engine" and "hostname" are declared both with "" and with "*"; "webapp" only with "" |
| WebappCommand.BoundWebappSelection | java/src/org/pidster/tomcat/util/cli/commands/WebappCommand.java:80-114 | after binding, "webapp" answers "" whatever was typed and each pattern part is "*" or "", so a completed run invokes only on children whose docBase is "" |
| WebappCommand.WebappCommand.constructor | java/src/org/pidster/tomcat/util/cli/commands/WebappCommand.java:50-56 | the sub-command set is {start, stop, reload} |
| WebappCommand.WebappCommand.Execute | java/src/org/pidster/tomcat/util/cli/commands/WebappCommand.java:66-122 | the run of `execute()` is `WebappRun` over the command's sub-command set |
| HostCommand.LeaksAppend | java/src/org/pidster/tomcat/util/cli/commands/HostCommand.java:127-134 | collecting the strings of two arrays one after the other collects those of each |
| HostCommand.LeaksOfOne | java/src/org/pidster/tomcat/util/cli/commands/HostCommand.java:129-133 | an element is collected exactly when it is a string |
| HostCommand.LeaksBound | java/src/org/pidster/tomcat/util/cli/commands/HostCommand.java:127-134 | there are at most as many leaks as elements, and as many exactly when every element is a string |
| HostCommand.LeakLinesShape | java/src/org/pidster/tomcat/util/cli/commands/HostCommand.java:138-140 | one "Leaking app name" call per leak, carrying that leak, in order |
| HostCommand.LeakReportShape | java/src/org/pidster/tomcat/util/cli/commands/HostCommand.java:114-141 | for null or a non-array nothing is logged; for an empty array only "No leaking apps found."; otherwise the full array length first, then one call per string element |
| HostCommand.ReportMessages | java/src/org/pidster/tomcat/util/cli/commands/HostCommand.java:123-139 | the report uses only its three messages |
| HostCommand.NoLeaksIsNoKey | java/src/org/pidster/tomcat/util/cli/commands/HostCommand.java:123 | "No leaking apps found." is no resource-bundle key |
| HostCommand.FoundLeaksIsNoKey | java/src/org/pidster/tomcat/util/cli/commands/HostCommand.java:136 | "Found %s leaking apps..." is no resource-bundle key |
| HostCommand.LeakNameIsNoKey | java/src/org/pidster/tomcat/util/cli/commands/HostCommand.java:139 | "Leaking app name: %s" is no resource-bundle key |
| HostCommand.LeakReportPrintsPlaceholders | java/src/org/pidster/tomcat/util/cli/commands/AbstractCommand.java:107-113 | the log with arguments drops them for non-keys, so the count and the names never reach the console, only the placeholders |
| HostCommand.SubCommandChecked | java/src/org/pidster/tomcat/util/cli/commands/HostCommand.java:65-73 | without arguments, or with a first argument outside {start, stop, findleaks}, the run throws and nothing is queried, logged or invoked |
| HostCommand.InvokesOnlyTheOneHost | java/src/org/pidster/tomcat/util/cli/commands/HostCommand.java:91-101 | an operation is invoked only when exactly one Host matches, and then once, on that Host, with the mapped operation name |
| HostCommand.WrongHostCount | java/src/org/pidster/tomcat/util/cli/commands/HostCommand.java:94-98 | any other count is thrown after the pattern is logged |
| HostCommand.FailuresAreCommandExceptions | java/src/org/pidster/tomcat/util/cli/commands/HostCommand.java:105-107 | every failure leaves `execute` as a CommandException |
| HostCommand.HostOptionDefaults | java/src/org/pidster/tomcat/util/cli/commands/HostCommand.java:40-43 | among the host command's options, "engine" and "hostname" are declared only by itself, both with "" |
| HostCommand.BoundHostPattern | java/src/org/pidster/tomcat/util/cli/commands/HostCommand.java:79-89 | after binding, "hostname" is always set and both parts answer "", so the pattern is ":type=Host,host=" with "engine" set and "*:type=Host,host=" without |
| HostCommand.HostCommand.constructor | java/src/org/pidster/tomcat/util/cli/commands/HostCommand.java:51-56 | the sub-command map sends start and stop to themselves and findleaks to findReloadedContextMemoryLeaks |
| HostCommand.HostCommand.HandleMethodResult | java/src/org/pidster/tomcat/util/cli/commands/HostCommand.java:114-141 | the log calls made are exactly `LeakReport` of the returned value |
| HostCommand.HostCommand.Execute | java/src/org/pidster/tomcat/util/cli/commands/HostCommand.java:62-108 | the run of `execute()` is `HostRun` over the command's sub-command map |
| HostQuery.PatternPart | java/src/org/pidster/tomcat/util/cli/commands/WebappCommand.java:84-90 | "*" unless the option is set, and then the value of a bound option of that name |
| HostQuery.PatternOfDeclared | java/src/org/pidster/tomcat/util/cli/commands/HostCommand.java:79-89 | when each option is declared with one default, the pattern depends only on which of them are set |
| HostQuery.RequiredIsSet | java/src/org/pidster/tomcat/util/cli/commands/WebappCommand.java:41 | after binding, a required declared option is set |
| HostQuery.BoundDeclares | java/src/org/pidster/tomcat/util/cli/commands/WebappCommand.java:80 | a name all of whose declarations carry one default answers that default |
| HostQuery.FindHostCases | java/src/org/pidster/tomcat/util/cli/commands/WebappCommand.java:96-103 | a Host is found exactly when the server reports one name, and it is that name; any other count is thrown after the pattern is logged |
| HostQuery.AsCommand | java/src/org/pidster/tomcat/util/cli/commands/WebappCommand.java:118-120 | a failure is rethrown as a CommandException with the same message; logs, invocations and success are unchanged |
| HostQuery.Names | java/src/org/pidster/tomcat/util/cli/commands/WebappCommand.java:109 | the names of an array of object names, one per element, in order |
| HostQuery.CompletedLoopInvokesMatching | java/src/org/pidster/tomcat/util/cli/commands/WebappCommand.java:109-114 | a loop that completes invoked the operation on exactly the children whose docBase equals the option, in order |
| HostQuery.InvokedAreChildren | java/src/org/pidster/tomcat/util/cli/commands/WebappCommand.java:109-114 | a loop that throws invoked only children of the list, stopping at the first pass that throws |
| HostQuery.InvokeMatching | java/src/org/pidster/tomcat/util/cli/commands/WebappCommand.java:109-114 | the loop as written returns `Visit` |
| HostQuery.StopsAtFailure | java/src/org/pidster/tomcat/util/cli/commands/WebappCommand.java:109-114 | once a prefix of the loop throws, the whole loop ends as that prefix did |
| HostQuery.WebappsRunCompleted | java/src/org/pidster/tomcat/util/cli/commands/WebappCommand.java:80-117 | a completed run found one Host, read an array of children, invoked on exactly the matching ones and ended as the status report did |
| HostQuery.NoHostNoInvocation | java/src/org/pidster/tomcat/util/cli/commands/WebappCommand.java:99-103 | with no single Host nothing is read from a Host or invoked |
| HostQuery.ApplyToWebapps | java/src/org/pidster/tomcat/util/cli/commands/WebappCommand.java:80-117 | the body as written returns `WebappsRun` |
| HostQuery.BoundDeclaresEither | java/src/org/pidster/tomcat/util/cli/commands/WebappCommand.java:84-90 | a name all of whose declarations carry one of two defaults answers one of them or "*" |
| JmxCommand.Candidates | java/src/org/pidster/tomcat/util/cli/commands/AbstractJMXCommand.java:393-399 | the ids of the listed machines whose display name starts with the Tomcat bootstrap class, in order, never more than were listed |
| JmxCommand.GuessCandidates | java/src/org/pidster/tomcat/util/cli/commands/AbstractJMXCommand.java:394-399 | the for-each loop collects exactly `Candidates` |
| JmxCommand.CandidatesExact | java/src/org/pidster/tomcat/util/cli/commands/AbstractJMXCommand.java:395-398 | an id is a candidate exactly when some listed Tomcat machine carries it |
| JmxCommand.ServiceUrl | java/src/org/pidster/tomcat/util/cli/commands/AbstractJMXCommand.java:353-439 | the address is the one the first set option among "url", "pid", "inject" and "guess" chooses, else the default; it is logged only when debugging |
| JmxCommand.ResolveServiceUrl | java/src/org/pidster/tomcat/util/cli/commands/AbstractJMXCommand.java:353-439 | the decision chain as written, with its guess loop, returns exactly `ServiceUrl` |
| JmxCommand.ConnectorProperties | java/src/org/pidster/tomcat/util/cli/commands/AbstractJMXCommand.java:325-347 | credentials exactly when "username" is set; the only failure is a failed password prompt, and only when one is prompted for |
| JmxCommand.Rewrap | java/src/org/pidster/tomcat/util/cli/commands/AbstractJMXCommand.java:149-157 | IOException, MalformedObjectNameException and NullPointerException become a CommandException with the same message; every other exception keeps its kind |
| JmxCommand.ManualUrlFirst | java/src/org/pidster/tomcat/util/cli/commands/AbstractJMXCommand.java:357-359 | a set "url" wins over every other option, makes no foreign call, and gives the option's value as the address |
| JmxCommand.DefaultAddress | java/src/org/pidster/tomcat/util/cli/commands/AbstractJMXCommand.java:414-433 | with none of the four options set the address is the RMI registry of host and port, each defaulting, and the local registry on 1099 when neither is given |
| JmxCommand.TypedValuesIgnored | java/src/org/pidster/tomcat/util/cli/commands/AbstractJMXCommand.java:357-433 | two configurations that bind the same options resolve to the same address whatever values were typed, since values answer declared defaults |
| JmxCommand.SamePid | java/src/org/pidster/tomcat/util/cli/commands/AbstractJMXCommand.java:362-367 | the pid branch depends only on which options are bound |
| JmxCommand.SameInject | java/src/org/pidster/tomcat/util/cli/commands/AbstractJMXCommand.java:370-389 | the inject branch depends only on which options are bound |
| JmxCommand.SameDefault | java/src/org/pidster/tomcat/util/cli/commands/AbstractJMXCommand.java:414-433 | the default address depends only on which options are bound |
| JmxCommand.TypedCredentialsIgnored | java/src/org/pidster/tomcat/util/cli/commands/AbstractJMXCommand.java:325-347 | the credentials depend only on which options are bound and what is typed at the prompt |
| JmxCommand.SameAnswers | java/src/org/pidster/tomcat/util/cli/commands/AbstractJMXCommand.java:358 | two configurations binding the same options answer the same value for every option name |
| JmxCommand.DeclaredPidNeverParses | java/src/org/pidster/tomcat/util/cli/commands/AbstractJMXCommand.java:363 | the declared "pid" default is "", so when "pid" decides, `Integer.parseInt("")` throws and no process is looked up |
| JmxCommand.GuessNeedsOne | java/src/org/pidster/tomcat/util/cli/commands/AbstractJMXCommand.java:392-412 | guessing fails naming the count unless exactly one Tomcat runs, and with one reads its connector address without loading an agent |
| JmxCommand.InstalledAgentNotWarned | java/src/org/pidster/tomcat/util/cli/commands/AbstractJMXCommand.java:377-379 | the "already installed" warning tests property values, so a machine that publishes its address under the key is not warned about |
| JmxCommand.PromptedPasswordBracketed | java/src/org/pidster/tomcat/util/cli/commands/AbstractJMXCommand.java:335 | a prompted password is the bracketed, comma-separated list of the tokens typed |
| JmxCommand.CachedConnectorKept | java/src/org/pidster/tomcat/util/cli/commands/AbstractJMXCommand.java:110-127 | with a cached connector nothing is resolved or opened and no password is asked for; only the server queries run again on it |
| JmxCommand.AfterConnect | java/src/org/pidster/tomcat/util/cli/commands/AbstractJMXCommand.java:121-147 | a connector that is not connected fails with a CommandException and logs nothing; a session that completes had both platform bean proxies and logged at least the announcement |
| JmxCommand.Announce | java/src/org/pidster/tomcat/util/cli/commands/AbstractJMXCommand.java:127-147 | once "serverInfo" is read, completing needs both platform bean proxies and logs at least the announcement line |
| JmxCommand.QuietSessionAnnounces | java/src/org/pidster/tomcat/util/cli/commands/AbstractJMXCommand.java:121-147 | without verbose or debug, a session whose least Server bean reads "serverInfo" as a string completes and logs exactly "Connected: <info> [uptime:<formatted uptime>]" and a line break |
| JmxCommand.UnreadableServerInfo | java/src/org/pidster/tomcat/util/cli/commands/AbstractJMXCommand.java:127-134 | an unreadable "serverInfo" is logged as "ERROR: <message>" and the session goes on announcing the server as "null" |
| JmxCommand.NoServerBean | java/src/org/pidster/tomcat/util/cli/commands/AbstractJMXCommand.java:125-127 | with no Server bean `first()` throws a NoSuchElementException that escapes unwrapped, and nothing is logged |
| JmxCommand.OpenStep | java/src/org/pidster/tomcat/util/cli/commands/AbstractJMXCommand.java:110-119 | the block ends normally only with a connected connector cached |
| JmxCommand.Dial | java/src/org/pidster/tomcat/util/cli/commands/AbstractJMXCommand.java:113-118 | making and connecting the connector logs nothing and ends normally only with a connected connector |
| JmxCommand.NoReconnectAfterCleanup | java/src/org/pidster/tomcat/util/cli/commands/AbstractJMXCommand.java:110-179 | once a non-interactive cleanup closed the connector it stays cached and closed, so every later non-interactive configure fails with a CommandException and logs nothing after connecting |
| JmxCommand.InteractiveKeepsConnection | java/src/org/pidster/tomcat/util/cli/commands/AbstractJMXCommand.java:164-179 | in an interactive session cleanup leaves the cache unchanged, completes and logs nothing, whatever configuration the command holds |
| JmxCommand.CleanupNeedsConfig | java/src/org/pidster/tomcat/util/cli/commands/AbstractJMXCommand.java:165-166 | a command cleaned up without a configuration fails on `isDebug()` with a NullPointerException and leaves the connector as it was, unless the session is persistent |
| JmxCommand.CleanupAnnounces | java/src/org/pidster/tomcat/util/cli/commands/AbstractJMXCommand.java:164-179 | a non-persistent cleanup with a configuration completes, closes the cached connector, and logs "Closing connection <id>" exactly when debugging with a connected connector |
| JmxCommand.StickyState | java/src/org/pidster/tomcat/util/cli/commands/AbstractJMXCommand.java:93-179 | across any sequence of configure and cleanup calls the persistent flag is never reset, and a cached connector is never forgotten or replaced: its address and credentials stay |
| JmxCommand.ConnectorCache.constructor | java/src/org/pidster/tomcat/util/cli/commands/AbstractJMXCommand.java:93-95 | the shared fields start with no connector and not persistent |
| JmxCommand.AbstractJmxCommand.constructor | java/src/org/pidster/tomcat/util/cli/commands/AbstractJMXCommand.java:68 | a command shares the connector cache and has no configuration yet |
| JmxCommand.AbstractJmxCommand.LogAll | java/src/org/pidster/tomcat/util/cli/commands/AbstractCommand.java:96-103 | each message is written to the console in order |
| JmxCommand.AbstractJmxCommand.Configure | java/src/org/pidster/tomcat/util/cli/commands/AbstractJMXCommand.java:101-158 | the configuration is stored, and the new cache, the result and the console output are those of `ConfigureStep`: what resolving logged, then the password prompt only when one is asked for, then what the server queries logged; the password line is consumed only when prompted |
| JmxCommand.AbstractJmxCommand.Reach | java/src/org/pidster/tomcat/util/cli/commands/AbstractJMXCommand.java:110-147 | a connector is opened as `OpenStep` says unless one is cached, and the server queries of `AfterConnect` run on it unless opening failed, logging after the prompt |
| JmxCommand.AbstractJmxCommand.Open | java/src/org/pidster/tomcat/util/cli/commands/AbstractJMXCommand.java:110-119 | while no connector is cached, the cache, result and output are those of `OpenStep` |
| JmxCommand.AbstractJmxCommand.Connect | java/src/org/pidster/tomcat/util/cli/commands/AbstractJMXCommand.java:113-118 | the cached connector and the result are those of `Dial` |
| JmxCommand.AbstractJmxCommand.Query | java/src/org/pidster/tomcat/util/cli/commands/AbstractJMXCommand.java:121-147 | the result is that of `AfterConnect` and its messages are logged in order |
| JmxCommand.AbstractJmxCommand.Cleanup | java/src/org/pidster/tomcat/util/cli/commands/AbstractJMXCommand.java:164-179 | the cache, result and console output are those of `CleanupStep`: unchanged when persistent; otherwise a NullPointerException with nothing closed when there is no configuration, else "Closing connection <id>" logged under debug for a connected connector and the connector closed but still cached |
| JmxQuery.InsertPermutes | java/src/org/pidster/tomcat/util/cli/commands/AbstractJMXCommand.java:247 | inserting a name adds exactly that name to the multiset of names |
| JmxQuery.InsertAscending | java/src/org/pidster/tomcat/util/cli/commands/AbstractJMXCommand.java:247 | inserting a name into an ascending list keeps it ascending |
| JmxQuery.SortedAscending | java/src/org/pidster/tomcat/util/cli/commands/AbstractJMXCommand.java:245-249 | the sorted list is ascending and a permutation of the names reported |
| JmxQuery.SameLeast | java/src/org/pidster/tomcat/util/cli/commands/AbstractJMXCommand.java:72-79 | two ascending arrangements of the same names start with the same name |
| JmxQuery.SortedUnique | java/src/org/pidster/tomcat/util/cli/commands/AbstractJMXCommand.java:72-79 | two ascending arrangements of the same names are the same list, so any sort gives the same answer |
| JmxQuery.QueryOrder | java/src/org/pidster/tomcat/util/cli/commands/AbstractJMXCommand.java:237-250 | the answer of `query` is the reported names in ascending order, whatever order the server's set enumerated them in |
| JmxQuery.AttributeQuiet | java/src/org/pidster/tomcat/util/cli/commands/AbstractJMXCommand.java:258-271 | a read answers the server's value without logging, or null after logging "ERROR: " and the failure's message once |
| DiagnosticCommand.NewReport | java/src/org/pidster/tomcat/util/cli/commands/DiagnosticCommand.java:186 | the used swap is total minus free as a 64-bit subtraction: always a `long`, and the exact difference when that fits |
| DiagnosticCommand.Settings | java/src/org/pidster/tomcat/util/cli/commands/DiagnosticCommand.java:113-124 | the sample count is the parsed "samples" value capped at 1000, unset or unparsable values throw NumberFormatException, and a successful plan has a non-zero count and a delay of (duration*1000)/count in 32-bit arithmetic |
| DiagnosticCommand.DelaySharesDuration | java/src/org/pidster/tomcat/util/cli/commands/DiagnosticCommand.java:124 | without overflow the delay is the duration in milliseconds shared out over the samples, rounded toward zero |
| DiagnosticCommand.DeclaredPlan | java/src/org/pidster/tomcat/util/cli/commands/DiagnosticCommand.java:45-48 | with both options set, `getOptionValue` answers the declared defaults, so ten samples are taken over one second, one every 100 ms |
| DiagnosticCommand.UnsetSamplesFail | java/src/org/pidster/tomcat/util/cli/commands/DiagnosticCommand.java:113-119 | an unset "samples" answers null, which throws NumberFormatException for "null" |
| DiagnosticCommand.ZeroSamplesDivide | java/src/org/pidster/tomcat/util/cli/commands/DiagnosticCommand.java:124 | a sample count of zero throws ArithmeticException "/ by zero" |
| DiagnosticCommand.BundleKeys | java/src/org/pidster/tomcat/util/cli/commands/DiagnosticCommand.java:126-133 | every name this command logs under is looked up in the resource bundle with its arguments |
| DiagnosticCommand.BlankLine | java/src/org/pidster/tomcat/util/cli/commands/DiagnosticCommand.java:157 | the empty message is logged as it is |
| DiagnosticCommand.OnePerPass | java/src/org/pidster/tomcat/util/cli/commands/DiagnosticCommand.java:129-155 | each pass adds at most one report, and logs one counter message when verbose and none otherwise |
| DiagnosticCommand.EscapeIsFinal | java/src/org/pidster/tomcat/util/cli/commands/DiagnosticCommand.java:129-155 | once an exception escapes the loop, later passes change nothing |
| DiagnosticCommand.AllCollected | java/src/org/pidster/tomcat/util/cli/commands/DiagnosticCommand.java:129-155 | when every sample is collected and the delay is not negative, the loop adds exactly one report per pass, in counter order, and nothing escapes |
| DiagnosticCommand.NeverEscapes | java/src/org/pidster/tomcat/util/cli/commands/DiagnosticCommand.java:145-152 | with a non-negative delay and only IOExceptions as failures, nothing escapes the loop |
| DiagnosticCommand.AllLogged | java/src/org/pidster/tomcat/util/cli/commands/DiagnosticCommand.java:132-134 | when verbose and every sample is collected, the counters are logged in turn, one per pass |
| DiagnosticCommand.IOFailureSkipped | java/src/org/pidster/tomcat/util/cli/commands/DiagnosticCommand.java:149-154 | an IOException costs its sample and nothing else: the loop goes on with the same reports |
| DiagnosticCommand.LowestIsMinimum | java/src/org/pidster/tomcat/util/cli/commands/DiagnosticCommand.java:263-279 | the minimum is at most the seed and every sample, and is one of them |
| DiagnosticCommand.HighestIsMaximum | java/src/org/pidster/tomcat/util/cli/commands/DiagnosticCommand.java:264-282 | the maximum is at least the seed and every sample, and is one of them |
| DiagnosticCommand.AccumulatedWraps | java/src/org/pidster/tomcat/util/cli/commands/DiagnosticCommand.java:265-284 | the running total is the sum of the samples wrapped once to a `long` |
| DiagnosticCommand.SwapStatistics | java/src/org/pidster/tomcat/util/cli/commands/DiagnosticCommand.java:254-310 | no reports throws IndexOutOfBounds at `reports.get(0)`; otherwise the minimum is at most every sample, the maximum is non-negative and at least every sample, the total is the wrapped sum and the average the total divided by the count, rounded toward zero |
| DiagnosticCommand.AlertThreshold | java/src/org/pidster/tomcat/util/cli/commands/DiagnosticCommand.java:305-308 | an average of 40000 raises the swap alert and one of 32768 does not |
| DiagnosticCommand.Fold | java/src/org/pidster/tomcat/util/cli/commands/DiagnosticCommand.java:263-288 | the for-each loop computes exactly `Lowest` from the first sample, `Highest` from 0 and `Accumulated` |
| DiagnosticCommand.DiagnosticCommand.constructor | java/src/org/pidster/tomcat/util/cli/commands/DiagnosticCommand.java:103-105 | a new command holds no reports |
| DiagnosticCommand.DiagnosticCommand.Sample | java/src/org/pidster/tomcat/util/cli/commands/DiagnosticCommand.java:129-155 | the reports, messages and escaping exception are those of `Sampled` for the number of passes, and all passes run when nothing escapes |
| DiagnosticCommand.DiagnosticCommand.Summarise | java/src/org/pidster/tomcat/util/cli/commands/DiagnosticCommand.java:254-310 | the figures are `SwapStatistics` of every report held and the messages are the report's headings and alert |
| DiagnosticCommand.DiagnosticCommand.Execute | java/src/org/pidster/tomcat/util/cli/commands/DiagnosticCommand.java:111-163 | a failed setting changes nothing; otherwise the reports grow by what the loop sampled, and the run either escapes with the loop's exception or summarises every report held, including earlier runs' |
| DiagnosticCommand.RunsAccumulate | java/src/org/pidster/tomcat/util/cli/commands/DiagnosticCommand.java:98-105 | since reports are never cleared, a second run's minimum is at most the first's and its maximum at least the first's |
| BaseCommand.KeyIsDottedWords | java/src/org/pidster/tomcat/util/cli/commands/AbstractCommand.java:98 | a message of bundle-key shape is the dotted join of its pieces |
| BaseCommand.DottedWordsAreKey | java/src/org/pidster/tomcat/util/cli/commands/AbstractCommand.java:98 | two or more words joined by dots have bundle-key shape, with exactly those words as pieces |
| BaseCommand.ForeignCharIsNoKey | java/src/org/pidster/tomcat/util/cli/commands/AbstractCommand.java:98 | a message holding a character that is neither a word character nor a dot, such as a space, is not a key |
| BaseCommand.EmptySegmentIsNoKey | java/src/org/pidster/tomcat/util/cli/commands/AbstractCommand.java:98 | a message with an empty segment (two dots in a row, or a leading or trailing dot) is not a key |
| BaseCommand.WordIsNoKey | java/src/org/pidster/tomcat/util/cli/commands/AbstractCommand.java:98 | a single word is not a key |
| BaseCommand.LogMessage | java/src/org/pidster/tomcat/util/cli/commands/AbstractCommand.java:107-113 | a message of key shape is looked up in the bundle with its arguments; any other is printed as it is |
| BaseCommand.PlainMessageDropsArguments | java/src/org/pidster/tomcat/util/cli/commands/AbstractCommand.java:107-113 | a message that is not a key prints the same line with or without arguments, placeholders and all |
| BaseCommand.OptionSet | java/src/org/pidster/tomcat/util/cli/commands/AbstractCommand.java:118-127 | a command never configured throws a NullPointerException; otherwise an option is set exactly when some bound option carries that name |
| BaseCommand.SetByTokens | java/src/org/pidster/tomcat/util/cli/commands/AbstractCommand.java:118-120 | after binding from a line's tokens, a name is set exactly when a declared option of that name is selected by some token |
| BaseCommand.ShortVerboseFlag | java/src/org/pidster/tomcat/util/cli/commands/AbstractCommand.java:31 | "-V" among the option tokens turns verbose on for a command that declares or inherits the verbose switch |
| BaseCommand.AbstractCommand.constructor | java/src/org/pidster/tomcat/util/cli/commands/AbstractCommand.java:44-47 | a new command has no configuration |
| BaseCommand.AbstractCommand.Configure | java/src/org/pidster/tomcat/util/cli/commands/AbstractCommand.java:57-67 | the configuration is stored and the default hook completes |
| BaseCommand.AbstractCommand.Cleanup | java/src/org/pidster/tomcat/util/cli/commands/AbstractCommand.java:75-77 | cleanup completes and changes nothing |
| BaseCommand.AbstractCommand.IsVerbose | java/src/org/pidster/tomcat/util/cli/commands/AbstractCommand.java:118-120 | throws exactly when never configured, else whether an option named "verbose" is bound |
| BaseCommand.AbstractCommand.IsDebug | java/src/org/pidster/tomcat/util/cli/commands/AbstractCommand.java:125-127 | throws exactly when never configured, else whether an option named "debug" is bound |
| BaseCommand.AbstractCommand.Log | java/src/org/pidster/tomcat/util/cli/commands/AbstractCommand.java:96-113 | a null message or a command never configured throws a NullPointerException and prints nothing; otherwise exactly the line of `LogMessage` is appended |
| DateTime.Decompose | java/src/org/pidster/tomcat/util/cli/util/DateTime.java:40-47 | the five parts add back up to the uptime; for a non-negative uptime hours, minutes, seconds and milliseconds are within their units, and for a non-positive one every part is non-positive |
| DateTime.TruncDivSplit | java/src/org/pidster/tomcat/util/cli/util/DateTime.java:40-45 | truncating division of a non-negative value by a positive unit leaves a remainder below the unit |
| DateTime.FormatUptime | java/src/org/pidster/tomcat/util/cli/util/DateTime.java:38-73 | a null uptime fails with a NullPointerException, and only a null one |
| DateTime.EmptyIffNotPositive | java/src/org/pidster/tomcat/util/cli/util/DateTime.java:51-72 | the text is empty exactly when the uptime is not positive |
| DateTime.OneSecond | java/src/org/pidster/tomcat/util/cli/util/DateTime.java:63-70 | 1000 ms formats as "1s " with its trailing space |
| DateTime.OneOfEach | java/src/org/pidster/tomcat/util/cli/util/DateTime.java:51-72 | one of each unit formats as "1d 1h 1m 1s 1ms" |
| DateTime.DivUnique | java/src/org/pidster/tomcat/util/cli/util/DateTime.java:40-47 | division by a positive unit has one quotient and remainder |
| DateTime.DecomposeUnique | java/src/org/pidster/tomcat/util/cli/util/DateTime.java:40-47 | the parts are the unique mixed-radix digits of a non-negative uptime |
| IO.Path | java/src/org/pidster/tomcat/util/cli/util/IO.java:50-63 | an absolute path is every part preceded by the separator; a relative one the parts joined by it |
| IO.RelativePath | java/src/org/pidster/tomcat/util/cli/util/IO.java:42-44 | the relative form is the parts joined by the separator |
| IO.JoinWithSnoc | java/src/org/pidster/tomcat/util/cli/util/IO.java:55-59 | one more relative part comes after one more separator |
| IO.PrefixedSnoc | java/src/org/pidster/tomcat/util/cli/util/IO.java:55-59 | one more absolute part comes after its own separator |
| IO.AbsoluteIsRooted | java/src/org/pidster/tomcat/util/cli/util/IO.java:50-63 | an absolute path is the relative one with the separator in front, and both are empty for no parts |
| IO.PathLength | java/src/org/pidster/tomcat/util/cli/util/IO.java:50-63 | a path's length is the parts' lengths plus one separator per gap, or per part when absolute |
| IO.ThreeParts | java/src/org/pidster/tomcat/util/cli/util/IO.java:50-63 | conf, Catalina and localhost give "conf/Catalina/localhost" and "/conf/Catalina/localhost" |
| JarFilter.Accept | java/src/org/pidster/tomcat/util/cli/Console.java:42-55 | an accepted name ends in ".jar" |
| JarFilter.AcceptedShapes | java/src/org/pidster/tomcat/util/cli/Console.java:42-55 | "catalina.jar", "catalina-W.jar", "tomcat-W.jar" and "W-api.jar" are accepted for every word W |
| JarFilter.AcceptedOnlyShapes | java/src/org/pidster/tomcat/util/cli/Console.java:42-55 | every accepted name has one of those four shapes |
| JarFilter.RejectsHyphenatedWord | java/src/org/pidster/tomcat/util/cli/Console.java:49 | "tomcat-a-b.jar" is rejected, since a hyphen is no word character |
| JarFilter.RejectsEmptyWord | java/src/org/pidster/tomcat/util/cli/Console.java:46 | "catalina-.jar" is rejected |
| JarFilter.ApiWildcardNeedsDot | java/src/org/pidster/tomcat/util/cli/Console.java:43-52 | "servlet-apiXjar" matches the api pattern but is rejected by the ".jar" test |
| JarFilter.RejectsOtherJars | java/src/org/pidster/tomcat/util/cli/Console.java:42-55 | "commons-logging.jar" is rejected |
| ApacheOptions.Unprefixed | java/src/org/apache/tomcat/util/cli/CommandLine.java:78-84 | "--" is stripped first; otherwise a single "-" is stripped on a command line and kept by the environment; other text is unchanged |
| ApacheOptions.EntryFails | java/src/org/apache/tomcat/util/cli/CommandLine.java:86-89 | storing an option fails exactly when its first ':' is followed by nothing but ':' characters, with an ArrayIndexOutOfBoundsException |
| ApacheOptions.EntryShape | java/src/org/apache/tomcat/util/cli/CommandLine.java:86-92 | without ':' the option is a switch stored as "true"; with one, the key is the text before the first ':' and the value the text up to the next ':' or the end, the rest dropped |
| ApacheOptions.EntryOfPair | java/src/org/apache/tomcat/util/cli/CommandLine.java:86-88 | "key:value" stores key and value, whatever follows a further ':' |
| ApacheOptions.TrailingColonThrows | java/src/org/apache/tomcat/util/cli/CommandLine.java:87-88 | "name:" cannot be stored: index 1 (index 0 for ":" alone) does not exist |
| ApacheOptions.DashesStripped | java/src/org/apache/tomcat/util/cli/Environment.java:89-91 | a command line strips "-" and "--" alike; the environment keeps a single dash |
| ApacheOptions.SwitchStored | java/src/org/apache/tomcat/util/cli/Environment.java:87-99 | a dashed switch without ':' is stored as its name and "true", with the environment keeping a single leading dash in the name |
| ApacheOptions.SwitchesStored | java/src/org/apache/tomcat/util/cli/CommandLine.java:76-93 | on a command line "-name" and "--name" store the same thing |
| ApacheOptions.PairStored | java/src/org/apache/tomcat/util/cli/CommandLine.java:76-93 | a dashed "name:value" token stores value under name on a command line |
| ApacheOptions.StoredOne | java/src/org/apache/tomcat/util/cli/CommandLine.java:76-93 | one `setOption` stores its pair or lets the token's failure escape, storing nothing |
| ApacheOptions.StoredFails | java/src/org/apache/tomcat/util/cli/CommandLine.java:76-93 | setting several options stops at the first token that cannot be split, and fails exactly then |
| ApacheOptions.LastWriteWins | java/src/org/apache/tomcat/util/cli/CommandLine.java:88-91 | a key is present after several `setOption` calls exactly when it was before or some token stored it, with the value of the last token that did |
| ApacheOptions.StoredAppend | java/src/org/apache/tomcat/util/cli/CommandLine.java:76-93 | setting the options of a + b is setting a's then b's from that map; a failure in a is final |
| ApacheOptions.SetTwice | java/src/org/apache/tomcat/util/cli/CommandLine.java:88-91 | setting the same option twice in a row is the same as setting it once |
| ApacheCommandLine.CommandLine.constructor | java/src/org/apache/tomcat/util/cli/CommandLine.java:40-44 | the prompt "> ", no options and no arguments |
| ApacheCommandLine.CommandLine.SetPrompt | java/src/org/apache/tomcat/util/cli/CommandLine.java:57-64 | a null or empty prompt selects "> ", any other becomes the prompt |
| ApacheCommandLine.CommandLine.SetOption | java/src/org/apache/tomcat/util/cli/CommandLine.java:76-93 | succeeds exactly when the stripped option can be split; a failure stores nothing, a success stores exactly what `Stored` says |
| ApacheCommandLine.CommandLine.GetOption | java/src/org/apache/tomcat/util/cli/CommandLine.java:99-109 | non-null exactly for a stored option, and then its stored value |
| ApacheCommandLine.CommandLine.IsOptionSet | java/src/org/apache/tomcat/util/cli/CommandLine.java:99-101 | true exactly when `getOption` answers a value |
| ApacheCommandLine.CommandLine.IsVerbose | java/src/org/apache/tomcat/util/cli/CommandLine.java:69-71 | true exactly when a "verbose" option is stored, whatever its value, "false" included |
| ApacheCommandLine.CommandLine.AddArgument | java/src/org/apache/tomcat/util/cli/CommandLine.java:114-116 | the argument is appended, nothing else changes |
| ApacheCommandLine.CommandLine.CommandName | java/src/org/apache/tomcat/util/cli/CommandLine.java:121-135 | the first argument, and an IndexOutOfBoundsException exactly when the line has no command |
| ApacheCommandLine.CommandLine.HasCommand | java/src/org/apache/tomcat/util/cli/CommandLine.java:128-135 | true exactly when `getCommandName` answers without throwing |
| ApacheEnvironment.Console.constructor | java/src/org/apache/tomcat/util/cli/Environment.java:41 | the console holds the lines still to be read and has printed nothing |
| ApacheEnvironment.Environment.constructor | java/src/org/apache/tomcat/util/cli/Environment.java:39-44 | the prompt "> ", no options, and the shared console |
| ApacheEnvironment.Environment.ReadPrompt | java/src/org/apache/tomcat/util/cli/Environment.java:49-59 | the prompt is printed; at the end of input a NullPointerException; otherwise one line is consumed and returned collapsed and split at spaces, an empty line giving no tokens |
| ApacheEnvironment.Environment.Sysout | java/src/org/apache/tomcat/util/cli/Environment.java:73-75 | the text is formatted even without arguments; a bad format escapes and prints nothing, otherwise exactly the formatted text is printed |
| ApacheEnvironment.Environment.SysoutThrowable | java/src/org/apache/tomcat/util/cli/Environment.java:80-82 | the throwable's stack trace is appended to the output |
| ApacheEnvironment.Environment.SetOption | java/src/org/apache/tomcat/util/cli/Environment.java:87-100 | as on a command line, but only "--" is stripped: succeeds exactly when the option can be split, stores nothing on failure |
| ApacheEnvironment.Environment.GetOption | java/src/org/apache/tomcat/util/cli/Environment.java:106-116 | non-null exactly for a stored option, and then its stored value |
| ApacheEnvironment.Environment.IsOptionSet | java/src/org/apache/tomcat/util/cli/Environment.java:106-108 | true exactly when `getOption` answers a value |
| ApacheEnvironment.Environment.SetPrompt | java/src/org/apache/tomcat/util/cli/Environment.java:129-136 | a null or empty prompt selects "> ", any other becomes the prompt |
| ApacheCommandRegistry.Claim | java/src/org/apache/tomcat/util/cli/CommandRegistry.java:45-57 | a command with a descriptor claims its name when that name is free; otherwise nothing changes |
| ApacheCommandRegistry.RegisterFirst | java/src/org/apache/tomcat/util/cli/CommandRegistry.java:45-57 | the public registration changes the name map as `Claim` says |
| ApacheCommandRegistry.PutCoherent | java/src/org/apache/tomcat/util/cli/CommandRegistry.java:63-74 | both registrations keep the command map and the option map in step |
| ApacheCommandRegistry.EarlierWins | java/src/org/apache/tomcat/util/cli/CommandRegistry.java:53-54 | a name registered before stays bound to the same command |
| ApacheCommandRegistry.FirstNamedWins | java/src/org/apache/tomcat/util/cli/CommandRegistry.java:45-57 | a fresh name ends up bound to the first command whose descriptor carries it |
| ApacheCommandRegistry.NoneNamed | java/src/org/apache/tomcat/util/cli/CommandRegistry.java:47-49 | a fresh name that no descriptor carries stays unbound |
| ApacheCommandRegistry.ClaimedAreNamed | java/src/org/apache/tomcat/util/cli/CommandRegistry.java:45-57 | every newly bound command is one of those registered and carries its own name |
| ApacheCommandRegistry.AscendingNames | java/src/org/apache/tomcat/util/cli/CommandRegistry.java:38 | the keys of a sorted map in iteration order: ascending by `compareTo`, each once, exactly the key set |
| ApacheCommandRegistry.CommandRegistry.constructor | java/src/org/apache/tomcat/util/cli/CommandRegistry.java:37-40 | both maps start empty |
| ApacheCommandRegistry.CommandRegistry.Register | java/src/org/apache/tomcat/util/cli/CommandRegistry.java:45-57 | the new state is `RegisterFirst` of the old one |
| ApacheCommandRegistry.CommandRegistry.RegisterAs | java/src/org/apache/tomcat/util/cli/CommandRegistry.java:63-74 | the new state is `PutAs` of the old one: both entries for the name overwritten, ignored without a descriptor |
| ApacheCommandRegistry.CommandRegistry.IsRegistered | java/src/org/apache/tomcat/util/cli/CommandRegistry.java:80-85 | false for null, otherwise whether the name is registered |
| ApacheCommandRegistry.CommandRegistry.HasOption | java/src/org/apache/tomcat/util/cli/CommandRegistry.java:91-113 | true exactly for a non-empty name with options and a non-empty option one of whose options has its first character as trigger or its whole text, ignoring case, as extended name |
| ApacheCommandRegistry.CommandRegistry.Listing | java/src/org/apache/tomcat/util/cli/CommandRegistry.java:118-120 | `commands()` lists every registered command once, in ascending order of its name |
| ApacheCommandRegistry.CommandRegistry.Get | java/src/org/apache/tomcat/util/cli/CommandRegistry.java:126-128 | the command registered under the name, or null exactly when none is |
| ApacheCommandParser.TokenCalls | java/src/org/apache/tomcat/util/cli/CommandParser.java:45-54 | a token causes at most two `setOption` calls, all with itself, and none exactly when it does not start with '-' |
| ApacheCommandParser.CallsStep | java/src/org/apache/tomcat/util/cli/CommandParser.java:45-54 | one more token of the line adds its calls, and its argument when it is one |
| ApacheCommandParser.DoubledHarmless | java/src/org/apache/tomcat/util/cli/CommandParser.java:46-51 | setting each "--" token twice stores the same options as setting each option token once |
| ApacheCommandParser.SingleDashKey | java/src/org/apache/tomcat/util/cli/CommandParser.java:49-50 | a single-dash token keeps its dash, so any key it stores starts with '-' |
| ApacheCommandParser.PlainKeysNeedTwoDashes | java/src/org/apache/tomcat/util/cli/CommandParser.java:45-54 | a key without a leading dash, such as "interactive", is only ever stored by a "--" token |
| ApacheCommandParser.TrailingSwitch | java/src/org/apache/tomcat/util/cli/CommandParser.java:45-54 | a line ending in "--name" stores "true" under name, so the flag holds |
| ApacheCommandParser.CommandParser.Create | java/src/org/apache/tomcat/util/cli/CommandParser.java:38-60 | a token that cannot be split throws out of the constructor; otherwise the environment holds exactly the options of the line's `setOption` calls, and the command name is the first argument or null |
| ApacheCommandParser.CommandParser.SetToken | java/src/org/apache/tomcat/util/cli/CommandParser.java:46-51 | the two tests for one token store exactly what its calls store, or let the failure escape |
| ApacheCommandParser.CommandParser.IsInteractive | java/src/org/apache/tomcat/util/cli/CommandParser.java:65-72 | true exactly when "interactive" is set and `parseBoolean` accepts its value, that is the value is "true" in some letter case |
| ApacheCommandParser.CommandParser.IsVerbose | java/src/org/apache/tomcat/util/cli/CommandParser.java:77-84 | true exactly when "verbose" is set and `parseBoolean` accepts its value, that is the value is "true" in some letter case |
| ApacheCommandParser.CommandParser.IsExit | java/src/org/apache/tomcat/util/cli/CommandParser.java:89-97 | true exactly when the command name is non-null and folds to "exit" or to "quit" |
| ApacheCommandParser.CommandParser.HasCommand | java/src/org/apache/tomcat/util/cli/CommandParser.java:102-104 | true exactly when the command name is not null, and a line without a command is never an exit |
| ApacheCommandParser.CommandParser.FoundCommand | java/src/org/apache/tomcat/util/cli/CommandParser.java:109-111 | true exactly for a non-null command name that is registered, and only for a line with a command |
| ApacheCommandParser.CommandParser.GetCommand | java/src/org/apache/tomcat/util/cli/CommandParser.java:116-120 | the registered command, and null exactly when none is found |
| ApacheCommandParser.Escapes | java/src/org/apache/tomcat/util/cli/CommandParser.java:45-55 | a failure after the first i tokens' calls makes the whole line fail with it |
| ApacheCommandProcessor.EmptyValueFails | java/src/org/apache/tomcat/util/cli/CommandLine.java:86-88 | a line holding an option "name:" with nothing after the colon cannot be parsed |
| ApacheCommandProcessor.CommandProcessor.constructor | java/src/org/apache/tomcat/util/cli/CommandProcessor.java:44-49 | the registry given, an empty history, no command name, count 0 and not interactive |
| ApacheCommandProcessor.CommandProcessor.ParseArguments | java/src/org/apache/tomcat/util/cli/CommandProcessor.java:55-92 | interactive turns on when "--interactive" was among the tokens; a token that cannot be split throws, leaving history and command name unchanged; otherwise a fresh line with the stored options and the positional tokens is appended to the history and the command name is its first argument or null |
| ApacheCommandProcessor.CommandProcessor.FillLine | java/src/org/apache/tomcat/util/cli/CommandProcessor.java:71-80 | the line's options are those of every '-' token stored in order, and its arguments all other tokens, or the first failure escapes |
| ApacheCommandProcessor.CommandProcessor.Absorb | java/src/org/apache/tomcat/util/cli/CommandProcessor.java:73-80 | one iteration of the token loop: on success the line holds the options and arguments of the tokens up to and including this one; a failure here is the failure of the whole line |
| ApacheCommandProcessor.CommandProcessor.AddToken | java/src/org/apache/tomcat/util/cli/CommandProcessor.java:74-79 | an option token is stored with `setOption`, any other token appended to the arguments |
| ApacheCommandProcessor.CommandProcessor.IsExit | java/src/org/apache/tomcat/util/cli/CommandProcessor.java:97-105 | true exactly when the last command name is non-null and folds to "exit" or to "quit" |
| ApacheCommandProcessor.CommandProcessor.First | java/src/org/apache/tomcat/util/cli/CommandProcessor.java:110-113 | the 64-bit counter is incremented with wrap-around; the answer is whether it is now at most one, which short of overflow means this was the first call |
| ApacheCommandProcessor.CommandProcessor.IsInteractive | java/src/org/apache/tomcat/util/cli/CommandProcessor.java:118-120 | the sticky flag that `parseArguments` raises on "--interactive" and never lowers |
| ApacheCommandProcessor.CommandProcessor.FoundCommand | java/src/org/apache/tomcat/util/cli/CommandProcessor.java:125-131 | true exactly for a non-null command name that is registered |
| ApacheCommandProcessor.TokenStep | java/src/org/apache/tomcat/util/cli/CommandProcessor.java:73-80 | one more token of the line extends the option tokens or the arguments by itself |
| ApacheCommandProcessor.LineEscapes | java/src/org/apache/tomcat/util/cli/CommandProcessor.java:73-80 | once the first i tokens fail with an exception, the whole line fails with that same exception (the loop stops at the first failure) |
| ApacheTerminal.DiscoverNames | java/src/org/apache/tomcat/util/cli/Terminal.java:93-111 | "help" is always bound to the help command; any other name is bound to the first discovered command whose descriptor carries it, and unbound when none does |
| ApacheTerminal.FirstNamer | java/src/org/apache/tomcat/util/cli/Terminal.java:99-107 | a name some discovered command carries has a first command carrying it, the one the registry keeps |
| ApacheTerminal.UsageFormatted | java/src/org/apache/tomcat/util/cli/Terminal.java:140 | "Usage: " holds no conversion, so formatting it prints it unchanged and never throws |
| ApacheTerminal.InitialisingFormatted | java/src/org/apache/tomcat/util/cli/Terminal.java:147-148 | the initialising announcement prints the command name in place of its one "%s" |
| ApacheTerminal.ExecutingFormatted | java/src/org/apache/tomcat/util/cli/Terminal.java:153 | the executing announcement prints the command name in place of its one "%s" |
| ApacheTerminal.NotFoundFormatted | java/src/org/apache/tomcat/util/cli/Terminal.java:163 | the not-found message prints the command name in place of its one "%s" |
| ApacheTerminal.Between | java/src/org/apache/tomcat/util/cli/Terminal.java:147-163 | a format made of conversion-free text around one "%s" prints that text around the argument |
| ApacheTerminal.Found | java/src/org/apache/tomcat/util/cli/Terminal.java:142-161 | the block for a found command never breaks out of the loop and always starts by calling `init` on that command |
| ApacheTerminal.BodyShape | java/src/org/apache/tomcat/util/cli/Terminal.java:133-164 | an exit line does nothing; only the found command is called, `init` before `execute` and `execute` only once `init` returned; a throw from `init` is the only one that leaves the body, one from `execute` is caught and printed |
| ApacheTerminal.Session | java/src/org/apache/tomcat/util/cli/Terminal.java:129-170 | every session makes at least one pass and never gives back console lines it has read |
| ApacheTerminal.Prompt | java/src/org/apache/tomcat/util/cli/Terminal.java:166-169 | reading the next line consumes console input and never adds to it |
| ApacheTerminal.Resume | java/src/org/apache/tomcat/util/cli/Terminal.java:168 | parsing the line read and going on consumes console input and never adds to it |
| ApacheTerminal.RunsOnce | java/src/org/apache/tomcat/util/cli/Terminal.java:122-131 | a first line that is not interactive makes exactly one pass, reads nothing from the console and prints just what that pass prints, whatever the commands do |
| ApacheTerminal.ExitFirst | java/src/org/apache/tomcat/util/cli/Terminal.java:133-135 | an exit or quit line ends the loop before anything is printed or called |
| ApacheTerminal.OnlyExitEndsQuietly | java/src/org/apache/tomcat/util/cli/Terminal.java:129-170 | in interactive mode, unless an exit line is on the console the session ends with an escaping throwable, at the latest when the console runs out |
| ApacheTerminal.PromptThrows | java/src/org/apache/tomcat/util/cli/Terminal.java:166-169 | the same, from the reading of the next interactive line |
| ApacheTerminal.ResumeThrows | java/src/org/apache/tomcat/util/cli/Terminal.java:168 | the same, from the parsing of a line read |
| ApacheTerminal.BodyCalls | java/src/org/apache/tomcat/util/cli/Terminal.java:142-161 | the calls made by one pass go to registered commands, each `execute` right after the `init` of the same command |
| ApacheTerminal.CallsInOrder | java/src/org/apache/tomcat/util/cli/Terminal.java:129-170 | across the whole session every call goes to a registered command and every `execute` comes right after the `init` of the same command |
| ApacheTerminal.PromptCalls | java/src/org/apache/tomcat/util/cli/Terminal.java:166-169 | the same for the session after a prompt |
| ApacheTerminal.ResumeCalls | java/src/org/apache/tomcat/util/cli/Terminal.java:168 | the same for the session after a line is parsed |
| ApacheTerminal.CallsJoin | java/src/org/apache/tomcat/util/cli/Terminal.java:129-170 | the calls of one pass followed by those of the rest of the run keep both properties |
| ApacheTerminal.Terminal.constructor | java/src/org/apache/tomcat/util/cli/Terminal.java:93-111 | the registry is the discovered commands, first name wins, with "help" put over any other |
| ApacheTerminal.Terminal.Process | java/src/org/apache/tomcat/util/cli/Terminal.java:116-171 | what `process` calls, prints and throws, and the console lines it leaves, are the run of the arguments on the console's lines |
| ApacheTerminal.Terminal.Loop | java/src/org/apache/tomcat/util/cli/Terminal.java:127-170 | the `while (index == 0 \|\| interactive)` loop does exactly the session from the first parser's line |
| ApacheTerminal.Terminal.Step | java/src/org/apache/tomcat/util/cli/Terminal.java:131-169 | one pass: an exit line stops with nothing done; otherwise the pass's output is printed and the run either goes on from the next parser or is over |
| ApacheTerminal.Terminal.Pass | java/src/org/apache/tomcat/util/cli/Terminal.java:137-169 | the body after the exit test, then in interactive mode the next parser; the session from that parser is the rest of this one |
| ApacheTerminal.Terminal.Reprompt | java/src/org/apache/tomcat/util/cli/Terminal.java:166-169 | the prompt is printed; then the reading or the parsing throws, or the new parser starts the rest of the session |
| ApacheTerminal.Terminal.Dispatch | java/src/org/apache/tomcat/util/cli/Terminal.java:137-164 | prints and calls exactly what the body does for the parser's line |
| ApacheTerminal.Terminal.RunFound | java/src/org/apache/tomcat/util/cli/Terminal.java:144-160 | `init`, announced when verbose, then `execute`, announced when verbose, with a throwable from `execute` caught and printed |
| ApacheTerminal.Terminal.AnnounceInitialising | java/src/org/apache/tomcat/util/cli/Terminal.java:146-148 | prints the initialising announcement for the command name |
| ApacheTerminal.Terminal.AnnounceExecuting | java/src/org/apache/tomcat/util/cli/Terminal.java:152-153 | prints the executing announcement for the command name |
| ApacheTerminal.Terminal.ReadNext | java/src/org/apache/tomcat/util/cli/Terminal.java:168 | prints the prompt; an empty console throws, otherwise the next line is consumed and parsed against the registry |
| JavaLang.IndexOf | java/src/org/apache/tomcat/util/cli/CommandLine.java:86 | `indexOf(':')` is -1 exactly when the character is absent, and otherwise the position of its first occurrence |
| JavaLang.JoinPieces | java/src/org/apache/tomcat/util/cli/CommandLine.java:87 | cutting a string at every separator loses nothing: joining the pieces with the separator gives it back |
| JavaLang.PiecesOfJoin | java/src/org/apache/tomcat/util/cli/CommandLine.java:87 | pieces free of the separator come back unchanged from cutting their join |
| JavaLang.DropTrailingEmptyShape | java/src/org/apache/tomcat/util/cli/Environment.java:58 | `split` drops exactly a run of empty strings at the end, keeping a prefix that does not end with one |
| JavaLang.CollapseShape | java/src/org/apache/tomcat/util/cli/CommandProcessor.java:58 | after `replaceAll("[\\s ]+", " ")` the only whitespace left is single spaces, and the result starts with a space exactly when the input starts with whitespace |
| JavaLang.IgnoreCaseFolded | java/src/org/apache/tomcat/util/cli/CommandParser.java:65-71 | against an already lower-case text such as "true", `equalsIgnoreCase` holds exactly when the other text folds to it |
| JavaLang.NotAfterTotal | java/src/org/pidster/tomcat/util/cli/commands/AbstractJMXCommand.java:74-79 | any two names are ordered one way or the other by `compareTo` |
| JavaLang.NotAfterAntisymmetric | java/src/org/pidster/tomcat/util/cli/commands/AbstractJMXCommand.java:74-79 | names ordered both ways are equal |
| JavaLang.NotAfterTransitive | java/src/org/pidster/tomcat/util/cli/commands/AbstractJMXCommand.java:74-79 | the `compareTo` order is transitive, so the sorted set the comparator builds is well defined |
| JavaLang.Wrap32 | java/src/org/pidster/tomcat/util/cli/commands/DiagnosticCommand.java:154 | an `int` increment stays in 32-bit range and is exact whenever the true value fits |
| JavaLang.Wrap64 | java/src/org/apache/tomcat/util/cli/CommandProcessor.java:111 | a `long` increment stays in 64-bit range and is exact whenever the true value fits |
| JavaLang.TruncDiv | java/src/org/pidster/tomcat/util/cli/commands/DiagnosticCommand.java:124 | Java's `/`: the magnitude is the quotient of the magnitudes and the sign follows the operands' signs, rounding toward zero |
| JavaLang.ParseInt | java/src/org/pidster/tomcat/util/cli/commands/DiagnosticCommand.java:119 | `Integer.parseInt` yields only 32-bit values and throws NumberFormatException on null |

## Left out

- Remote management calls are not modelled as code. This covers the JMX connector factory and connect, the server's queries, attribute reads and invocations, the MXBean proxies, the connector-address lookup, and the VM attach, list and agent loading. They appear only as oracle answers (`Jvm`, `Remote`, `Server` and the diagnostic `collect`), so their own behaviour is not modelled.
- Console and standard-output I/O is reduced to a finite sequence of input lines and a record of what was printed. `System.console()` being null is not modelled; the end of input is where `readLine` answers null.
- The debug `println` calls, `printStackTrace`, the `System.out` progress dots of the diagnostic command and `Thread.sleep` print or wait only; a printed stack trace is recorded as the throwable itself.
- Bootstrap and class loading are not modelled: `Console.main`, `createClassLoader`, `ConsoleUI`, and both `Terminal.main`, `modifyClassLoader` and `adjustClassLoader`. `ServiceLoader` discovery is the sequence of commands passed to the constructor or `register`.
- Reflection (`getAnnotation`, `isAnnotationPresent`, `getSuperclass`) is replaced by explicit class descriptors with a parent index, a `@Descriptor` name and an `@Options` table (`CommandClasses`).
- The report-rendering commands are not modelled: StatusCommand, AbstractStatusCommand, MemoryCommand, ThreadsCommand, DumpJMXCommand, QueryJMXCommand, EnvCommand, MonitorCommand, DumpCommand, DumpStateCommand, TestJMXCommand, StopHost and both HelpCommands. They only format text over remote reads, with date formats and floating point. The status report that the webapp commands print afterwards is an oracle step.
- What a command's `configure`, `execute`, `cleanup` or `init` does is abstract: it is the `Behaviour` the caller supplies for that command and pass.
- DiagnosticCommand's `double` load-average statistics and alert are left out, and so are its `DecimalFormat` helpers (`format`, `formatMegs`, `perc`) and the MXBean reads inside `collect`. `Thread.sleep` is modelled only by the `IllegalArgumentException` it throws for a negative delay. An `InterruptedException`, which the loop catches before the counter moves on, does not arise in the model.
- The `volatile static` connector and `finalize()` of `commands.AbstractJMXCommand` are concurrency and garbage-collection artefacts; the connector cache is modelled as sequential state.
- The apache `Terminal`'s use of `Env` and `processor.getEnvironment` (`Terminal.java` lines 118-120 and 167) is left out because those names do not exist in that revision. In particular, the extra console read at line 167 is not modelled. Likewise ConsoleUIImpl's four-argument `CommandConfigImpl` and WebappCommand's `SortedSet` result of `query` are modelled as the behaviour each file describes.
- `CommandParserImpl`, which `ConsoleUIImpl` names, is not part of this model; `ConsoleUIImpl` is modelled over `CommandProcessorImpl`, which offers the same four calls.
- The older `Terminal`'s own registry and environment classes are not part of this model; it is modelled with the `impl` registry and environment.
- Resource-bundle contents are not modelled: a bundle message is its key and arguments.
- A `HashMap`'s iteration order is not modelled as Java computes it. It is an explicit order of the bound options, chosen by the caller, and every lookup that depends on it is proved for any such order.
- `ObjectName.compareTo` is modelled as the order of canonical name strings.
- The message of a `CommandException` built from a throwable is approximated by the throwable's message.
- The message of a `ClassCastException` is null, and the message of an `ArrayIndexOutOfBoundsException` is the index.
- A `TreeMap` lookup of a null key, which throws `NullPointerException`, cannot arise in the model because keys are never null.
- The interfaces `CommandRegistry`, `CommandConfig` and `Environment`, the annotations, `models/*`, `JMXCommand`, both `ACommand` and the older `cli/AbstractCommand` hold only fields or signatures.
- The `__UNUSED` directory and `jmx/Test.java` are dead or demonstration code.
- The "secure" option of the JMX commands is tested in `connectorProperties`, but the branch it selects is empty, so it has no effect to model.
- ApacheTerminal.Session: a session whose console never runs out of lines is not modelled, because the console is a finite sequence and every interactive pass reads one line.
- ApacheEnvironment.Environment.ReadPrompt: the prompt is printed as given, whereas `Console.readLine(prompt)` treats it as a format string; the two agree for the default prompt "> ", which is the only one the terminal loop uses.
- JavaLang.EqualsIgnoreCase: case folding covers the ASCII letters only, whereas `String.equalsIgnoreCase` also folds other Unicode letters; `Lower` and `ParseBoolean` share this limit.
- JavaLang.ParseInt: only the ASCII digits 0-9 are accepted, whereas `Integer.parseInt` also accepts other Unicode decimal digits.
- ImplCommandProcessor.CommandProcessorImpl.IsExit: "exit" and "quit" are matched with ASCII-only case folding, as `JavaLang.EqualsIgnoreCase` is.
- LegacyCommandProcessor.CommandProcessor.IsExit: "exit" and "quit" are matched with ASCII-only case folding, as `JavaLang.EqualsIgnoreCase` is.
- ApacheCommandParser.CommandParser.IsExit: "exit" and "quit" are matched with ASCII-only case folding, as `JavaLang.EqualsIgnoreCase` is.
- ApacheCommandProcessor.CommandProcessor.IsExit: "exit" and "quit" are matched with ASCII-only case folding, as `JavaLang.EqualsIgnoreCase` is.
- ApacheCommandParser.CommandParser.IsInteractive and ApacheCommandParser.CommandParser.IsVerbose: `parseBoolean` is matched with ASCII-only case folding, as `JavaLang.EqualsIgnoreCase` is.
- JavaLang.Folded: folds ASCII letters only, as `Lower` does.
- ApacheCommandRegistry.CommandRegistry.HasOption: the option name is matched with ASCII-only case folding, as `JavaLang.EqualsIgnoreCase` is.
- ImplEnvironment.EnvironmentImpl.ReadPromptWith: the prompt is printed as given, whereas `Console.readLine(prompt)` treats it as a format string; the two agree for prompts without `%`, such as "> " and the JMX password prompts.
- ImplEnvironment.EnvironmentImpl.ReadPrompt: prints the current prompt as given, for the same reason as `ReadPromptWith`.
- DiagnosticCommand.DiagnosticCommand.Summarise: the messages leave out the per-report row, the min, max, avg and var rows and the two blank lines of `report()`, and its load alert, because those rows are `DecimalFormat` output over `double` load averages; only the two headings and the swap alert are kept.
- DiagnosticCommand.DiagnosticCommand.Execute: its messages leave out the same `report()` lines as `Summarise`.
- JmxCommand.AfterConnect: the remote reads for the verbose "System" line's arguments are taken not to fail, since those arguments are dropped from the printed message. The runtime bean's uptime, VM name, vendor and version are the proxy's answers and do not fail either; only making each proxy can fail.
- The pidster `@Option` annotation's defaults for omitted elements are taken to be "" for `value()` and `extended()` and false for `setter()` and `required()`, as `CommandClasses` declares them. That annotation's own source is not part of this model.
- IO.Path: the parts are non-null strings, whereas Java would append "null" for a null part.
- The stack traces that `e.printStackTrace()` writes to standard error are not recorded: those in `commands.AbstractJMXCommand.cleanup` and `quietException` and the one in `IO.close`.
