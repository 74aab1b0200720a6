# Cadence, modelled in Dafny

Cadence is a supervisor for PHP scripts and CLI commands. It runs a child
once per cycle and logs what the child printed. After each run it checks
four stop conditions: a stop signal, the memory limit, the runtime limit and
the cycle limit. When none holds, it sleeps for the configured interval, one
second at a time, and a SIGTERM or SIGINT during the sleep wakes it early.
The settings come from three layers: built-in defaults, the CAD_* variables
of a `.env` file, and the command line.

This project models the core of that program:

- `ticker.dfy` (module `Supervisor`): the supervisor loop, class `Ticker`.
  The outside world is an `Environment` of functions indexed by cycle
  number. It covers the child process, `memory_get_usage()`, `time()`, the
  resource-usage line and the arrival of signals. The command line given to
  the child is modelled too, with a proof that a POSIX shell reads the
  quoted script path back as the original text.
- `logger.dfy` (module `Log`): the level filter, class `Logger` over a sink
  that records the entries it receives, and the heuristics that turn a
  child's stdout and stderr into leveled entries.
- `config.dfy` (module `Settings`): the configuration record and its
  constructor with defaults, the three-layer merge, the memory-size parser
  and the validator.
- `env_loader.dfy` (module `EnvConfig`): finding the `.env` file, the
  CAD_* variable table and the cast of each value to its key's type.
- `argument_parser.dfy` (module `CliArgs`): the option table, the
  left-to-right command-line parser (class `ArgumentParser`), and the
  conversion of its result into the configuration array.
- Supporting modules:
  - `php_text.dfy` (`PhpText`): the PHP string built-ins the core relies on (`trim`, `explode`, `implode`, `strtoupper`, `ucwords`, `lcfirst`, `str_replace`, the `(int)` cast, integer rendering).
  - `php_value.dfy` (`PhpValue`): PHP's dynamic values in option arrays, with `??` and `array_filter`.
  - `wrappers.dfy` (`Wrappers`): `Option`.
  - `seq_facts.dfy` (`SeqFacts`): two sequence facts.

A `Logger` keeps, besides its sink (`trace`), a ghost log `submitted` of
every entry handed to `log()`, written or not. Its invariant `Valid()`
says that the sink holds exactly the submitted entries the level filter
lets through (`Visible`). Every `Logger` method keeps `Valid()` and states
which entries it submitted, in order.

Each of `Ticker`'s methods is proved against specification functions
(`TickPart`, `StopReasonOf`, `SleepSignal`, `PassEnds`, `Passes`,
`RunEntries`). Its postcondition states the new counter, the new stop flag
and exactly which entries it submitted to the logger. `Ticker.Run` also
states the sink itself: the visible part of `RunEntries` is appended to it.
The loop body of `run()` is the method `Ticker.Pass` (one tick, one stop
check, one sleep). The `while` loop is the method `Ticker.Loop`.
`Ticker.Run` is `BeforeProcessStart`, then `Loop`, then `AfterProcessEnd`.
Nothing else about the loop changes.

Three facts about the code that the model follows:

- The maximum runtime is never null. A missing or null `maxRuntime` falls back to 3600 because the constructor tests it with `isset()`.
- A memory limit always applies.
- Stack-trace lines on stderr are kept only while an error block is open.

## Model

| member | source | states |
|---|---|---|
| Supervisor.EscapeShellArg | src/App/Ticker.php:88-92 | `escapeshellarg()` in its POSIX form: the text in single quotes, each `'` written as `'\''`; EscapeShellArgReadsBack proves that a shell reads it back as the original text |
| Supervisor.EscapeShellArgReadsBack | src/App/Ticker.php:88-92 | a POSIX shell reads the single-quoted form of any text back as one word equal to that text |
| Supervisor.QuotedBodyReadsBack | src/App/Ticker.php:88-92 | after the opening quote, the body with every `'` turned into `'\''`, followed by the closing quote, reads back as the original text |
| Supervisor.Command | src/App/Ticker.php:88-92 | a CLI command is run verbatim; otherwise the command is `php ` followed by one shell word that reads back as the script path |
| Supervisor.SpawnFailureLogged | src/App/Ticker.php:70-82 | a failed spawn yields the cycle line, the error "Failed to execute script process", the usage line and a warning for exit code 1, in that order |
| Supervisor.ExitCodeWarned | src/App/Ticker.php:70-82 | a tick's entries start with "Cycle #n"; the last one is the exit-code warning exactly when the code is non-zero |
| Supervisor.IsMemoryExceeded | src/App/Ticker.php:147-153 | memory use at or above the parsed limit, which always applies; StopReasonOf ranks it second, after the stop flag |
| Supervisor.IsRuntimeExceeded | src/App/Ticker.php:155-166 | elapsed time at or above a configured runtime limit; StopReasonOf ranks it third |
| Supervisor.IsCyclesExceeded | src/App/Ticker.php:168-177 | the cycle count at or above a configured cycle limit; StopReasonOf ranks it last, and CycleLimitEndsAtN shows that pass N is the first to meet it |
| Supervisor.StopReasonOf | src/App/Ticker.php:122-177 | the stop reason is the first that holds, in the order stop flag, memory, runtime, cycles; there is none exactly when memory, elapsed time and cycle count are all below their limits and the flag is down |
| Supervisor.FirstSignalIsFirst | src/App/Ticker.php:179-189 | no signal arrives before the first one found, and none is found exactly when no second brings one |
| Supervisor.FirstSignalStays | src/App/Ticker.php:179-189 | the first signal within `i` seconds stays the first for any longer bound |
| Supervisor.SleepBounds | src/App/Ticker.php:179-189 | sleep waits at most `interval` seconds; it ends after the second that brings a signal, exactly when some second brings one, and otherwise waits the full interval |
| Supervisor.ContinueStep | src/App/Ticker.php:33-41 | a pass that does not end the loop keeps it below the pass known to end it |
| Supervisor.ChildResultNeverStops | src/App/Ticker.php:33-41 | neither a failed spawn nor a non-zero exit changes whether the loop ends or the stop flag after a pass |
| Supervisor.CycleLimitEndsAtN | src/App/Ticker.php:168-177 | with `maxCycles = N` and no signal, memory or runtime stop, pass N ends the loop for the cycle limit and no earlier pass does |
| Supervisor.RunTicksExactlyLimit | src/App/Ticker.php:29-46 | a run from zero that satisfies Run's postcondition under `maxCycles = N`, with nothing else interfering, ticks exactly N times |
| Supervisor.CycleLimitTerminates | src/App/Ticker.php:168-177 | with a cycle limit, some later pass always ends the loop |
| Supervisor.Ticker.constructor | src/App/Ticker.php:16-27 | the counter is 0 and the flag down; a given logger is used, otherwise a fresh one with the configured level and file, an empty sink and an empty log; either way the logger is valid |
| Supervisor.Ticker.Stop | src/App/Ticker.php:215-218 | the stop flag is raised and the cycle count is unchanged |
| Supervisor.Ticker.GetCycles | src/App/Ticker.php:220-223 | returns the number of ticks so far |
| Supervisor.Ticker.GetElapsedTime | src/App/Ticker.php:225-228 | the elapsed time is the current time minus the start time |
| Supervisor.Ticker.HandleSignal | src/App/Ticker.php:199-207 | submits "Received SIGTERM" or "Received SIGINT" to the logger, then raises the flag |
| Supervisor.Ticker.ExecuteScript | src/App/Ticker.php:84-120 | returns the child's exit code, or 1 for a failed spawn; submits the spawn error or the child's output entries |
| Supervisor.Ticker.Tick | src/App/Ticker.php:70-82 | the counter goes up by one; submits the cycle line, the child's entries, the usage line and a warning for a non-zero exit; a tick signal raises the flag |
| Supervisor.Ticker.ShouldStop | src/App/Ticker.php:122-145 | answers whether a stop reason holds and submits the line of the first reason that does, and nothing when none holds |
| Supervisor.Ticker.Sleep | src/App/Ticker.php:179-189 | with the flag up, nothing happens; otherwise it makes the waits SleepWaits counts, and the flag and the submitted entries reflect the signal that cut it short, if any |
| Supervisor.Ticker.BeforeProcessStart | src/App/Ticker.php:48-60 | submits the two start lines with the script and the interval |
| Supervisor.Ticker.AfterProcessEnd | src/App/Ticker.php:62-68 | submits "Cadence stopped after n cycles" with the current count |
| Supervisor.Ticker.Pass | src/App/Ticker.php:33-41 | one loop turn: the counter goes up by one; the turn ends the loop exactly when PassEnds holds; the flag and the submitted entries are the pass's specification |
| Supervisor.Ticker.Loop | src/App/Ticker.php:33-41 | with the flag up, nothing happens; otherwise every pass before the last lets the loop go on and the last one ends it; the logger gets every pass's entries in order |
| Supervisor.Ticker.Run | src/App/Ticker.php:29-46 | returns 0; every pass before the last lets the loop go on and the last one ends it; the logger gets the start lines, every pass's entries in order, and the stopped line, and the sink grows by the visible part of them |
| Supervisor.PassOutcome | src/App/Ticker.php:33-41 | the loop ends after a pass exactly when shouldStop() answered yes or the flag went up, and that flag is the one after the pass |
| Log.ValidLevels | src/App/Logger.php:125-134 | five level names in increasing priority, exactly the ranked ones |
| Log.ShouldLog | src/App/Logger.php:86-96 | the level filter; QuietLogsNothing, LevelFilterFollowsListOrder and UnknownLevelCountsAsInfo state what it lets through |
| Log.QuietLogsNothing | src/App/Logger.php:86-90 | at level quiet no message is emitted |
| Log.LevelFilterFollowsListOrder | src/App/Logger.php:86-96 | between valid levels, a message passes exactly when its level is not ranked below the configured one, unless quiet |
| Log.UnknownLevelCountsAsInfo | src/App/Logger.php:92-95 | an unranked level name behaves as info, as message level and as configured level |
| Log.VisibleIsFilter | src/App/Logger.php:75-84 | the sink receives exactly the entries whose level passes the filter |
| Log.VisibleAppend | src/App/Logger.php:75-84 | filtering a concatenation concatenates the filtered parts |
| Log.IsStackTrace | src/App/Logger.php:211-214 | the pattern `^\s*(Stack trace:\|#\d+\|thrown in)`, read left to right; FatalErrorWithStackTrace and DroppedLineIsIrrelevant use it to decide which lines join an error block |
| Log.StartsWithAnyIff | src/App/Logger.php:165-170 | an anchored alternation matches exactly when the line starts with one of the alternatives |
| Log.BlockIsLastMarker | src/App/Logger.php:160-174 | the open block is decided by the last marker line alone: error, warning, or none before the first marker |
| Log.StdErrBucketsNeedMarkers | src/App/Logger.php:160-174 | error lines are collected exactly when an error marker appears, and warning lines exactly when a warning marker appears |
| Log.StdErrKeptLines | src/App/Logger.php:160-174 | every collected line is the non-empty trimmed text of an input line of the right kind |
| Log.StdErrWarningLinesInOrder | src/App/Logger.php:160-174 | the warning bucket holds the trimmed text of every warning, notice or deprecation marker line, each once, in input order |
| Log.StdErrErrorLinesInOrder | src/App/Logger.php:160-174 | the error bucket holds the trimmed text of every fatal or parse error line, and of every stack-trace line whose last preceding marker is an error marker, each once, in input order |
| Log.DroppedLineIsIrrelevant | src/App/Logger.php:160-174 | a blank line, an unmatched line, or a stack-trace line outside an error block can be deleted without changing what is collected |
| Log.FoldDependsOnStateOnly | src/App/Logger.php:160-174 | the loop remembers only its state: equal states stay equal on equal input |
| Log.StdErrEntries | src/App/Logger.php:153-183 | what logStdErr() writes for the lines of stderr; StdErrEntryIffMarker, BlockEntriesLevels and FatalErrorWithStackTrace state which entries these are |
| Log.StdErrEntryIffMarker | src/App/Logger.php:153-183 | stderr yields an error entry exactly when a line is a fatal or parse error marker, and a warning entry exactly when a line is a warning, notice or deprecation marker |
| Log.BlockEntriesLevels | src/App/Logger.php:176-182 | at most an error entry followed by a warning entry, each present exactly when its bucket is non-empty |
| Log.FatalErrorWithStackTrace | src/App/Logger.php:153-183 | a fatal error followed by stack-trace lines gives exactly one error entry with every line trimmed and joined by " \| " |
| Log.DebugLinesKept | src/App/Logger.php:185-209 | every kept stdout line is the trimmed text of an input line that passed the filter, and some line is kept exactly when one passes |
| Log.DebugLinesAppend | src/App/Logger.php:185-209 | the stdout filter maps a concatenation of lines to the concatenation of the results |
| Log.DebugText | src/App/Logger.php:185-209 | what extractDebugOutput() returns; DebugLinesKept, DebugLinesAppend, DebugTextIffSurvivor and PlainLinesAroundDeprecation state which lines it keeps and in what order |
| Log.DebugTextIffSurvivor | src/App/Logger.php:185-209 | the debug text is non-empty exactly when some stdout line survives the filter |
| Log.PlainLinesAroundDeprecation | src/App/Logger.php:185-209 | two plain lines around a "Deprecated:" line give the two lines trimmed and joined by one space |
| Log.StdErrPartLevels | src/App/Logger.php:136-151 | stderr contributes at most two entries, none of them debug, and nothing when empty |
| Log.StdOutPartIffSurvivor | src/App/Logger.php:136-151 | stdout contributes one debug entry and nothing else, exactly when it is non-empty and one of its lines survives |
| Log.OutputEntries | src/App/Logger.php:136-151 | what logOutput() writes, stderr's entries first; StdErrPartLevels, StdOutPartIffSurvivor and OutputEntriesByStream state their levels and when each is present |
| Log.OutputEntriesByStream | src/App/Logger.php:136-151 | stdout decides the debug entry and stderr the error and warning entries; one run yields at most three |
| Log.CollectStdErr | src/App/Logger.php:155-174 | the stderr loop collects exactly the lines the specification fold collects |
| Log.SinkGrows | src/App/Logger.php:75-84 | for a valid logger, submitting more entries appends exactly their visible part to the sink |
| Log.Logger.constructor | src/App/Logger.php:30-40 | the level defaults to info and the file to none; the logger keeps its level and file; its sink and its log start empty, and it is valid |
| Log.Logger.Log | src/App/Logger.php:75-84 | the entry is added to the log, and it reaches the sink exactly when the filter lets it through; the logger stays valid |
| Log.Logger.Debug | src/App/Logger.php:55-58 | submits a debug entry; the logger stays valid |
| Log.Logger.Info | src/App/Logger.php:60-63 | submits an info entry; the logger stays valid |
| Log.Logger.Warning | src/App/Logger.php:65-68 | submits a warning entry; the logger stays valid |
| Log.Logger.Error | src/App/Logger.php:70-73 | submits an error entry; the logger stays valid |
| Log.Logger.LogOutput | src/App/Logger.php:136-151 | submits stderr's entries, then stdout's; the logger stays valid |
| Log.Logger.LogStdErr | src/App/Logger.php:153-183 | submits the error entry, then the warning entry, for the lines of stderr |
| Log.Logger.ReportStdErr | src/App/Logger.php:176-182 | submits one entry per non-empty bucket, error first |
| Log.Logger.ExtractDebugOutput | src/App/Logger.php:185-209 | returns the surviving stdout lines, trimmed and joined by single spaces |
| Settings.OptStr | src/Config/Config.php:31-39 | an optional string read from the array is present exactly when the key is set |
| Settings.FromOptions | src/Config/Config.php:29-40 | the maximum runtime is never null and is 3600 when not set; the maximum cycle count is null exactly when not set; the script is empty when not set |
| Settings.ConstructorDefaults | src/Config/Config.php:19-40 | an empty array gives the documented defaults |
| Settings.Merged | src/Config/Config.php:42-52 | the array fromMerged() hands to the constructor; MergedPrecedence states which layer each key comes from |
| Settings.MergedPrecedence | src/Config/Config.php:42-52 | each key comes from the last layer that sets it to a non-null value (defaults, caller defaults, environment, command line); a null never overrides |
| Settings.MergedWellTyped | src/Config/Config.php:42-52 | merging well-typed layers gives a well-typed array |
| Settings.FromMerged | src/Config/Config.php:42-52 | the merged configuration always has a maximum runtime |
| Settings.FromMergedInterval | src/Config/Config.php:42-52 | the interval comes from the command line, else the environment, else the caller's defaults, else 60 |
| Settings.FromMergedFields | src/Config/Config.php:29-52 | every field of fromMerged()'s configuration comes from the last layer that sets its key (command line, environment, the caller's defaults, DEFAULTS), cast as the constructor casts it |
| Settings.FromOptionsFields | src/Config/Config.php:29-40 | every field of the constructed configuration is its key's `??` value with the constructor's fallback, cast to the field's type |
| Settings.CoalesceMerged | src/Config/Config.php:42-52 | `??` on the merged array equals the lookup through the four layers, last layer first |
| Settings.ParseMemory | src/Config/Config.php:139-157 | parseMemoryString(); ParseMemoryOfBytes, ParseMemoryOfSize, DefaultMaxMemoryBytes and ParseMemoryIgnoresPadding state the bytes it gives |
| Settings.ParseMemoryOfBytes | src/Config/Config.php:139-157 | a bare integer is that many bytes |
| Settings.ParseMemoryOfSize | src/Config/Config.php:139-157 | an integer followed by G, M or K, in either case, is scaled by 1024³, 1024² or 1024 |
| Settings.MaxMemoryBytes | src/Config/Config.php:74-77 | getMaxMemoryBytes(): the configured size through parseMemoryString(); DefaultMaxMemoryBytes gives 134217728 for the default, and IsMemoryExceeded compares against it |
| Settings.DefaultMaxMemoryBytes | src/Config/Config.php:74-77 | the default `128M` is 134217728 bytes |
| Settings.ParseMemoryIgnoresPadding | src/Config/Config.php:139-157 | surrounding whitespace does not change the parsed size |
| Settings.Validate | src/Config/Config.php:104-132 | returns the messages of the failed checks, in check order |
| Settings.ValidationErrors | src/Config/Config.php:104-132 | the list validate() returns; ValidationErrorsIff and ValidationErrorsOrdered state which messages appear and in what order |
| Settings.ValidationErrorsIff | src/Config/Config.php:104-132 | each message is present exactly when its check fails: empty script, missing file outside CLI mode, interval below 1, runtime or cycle limit below 1, unknown level |
| Settings.ValidationErrorsOrdered | src/Config/Config.php:104-132 | the messages are sorted by check, at most one per check |
| Settings.IsValid | src/Config/Config.php:134-137 | isValid(); IsValidIff states that it holds exactly when no check fails |
| Settings.IsValidIff | src/Config/Config.php:134-137 | valid exactly when every check passes |
| Settings.CliCommandSkipsFileCheck | src/Config/Config.php:108-112 | in CLI mode the script text is never looked up as a file |
| Settings.ValidLevelsAreLoggerLevels | src/Config/Config.php:126-129 | validation accepts exactly the levels the logger ranks |
| Settings.LevelInvalidText | src/Config/Config.php:126-129 | the level message lists the accepted names, joined by ", " |
| EnvConfig.CastEnvValue | src/Config/EnvLoader.php:79-89 | an empty value is null, the integer keys get integers, and string keys keep the text |
| EnvConfig.CastRendersBack | src/Config/EnvLoader.php:85-88 | a decimal number under an integer key reads back as that number |
| EnvConfig.MapToConfig | src/Config/EnvLoader.php:62-77 | the loop builds exactly the mapped configuration |
| EnvConfig.MappedKeys | src/Config/EnvLoader.php:69-75 | only the table's configuration keys appear |
| EnvConfig.MappedAt | src/Config/EnvLoader.php:69-75 | a table entry lands under its key exactly when its variable is set, cast by that key |
| EnvConfig.MappedReadsOnlySources | src/Config/EnvLoader.php:69-75 | variables outside the table do not matter |
| EnvConfig.EnvMapTargetsDistinct | src/Config/EnvLoader.php:11-19 | the seven target keys are distinct and are the seven named |
| EnvConfig.EnvToConfig | src/Config/EnvLoader.php:62-77 | mapToConfig(); EnvToConfigAt, EnvToConfigKeys, EmptyEnvGivesNothing and EnvToConfigReadsOnlyCadVariables state what it produces |
| EnvConfig.EnvToConfigAt | src/Config/EnvLoader.php:62-77 | a configuration key is set exactly when its CAD_* variable is set, with the cast value |
| EnvConfig.EnvToConfigKeys | src/Config/EnvLoader.php:62-77 | no key outside the seven configuration names is produced |
| EnvConfig.EmptyEnvGivesNothing | src/Config/EnvLoader.php:65-67 | an empty environment contributes nothing |
| EnvConfig.EnvToConfigReadsOnlyCadVariables | src/Config/EnvLoader.php:62-77 | two environments that agree on the CAD_* variables give the same configuration |
| EnvConfig.EnvToConfigWellTyped | src/Config/EnvLoader.php:62-89 | the environment's configuration can be handed to the Config constructor |
| EnvConfig.FindEnvFile | src/Config/EnvLoader.php:32-42 | a file is found only if it exists, and never without a script |
| EnvConfig.ParseEnvFile | src/Config/EnvLoader.php:44-60 | parse(): nothing when the Dotenv parser throws, otherwise mapToConfig() of the values it read; UnreadableFileLoadsNothing and LoadWellTyped state what load() then returns |
| EnvConfig.Load | src/Config/EnvLoader.php:21-30 | load(); ExplicitPathWins, NoPathLoadsNothing, MissingFileLoadsNothing, LoadBesideScript and LoadWellTyped state which file is read and what comes back |
| EnvConfig.ExplicitPathWins | src/Config/EnvLoader.php:21-30 | an explicit path is used as given and the script's directory is not consulted |
| EnvConfig.NoPathLoadsNothing | src/Config/EnvLoader.php:23-27 | without a path and without a script nothing is loaded |
| EnvConfig.MissingFileLoadsNothing | src/Config/EnvLoader.php:23-27 | a path that does not exist loads nothing |
| EnvConfig.UnreadableFileLoadsNothing | src/Config/EnvLoader.php:52-57 | an existing file that the Dotenv parser rejects loads nothing |
| EnvConfig.LoadBesideScript | src/Config/EnvLoader.php:32-42 | without an explicit path, the `.env` beside the resolved script is read when it exists |
| EnvConfig.LoadWellTyped | src/Config/EnvLoader.php:21-60 | whatever is loaded can be handed to the Config constructor |
| CliArgs.LongNamesUnique | src/Console/CommandList.php:20-96 | the long option names are distinct |
| CliArgs.LongIndex | src/Console/ArgumentParser.php:51-58 | a found entry carries the long name looked up |
| CliArgs.LongIndexNoneIff | src/Console/ArgumentParser.php:56-58 | a long name is unknown exactly when no entry carries it |
| CliArgs.ShortIndexIsFirst | src/Console/ArgumentParser.php:86-91 | the short-name search finds the first entry with that name |
| CliArgs.ShortIndexNoneIff | src/Console/ArgumentParser.php:93-96 | the search fails exactly when no entry carries the short name |
| CliArgs.EqualsFormIsUnknown | src/Console/ArgumentParser.php:51-58 | `--name=value` is never a known option |
| CliArgs.ToCamelCase | src/Console/ArgumentParser.php:122-125 | toCamelCase(); KebabToCamel states the result for kebab words and CamelKeysOfTable the key of every table name |
| CliArgs.KebabToCamel | src/Console/ArgumentParser.php:122-125 | toCamelCase keeps the first lower-case word, capitalises every later one and drops the hyphens |
| CliArgs.CamelKeysOfTable | src/Console/ArgumentParser.php:77 | every option is stored under its listed camelCase key |
| CliArgs.CastValue | src/Console/ArgumentParser.php:113-120 | castValue(); CastValueFits and CastValueOfNumber state the stored type and value |
| CliArgs.CastValueFits | src/Console/ArgumentParser.php:113-120 | the stored value has the type the table declares; strings are kept as given |
| CliArgs.CastValueOfNumber | src/Console/ArgumentParser.php:113-120 | an integer option given in decimal is stored as that integer |
| CliArgs.LongOption | src/Console/ArgumentParser.php:51-78 | consumes at most one further element and only adds errors |
| CliArgs.ShortOption | src/Console/ArgumentParser.php:80-111 | consumes at most one further element and only adds errors |
| CliArgs.Step | src/Console/ArgumentParser.php:35-46 | one turn of parse()'s loop; LongStep, ShortStep and ScriptArgument state which branch an element takes |
| CliArgs.ParseFrom | src/Console/ArgumentParser.php:35-46 | the loop over the remaining elements; ParseFromCons, ErrorsOnlyGrow and ParseKeepsTyped state how it proceeds and what it keeps |
| CliArgs.ParseArgv | src/Console/ArgumentParser.php:31-49 | parse() on a whole argv; ParsedConfigWellTyped states that its configuration array is well typed |
| CliArgs.ParseFromCons | src/Console/ArgumentParser.php:35-46 | the parser handles the first remaining element, then the rest |
| CliArgs.LongStep | src/Console/ArgumentParser.php:35-46 | an element starting with `--` is handled as a long option |
| CliArgs.ShortStep | src/Console/ArgumentParser.php:35-46 | an element starting with one `-` and a name is handled as a short option |
| CliArgs.UnknownLongOption | src/Console/ArgumentParser.php:56-58 | an unknown `--name` adds "Unknown option: --name" and consumes nothing else |
| CliArgs.UnknownShortOption | src/Console/ArgumentParser.php:93-96 | an unknown `-x` adds "Unknown option: -x" and consumes nothing else |
| CliArgs.ErrorsOnlyGrow | src/Console/ArgumentParser.php:31-49 | errors are only ever appended |
| CliArgs.UnknownLongOptionReported | src/Console/ArgumentParser.php:187-190 | after an unknown option the final error list holds its message |
| CliArgs.KnownLongOption | src/Console/ArgumentParser.php:51-78 | a boolean option is switched on; a valued option takes the next element unless it is missing or starts with `-`, in which case "requires a value" is reported |
| CliArgs.KnownShortOption | src/Console/ArgumentParser.php:80-111 | the same with the short name in the message |
| CliArgs.LooksLikePhpScript | src/Console/ArgumentParser.php:127-130 | a `.php` suffix or an existing file; ScriptArgument states that it decides isCliCommand |
| CliArgs.ScriptArgument | src/Console/ArgumentParser.php:42-45 | any other element, a lone `-` included, names the script; it is a CLI command unless it ends in `.php` or is a file |
| CliArgs.ParseKeepsTyped | src/Console/ArgumentParser.php:31-49 | parsing stores only table options, each with its declared type |
| CliArgs.IsQuiet | src/Console/ArgumentParser.php:177-180 | isQuiet(): `$options['quiet'] ?? false`; ConfigArrayOption states that it makes logLevel quiet |
| CliArgs.ConfigArray | src/Console/ArgumentParser.php:192-222 | toConfigArray(); ConfigArrayScript, ConfigArrayOption, ConfigArrayKeys and ConfigArrayWellTyped state its contents |
| CliArgs.ConfigArrayScript | src/Console/ArgumentParser.php:196-199 | `script` and `isCliCommand` are present exactly when a script was given |
| CliArgs.ConfigArrayOption | src/Console/ArgumentParser.php:201-219 | a mapped option is copied exactly when set; quiet overrides the log level |
| CliArgs.ConfigArrayKeys | src/Console/ArgumentParser.php:192-222 | only the script entries and the six mapped options reach the configuration |
| CliArgs.ConfigArrayWellTyped | src/Console/ArgumentParser.php:192-222 | the configuration array can be handed to the Config constructor |
| CliArgs.ParsedConfigWellTyped | src/Console/ArgumentParser.php:31-49 | for every command line, the parsed configuration is well typed |
| CliArgs.ArgumentParser.HasErrors | src/Console/ArgumentParser.php:187-190 | hasErrors(); UnknownLongOptionReported states that an unknown option makes it hold |
| CliArgs.ArgumentParser.constructor | src/Console/ArgumentParser.php:15-19 | the parser starts with no script, no options and no errors |
| CliArgs.ArgumentParser.Parse | src/Console/ArgumentParser.php:31-49 | the array shift drops the program name and the loop consumes the rest as the specification does |
| CliArgs.ArgumentParser.ParseArgument | src/Console/ArgumentParser.php:35-46 | one loop turn, as Step specifies |
| CliArgs.ArgumentParser.ParseLongOption | src/Console/ArgumentParser.php:51-78 | the state and the remaining elements after `--name` |
| CliArgs.ArgumentParser.ParseShortOption | src/Console/ArgumentParser.php:80-111 | the state and the remaining elements after `-s` |
| CliArgs.ArgumentParser.ToConfigArray | src/Console/ArgumentParser.php:192-222 | the loop builds exactly the configuration array |
| CliArgs.FindShortOption | src/Console/ArgumentParser.php:86-91 | the search loop returns the first entry with that short name |
| PhpValue.IsSet | src/Config/Config.php:35-36 | `isset()`: present and not null; Coalesce, OptStr and MergedPrecedence are stated through it |
| PhpValue.ToInt | src/Config/Config.php:33-36 | the `(int)` cast; a string goes through IntCast, and CastValueOfNumber and CastRendersBack state that a rendered integer casts back to itself |
| PhpValue.ToStr | src/Config/Config.php:34 | the `(string)` cast; FromOptionsFields and FromMergedFields state each string field through it |
| PhpValue.ToBool | src/Config/Config.php:32 | the `(bool)` cast, with '', '0', 0, false and null false; FromOptionsFields states isCliCommand through it |
| PhpValue.Coalesce | src/Config/Config.php:31-39 | `??` gives the stored value when set, otherwise the default |
| PhpValue.WithoutNulls | src/Config/Config.php:44-49 | keeps exactly the non-null entries |
| PhpText.Trim | src/App/Logger.php:161 | `trim()` with PHP's default characters; TrimEnds, TrimIdempotent and BlankIffAllTrimChars state its result |
| PhpText.Split | src/App/Logger.php:155 | `explode()` on one character; JoinSplit and SplitJoin relate it to Join |
| PhpText.Join | src/App/Logger.php:177 | `implode()`; JoinSplit, SplitJoin and JoinEmptyIff state its result |
| PhpText.ToUpper | src/Config/Config.php:141 | `strtoupper()`; ToUpperChars states it character by character |
| PhpText.StartsWith | src/Console/ArgumentParser.php:38-40 | `str_starts_with()`, also at ArgumentParser.php:68 and :103; StartsWithIff states it as "the prefix followed by some rest" |
| PhpText.EndsWith | src/Config/Config.php:144-152 | `str_ends_with()`, also at ArgumentParser.php:129; EndsWithIff states it as "some text followed by the suffix" |
| PhpText.StartsWithIff | src/Console/ArgumentParser.php:38-40 | a string starts with a prefix exactly when it is that prefix followed by some rest |
| PhpText.EndsWithIff | src/Config/Config.php:144-152 | a string ends with a suffix exactly when it is some text followed by that suffix |
| PhpText.IntToString | src/App/Ticker.php:73 | how PHP renders an int in a string: the cycle line here and the lines at Ticker.php:58, :66 and :80, and the `(string)` cast at Config.php:34; IntToStringChars states its characters and IntCastOfIntToString that `(int)` reads it back |
| PhpText.IntToStringChars | src/App/Ticker.php:73 | a rendered int is decimal digits after at most a leading minus sign, and ends in a digit |
| PhpText.IntCast | src/Config/Config.php:142 | the `(int)` cast of a string; IntCastOfIntToString states that it reads a rendered integer back |
| PhpText.ReplaceChar | src/Console/ArgumentParser.php:124 | `str_replace()` of one character by another; leaves no character replaced, and ReplaceCharAppend and ReplaceCharAbsent, used by KebabToCamel, state how it acts on pieces |
| PhpText.RemoveChar | src/Console/ArgumentParser.php:124 | `str_replace()` of one character by ''; leaves none of it, and RemoveCharAppend and RemoveCharAbsent state how it acts on pieces |
| PhpText.UpperWords | src/Console/ArgumentParser.php:124 | `ucwords()` with the default delimiters; UpperWordsOfWord and UpperWordsAfterAppend, used by KebabToCamel, state the result |
| PhpText.LowerFirst | src/Console/ArgumentParser.php:124 | `lcfirst()`: the first character lower-cased, the rest unchanged |
| PhpText.TrimEnds | src/App/Logger.php:161 | trim leaves no trim character at either end |
| PhpText.TrimIdempotent | src/App/Logger.php:161 | trimming twice is trimming once |
| PhpText.BlankIffAllTrimChars | src/App/Logger.php:161 | a line is blank exactly when it consists of trim characters only |
| PhpText.JoinSplit | src/App/Logger.php:155 | joining the pieces of explode with the separator gives the text back |
| PhpText.SplitJoin | src/App/Logger.php:155 | explode undoes implode of separator-free pieces |
| PhpText.JoinEmptyIff | src/App/Logger.php:208 | implode of non-empty pieces is empty exactly when there are none |
| PhpText.ToUpperChars | src/Config/Config.php:141 | strtoupper upper-cases each character in place |
| PhpText.IntCastOfIntToString | src/Config/Config.php:142 | the `(int)` cast reads a rendered integer back |

## Left out

- `Application.php` (the console front end, help, version and config output) is not part of this model, and neither are the examples and environment-variable listings of `CommandList`.
- The plain getters are not modelled, because a Dafny datatype or class exposes those fields directly. These are `Config`'s field getters (`getScript` through `getLogTimezone`, except `getMaxMemoryBytes`) and `toArray()`; the parser's `getScript`, `isCliCommand`, `getOptions`, `getOption`, `hasOption`, `wantsHelp`, `wantsVersion`, `wantsConfigs`, `isVerbose`, `getErrors` and `getEnvPath`; and the logger's `getLevel` and `getLogFile`. `getMaxMemoryBytes`, `isQuiet` and `hasErrors` compute something and are modelled.
- Logger timestamps, the time zone (`parseLogTimezone`) and the choice between a log file and a stream are not modelled. The sink is the sequence of entries it received.
- Settings.FromOptions: only well-typed arrays are modelled. Under strict types, a non-string value for a string property would raise a TypeError.
- PhpText.IntCast: PHP's 64-bit integers are unbounded here, so overflow and the saturation of `(int)` at PHP_INT_MAX are not modelled. Float and exponent notations are not read.
- Settings.ParseMemory: the multiplication is unbounded. In PHP a large size such as `9000000000G` overflows to a float, and returning it from `parseMemoryString(): int` raises a TypeError under strict types. The model returns the exact product.
- EnvConfig.Load: parameters stand in for the Dotenv parser, `realpath()`, `dirname()` and `file_exists()`.
- Signal handlers are not modelled (`registerSignalHandlers`, `pcntl_async_signals(true)`, `pcntl_signal`). Signals come from the `Environment`.
- Supervisor.Ticker.Tick: a signal during a tick is treated as arriving at the end of the tick.
- Supervisor.Ticker.Tick: `resourceUsages()` is an opaque usage line from the `Environment`.
- Supervisor.Ticker.Tick: at most one signal per tick, and one per one-second wait, is represented, because the `Environment` delivers an optional signal at each of those points. The handlers at Ticker.php:197-207 log one "Received …" line per delivery. So a repeated signal (Ctrl-C pressed twice during a long child run, or SIGTERM followed by SIGINT) would log a second line, and the model does not produce it.
- Supervisor.EscapeShellArg: only the POSIX form of `escapeshellarg()` is modelled. The Windows form and the error on a NUL byte are left out.
- Supervisor.Ticker.Run: only runs that stop are modelled. The precondition asks for a later pass that ends the loop, which always exists under a cycle limit (CycleLimitTerminates). An endless run has no final state to describe.
- Supervisor.Ticker.Run: signals are observed only at the end of a tick and during a one-second wait. A signal during the start lines, or between the stop check and the sleep, is not represented. So a run that a SIGTERM ends before its first tick cannot be produced: for such a run the model promises at least one tick.
- Supervisor.Ticker.Run: the loop body is the method `Ticker.Pass` and the loop is the method `Ticker.Loop`. They keep the order tick, stop check, sleep, and the order of entries in the sink.
- Log.Logger: the ghost field `submitted` has no counterpart in the code. It records what was handed to `log()`, so that the sink can be stated through `Valid()`.
- Supervisor.Ticker.Sleep: the call `sleep(1)` is not modelled. Only the number of one-second waits is counted, in the ghost field `slept`.
- CliArgs.OptionTable: the ordered dictionary keyed by long name is the table itself. The long names are distinct (LongNamesUnique), so looking up by name finds the same entry.
