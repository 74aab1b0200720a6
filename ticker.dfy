/**
 * Ticker.php: the supervisor loop. Every cycle runs the child script once,
 * logs what it printed, then checks the stop conditions (stop signal, memory,
 * runtime, cycle count, in that order) and, when none holds, sleeps for the
 * configured interval one second at a time, waking early on a signal.
 *
 * The outside world (the child process, memory_get_usage(), time(), the
 * resource-usage text and the arrival of SIGTERM/SIGINT) is an Environment
 * of functions indexed by cycle number.
 */
module Supervisor {
  import opened Wrappers
  import opened SeqFacts
  import opened PhpText
  import opened Settings
  import opened Log

  // ---------------------------------------------------------------------------
  // The command line of the child
  // ---------------------------------------------------------------------------

  /** Characters a POSIX shell would treat specially outside quotes. */
  predicate IsShellSpecial(c: char) {
    c in " \t\n;&|<>()$`\"*?[#~"
  }

  /** The body of escapeshellarg(): every single quote becomes `'\''`. */
  function QuoteBody(s: string): (r: string)
    ensures |r| >= |s|
    decreases |s|
  {
    if s == [] then []
    else (if s[0] == '\'' then "'\\''" else [s[0]]) + QuoteBody(s[1..])
  }

  /** escapeshellarg() in its POSIX form: the argument inside single quotes. */
  function EscapeShellArg(s: string): (r: string)
    ensures |r| >= 2 && r[0] == '\'' && r[|r| - 1] == '\''
  {
    "'" + QuoteBody(s) + "'"
  }

  function Prepend(c: char, o: Option<string>): Option<string> {
    if o.Some? then Some([c] + o.value) else None
  }

  /**
   * How a POSIX shell reads a text as ONE word: single-quoted runs are
   * literal, a backslash outside quotes escapes the next character (a
   * backslash before a newline continues the line, and both vanish), and an
   * unquoted blank or metacharacter (or an unterminated quote) means the
   * text is not one plain word.
   */
  function ShellWord(t: string, inQuotes: bool): Option<string>
    decreases |t|
  {
    if t == [] then (if inQuotes then None else Some([]))
    else if inQuotes then
      if t[0] == '\'' then ShellWord(t[1..], false) else Prepend(t[0], ShellWord(t[1..], true))
    else if t[0] == '\'' then ShellWord(t[1..], true)
    else if t[0] == '\\' then
      if |t| < 2 then None
      else if t[1] == '\n' then ShellWord(t[2..], false)
      else Prepend(t[1], ShellWord(t[2..], false))
    else if IsShellSpecial(t[0]) then None
    else Prepend(t[0], ShellWord(t[1..], false))
  }

  /** Inside quotes, `'\''` closes the quote, reads an escaped quote, and reopens it. */
  lemma EscapedQuoteReadsBack(x: string)
    ensures ShellWord("'\\''" + x, true) == Prepend('\'', ShellWord(x, true))
  {
    var t := "'\\''" + x;
    var u := t[1..];
    assert u == "\\''" + x;
    assert u[0] == '\\' && u[1] == '\'' && u[2..] == "'" + x;
    assert ShellWord(u, false) == Prepend('\'', ShellWord(u[2..], false));
    assert ("'" + x)[1..] == x;
  }

  lemma {:induction false} QuotedBodyReadsBack(s: string)
    ensures ShellWord(QuoteBody(s) + "'", true) == Some(s)
    decreases |s|
  {
    var t := QuoteBody(s) + "'";
    if s == [] {
      assert t == "'";
    } else {
      var x := QuoteBody(s[1..]) + "'";
      QuotedBodyReadsBack(s[1..]);
      if s[0] == '\'' {
        assert t == "'\\''" + x;
        EscapedQuoteReadsBack(x);
        assert [s[0]] + s[1..] == s;
      } else {
        assert t == [s[0]] + x;
        assert t[1..] == x;
        assert [s[0]] + s[1..] == s;
      }
    }
  }

  /** The shell reads escapeshellarg()'s result back as exactly the original text. */
  lemma EscapeShellArgReadsBack(s: string)
    ensures ShellWord(EscapeShellArg(s), false) == Some(s)
  {
    var t := EscapeShellArg(s);
    assert t[1..] == QuoteBody(s) + "'";
    QuotedBodyReadsBack(s);
  }

  /**
   * executeScript()'s command: a CLI command runs verbatim; a PHP script runs
   * as `php` followed by the script path as one shell word, whatever it holds.
   */
  function Command(c: Config): (r: string)
    ensures c.isCliCommand ==> r == c.script
    ensures !c.isCliCommand ==> |r| >= 4 && r[..4] == "php " && ShellWord(r[4..], false) == Some(c.script)
  {
    if c.isCliCommand then c.script
    else
      var r := "php " + EscapeShellArg(c.script);
      assert r[4..] == EscapeShellArg(c.script);
      EscapeShellArgReadsBack(c.script);
      r
  }

  // ---------------------------------------------------------------------------
  // The environment
  // ---------------------------------------------------------------------------

  datatype Signal = Sigterm | Sigint

  /** What proc_open()/proc_close() give back for one run of the child. */
  datatype ChildResult = Exited(exitCode: int, stdout: string, stderr: string) | SpawnFailed

  /**
   * Everything the loop learns from outside, by cycle number `n` (the counter
   * after the tick): the child's result for a command, memory_get_usage(true)
   * and time() at the stop check, the resource-usage line, a signal arriving
   * during the tick, and a signal arriving during second `i` of the sleep.
   */
  datatype Environment = Environment(
    child: (nat, string) -> ChildResult,
    memory: nat -> int,
    clock: nat -> int,
    usage: nat -> string,
    tickSignal: nat -> Option<Signal>,
    sleepSignal: nat -> nat -> Option<Signal>)

  // ---------------------------------------------------------------------------
  // Log lines
  // ---------------------------------------------------------------------------

  const SpawnFailedMessage := "Failed to execute script process"

  function SignalEntry(s: Signal): Entry {
    Entry(LevelInfo, if s == Sigterm then "Received SIGTERM" else "Received SIGINT")
  }

  function SignalEntries(s: Option<Signal>): (r: seq<Entry>)
    ensures |r| == if s.Some? then 1 else 0
  {
    if s.Some? then [SignalEntry(s.value)] else []
  }

  function CycleEntry(n: nat): Entry {
    Entry(LevelInfo, "Cycle #" + IntToString(n))
  }

  function ExitEntry(code: int): Entry {
    Entry(LevelWarning, "Script exited with code: " + IntToString(code))
  }

  function StartEntries(c: Config): seq<Entry> {
    [Entry(LevelInfo, "Starting Cadence for: " + c.script),
     Entry(LevelInfo, "Interval: " + IntToString(c.interval) + "s")]
  }

  function StoppedEntry(n: nat): Entry {
    Entry(LevelInfo, "Cadence stopped after " + IntToString(n) + " cycles")
  }

  /** executeScript(): a failed spawn counts as exit code 1. */
  function ExitCode(r: ChildResult): int {
    if r.SpawnFailed? then 1 else r.exitCode
  }

  /** What executeScript() logs: an error for a failed spawn, otherwise logOutput(). */
  function ChildEntries(r: ChildResult): seq<Entry> {
    if r.SpawnFailed? then [Entry(LevelError, SpawnFailedMessage)] else OutputEntries(r.stdout, r.stderr)
  }

  /** What tick() logs for cycle `n`. */
  function TickEntries(n: nat, r: ChildResult, usage: string): seq<Entry> {
    [CycleEntry(n)] + ChildEntries(r) + [Entry(LevelInfo, usage)]
    + (if ExitCode(r) != 0 then [ExitEntry(ExitCode(r))] else [])
  }

  /** A failed spawn is logged as an error, then warned about as exit code 1. */
  lemma SpawnFailureLogged(n: nat, usage: string)
    ensures TickEntries(n, SpawnFailed, usage)
         == [CycleEntry(n), Entry(LevelError, SpawnFailedMessage), Entry(LevelInfo, usage), ExitEntry(1)]
  {
  }

  /** A non-zero exit code ends the tick's entries with a warning naming it; zero adds none. */
  lemma ExitCodeWarned(n: nat, code: int, stdout: string, stderr: string, usage: string)
    ensures var es := TickEntries(n, Exited(code, stdout, stderr), usage);
      |es| >= 2 && es[0] == CycleEntry(n)
      && (code != 0 <==> es[|es| - 1] == ExitEntry(code))
  {
    var es := TickEntries(n, Exited(code, stdout, stderr), usage);
    if code == 0 {
      assert es[|es| - 1] == Entry(LevelInfo, usage);
    }
  }

  // ---------------------------------------------------------------------------
  // Stop conditions
  // ---------------------------------------------------------------------------

  /** isMemoryExceeded(): the limit is always there, and reaching it counts. */
  predicate IsMemoryExceeded(c: Config, memory: int) {
    memory >= MaxMemoryBytes(c)
  }

  /** isRuntimeExceeded(): no limit never stops; reaching the limit counts. */
  predicate IsRuntimeExceeded(c: Config, elapsed: int) {
    c.maxRuntime.Some? && elapsed >= c.maxRuntime.value
  }

  /** isCyclesExceeded(): no limit never stops; reaching the limit counts. */
  predicate IsCyclesExceeded(c: Config, cycles: nat) {
    c.maxCycles.Some? && cycles >= c.maxCycles.value
  }

  datatype StopReason = StopSignal | MemoryLimit | RuntimeLimit | CycleLimit

  function ReasonEntry(r: StopReason): Entry {
    Entry(LevelInfo,
      match r
      case StopSignal => "Received stop signal"
      case MemoryLimit => "Memory limit exceeded, stopping"
      case RuntimeLimit => "Runtime limit exceeded, stopping"
      case CycleLimit => "Cycle limit reached, stopping")
  }

  /** shouldStop(): the first reason that holds, in the order flag, memory, runtime, cycles. */
  function StopReasonOf(c: Config, flag: bool, memory: int, elapsed: int, cycles: nat): (r: Option<StopReason>)
    ensures r == Some(StopSignal) <==> flag
    ensures r == Some(MemoryLimit) <==> !flag && IsMemoryExceeded(c, memory)
    ensures r == Some(RuntimeLimit) <==> !flag && !IsMemoryExceeded(c, memory) && IsRuntimeExceeded(c, elapsed)
    ensures r == Some(CycleLimit) <==>
      !flag && !IsMemoryExceeded(c, memory) && !IsRuntimeExceeded(c, elapsed) && IsCyclesExceeded(c, cycles)
    ensures r.None? <==>
      !flag && memory < MaxMemoryBytes(c)
      && (c.maxRuntime.None? || elapsed < c.maxRuntime.value)
      && (c.maxCycles.None? || cycles < c.maxCycles.value)
  {
    if flag then Some(StopSignal)
    else if IsMemoryExceeded(c, memory) then Some(MemoryLimit)
    else if IsRuntimeExceeded(c, elapsed) then Some(RuntimeLimit)
    else if IsCyclesExceeded(c, cycles) then Some(CycleLimit)
    else None
  }

  function ReasonEntries(r: Option<StopReason>): seq<Entry> {
    if r.Some? then [ReasonEntry(r.value)] else []
  }

  // ---------------------------------------------------------------------------
  // The interruptible sleep
  // ---------------------------------------------------------------------------

  /** The first second, below `n`, during which a signal arrives. */
  function FirstSignal(signals: nat -> Option<Signal>, n: nat): (r: Option<nat>)
    ensures r.Some? ==> r.value < n && signals(r.value).Some?
    decreases n
  {
    if n == 0 then None
    else if FirstSignal(signals, n - 1).Some? then FirstSignal(signals, n - 1)
    else if signals(n - 1).Some? then Some(n - 1)
    else None
  }

  /** No signal arrives before the first one, and there is none only when no second brings one. */
  lemma {:induction false} FirstSignalIsFirst(signals: nat -> Option<Signal>, n: nat)
    ensures FirstSignal(signals, n).Some? ==>
      forall k :: 0 <= k < FirstSignal(signals, n).value ==> signals(k).None?
    ensures FirstSignal(signals, n).None? <==> forall k :: 0 <= k < n ==> signals(k).None?
    decreases n
  {
    if n > 0 {
      FirstSignalIsFirst(signals, n - 1);
    }
  }

  /** Number of one-second waits sleep() makes. */
  function SleepWaits(interval: int, signals: nat -> Option<Signal>): nat {
    if interval <= 0 then 0
    else match FirstSignal(signals, interval)
      case Some(j) => j + 1
      case None => interval
  }

  /** The signal, if any, that cuts sleep() short. */
  function SleepSignal(interval: int, signals: nat -> Option<Signal>): Option<Signal> {
    if interval <= 0 then None
    else match FirstSignal(signals, interval)
      case Some(j) => signals(j)
      case None => None
  }

  /**
   * sleep() waits at most `interval` seconds; a signal during a wait makes
   * that wait the last one, and without a signal it waits the full interval.
   */
  lemma SleepBounds(interval: int, signals: nat -> Option<Signal>)
    ensures SleepWaits(interval, signals) <= if interval <= 0 then 0 else interval
    ensures SleepSignal(interval, signals).Some? <==>
      exists k :: 0 <= k < interval && signals(k).Some?
    ensures SleepSignal(interval, signals).Some? ==>
      SleepWaits(interval, signals) >= 1
      && signals(SleepWaits(interval, signals) - 1) == SleepSignal(interval, signals)
      && forall k :: 0 <= k < SleepWaits(interval, signals) - 1 ==> signals(k).None?
    ensures SleepSignal(interval, signals).None? ==> SleepWaits(interval, signals) == if interval <= 0 then 0 else interval
  {
    if interval > 0 {
      FirstSignalIsFirst(signals, interval);
      if FirstSignal(signals, interval).None? {
        assert forall k :: 0 <= k < interval ==> signals(k).None?;
      }
    }
  }

  // ---------------------------------------------------------------------------
  // One pass of the loop and a whole run
  // ---------------------------------------------------------------------------

  /** shouldStop()'s answer after tick `n` of a run that had not been stopped before it. */
  function PassReason(c: Config, env: Environment, startTime: int, n: nat): Option<StopReason> {
    StopReasonOf(c, env.tickSignal(n).Some?, env.memory(n), env.clock(n) - startTime, n)
  }

  /** The loop ends after pass `n`: shouldStop() said so, or a signal cut the sleep short. */
  predicate PassEnds(c: Config, env: Environment, startTime: int, n: nat) {
    PassReason(c, env, startTime, n).Some? || SleepSignal(c.interval, env.sleepSignal(n)).Some?
  }

  /** The stop flag after pass `n`. */
  predicate FlagAfterPass(c: Config, env: Environment, startTime: int, n: nat) {
    env.tickSignal(n).Some?
    || (PassReason(c, env, startTime, n).None? && SleepSignal(c.interval, env.sleepSignal(n)).Some?)
  }

  /** What tick `n` logs, a signal during it included. */
  function TickPart(c: Config, env: Environment, n: nat): seq<Entry> {
    TickEntries(n, env.child(n, Command(c)), env.usage(n)) + SignalEntries(env.tickSignal(n))
  }

  /** What pass `n` logs after its tick: the stop reason, or a signal during the sleep. */
  function PassTail(c: Config, env: Environment, startTime: int, n: nat): seq<Entry> {
    if PassReason(c, env, startTime, n).Some? then ReasonEntries(PassReason(c, env, startTime, n))
    else SignalEntries(SleepSignal(c.interval, env.sleepSignal(n)))
  }

  function PassEntries(c: Config, env: Environment, startTime: int, n: nat): seq<Entry> {
    TickPart(c, env, n) + PassTail(c, env, startTime, n)
  }

  /** What passes `m + 1` to `n` log, in order. */
  function Passes(c: Config, env: Environment, startTime: int, m: nat, n: nat): seq<Entry>
    decreases n
  {
    if n <= m then [] else Passes(c, env, startTime, m, n - 1) + PassEntries(c, env, startTime, n)
  }

  /** What run() logs when it starts at counter `m` and stops at `n`. */
  function RunEntries(c: Config, env: Environment, startTime: int, m: nat, n: nat): seq<Entry> {
    StartEntries(c) + Passes(c, env, startTime, m, n) + [StoppedEntry(n)]
  }

  /** Passes `m + 1` to `n` all let the loop go on. */
  predicate ContinuesThrough(c: Config, env: Environment, startTime: int, m: nat, n: int) {
    forall j :: m < j <= n ==> !PassEnds(c, env, startTime, j)
  }

  /** One more pass that lets the loop go on, and it stays below the pass `k` known to end it. */
  lemma ContinueStep(c: Config, env: Environment, startTime: int, m: nat, k: nat, n: nat)
    requires m < n <= k && ContinuesThrough(c, env, startTime, m, n - 1)
    requires PassEnds(c, env, startTime, k) && !PassEnds(c, env, startTime, n)
    ensures n < k && ContinuesThrough(c, env, startTime, m, n)
  {
  }

  /** The child's result never decides whether the loop ends: failures and non-zero exits carry on. */
  lemma ChildResultNeverStops(c: Config, env: Environment, startTime: int, n: nat, other: (nat, string) -> ChildResult)
    ensures PassEnds(c, env, startTime, n) == PassEnds(c, env.(child := other), startTime, n)
    ensures FlagAfterPass(c, env, startTime, n) == FlagAfterPass(c, env.(child := other), startTime, n)
  {
  }

  /** A pass in which no signal arrives and neither memory nor runtime reaches its limit. */
  predicate Undisturbed(c: Config, env: Environment, startTime: int, n: nat) {
    env.tickSignal(n).None? && !IsMemoryExceeded(c, env.memory(n))
    && !IsRuntimeExceeded(c, env.clock(n) - startTime)
    && SleepSignal(c.interval, env.sleepSignal(n)).None?
  }

  /**
   * With `maxCycles = N` and nothing else stopping it, the loop ends after
   * pass `N` and after no earlier one: a run from zero ticks exactly `N` times.
   */
  lemma CycleLimitEndsAtN(c: Config, env: Environment, startTime: int, limit: nat)
    requires c.maxCycles == Some(limit) && limit >= 1
    requires forall n :: 1 <= n <= limit ==> Undisturbed(c, env, startTime, n)
    ensures PassEnds(c, env, startTime, limit)
    ensures PassReason(c, env, startTime, limit) == Some(CycleLimit)
    ensures forall n :: 1 <= n < limit ==> !PassEnds(c, env, startTime, n)
  {
    assert Undisturbed(c, env, startTime, limit);
    forall n | 1 <= n < limit ensures !PassEnds(c, env, startTime, n) {
      assert Undisturbed(c, env, startTime, n);
    }
  }

  /**
   * What run() promises from a fresh counter (it reached pass `n`, continued
   * through every earlier one, and ended at `n`) pins `n` to the cycle limit
   * when nothing else interferes: exactly `N` ticks.
   */
  lemma RunTicksExactlyLimit(c: Config, env: Environment, startTime: int, limit: nat, n: nat)
    requires c.maxCycles == Some(limit) && limit >= 1
    requires forall j :: 1 <= j <= limit ==> Undisturbed(c, env, startTime, j)
    requires n >= 1 && ContinuesThrough(c, env, startTime, 0, n - 1) && PassEnds(c, env, startTime, n)
    ensures n == limit
  {
    CycleLimitEndsAtN(c, env, startTime, limit);
    assert n > limit ==> !PassEnds(c, env, startTime, limit);
  }

  /** A cycle limit always ends the loop, whatever else happens. */
  lemma CycleLimitTerminates(c: Config, env: Environment, startTime: int, m: nat)
    requires c.maxCycles.Some?
    ensures exists k :: k > m && PassEnds(c, env, startTime, k)
  {
    var k: nat := if c.maxCycles.value > m then c.maxCycles.value else m + 1;
    assert PassReason(c, env, startTime, k).Some?;
    assert PassEnds(c, env, startTime, k);
  }

  // ---------------------------------------------------------------------------
  // The Ticker object
  // ---------------------------------------------------------------------------

  class Ticker {
    const config: Config
    const logger: Logger
    /** time() when the Ticker was built. */
    const startTime: int
    var cycles: nat
    var shouldStop: bool
    /** One-second waits made by sleep() so far. */
    ghost var slept: nat

    /** The logger given, or a new one for the configured level and file. */
    constructor (config: Config, logger: Option<Logger>, now: int)
      requires logger.Some? ==> logger.value.Valid()
      ensures this.config == config && startTime == now
      ensures cycles == 0 && !shouldStop && slept == 0
      ensures this.logger.Valid()
      ensures logger.Some? ==> this.logger == logger.value
      ensures logger.None? ==>
        fresh(this.logger) && this.logger.level == config.logLevel
        && this.logger.logFile == config.logFile && this.logger.trace == [] && this.logger.submitted == []
    {
      this.config := config;
      startTime := now;
      if logger.Some? {
        this.logger := logger.value;
      } else {
        this.logger := new Logger(config.logLevel, config.logFile);
      }
      cycles := 0;
      shouldStop := false;
      slept := 0;
    }

    /** stop(): the flag goes up, and nothing else changes. */
    method Stop()
      modifies this
      ensures shouldStop && cycles == old(cycles) && slept == old(slept)
    {
      shouldStop := true;
    }

    /** getCycles(): the number of ticks so far. */
    method GetCycles() returns (n: nat)
      ensures n == cycles
    {
      n := cycles;
    }

    /** getElapsedTime(), given the current time(). */
    method GetElapsedTime(now: int) returns (elapsed: int)
      ensures elapsed + startTime == now
    {
      elapsed := now - startTime;
    }

    /** The SIGTERM/SIGINT handler: log the signal, then raise the flag. */
    method HandleSignal(s: Signal)
      requires logger.Valid()
      modifies this, logger
      ensures shouldStop && cycles == old(cycles) && slept == old(slept)
      ensures logger.Valid() && logger.submitted == old(logger.submitted) + [SignalEntry(s)]
    {
      logger.Log(LevelInfo, if s == Sigterm then "Received SIGTERM" else "Received SIGINT");
      shouldStop := true;
    }

    /** executeScript(): run the command once and log what it printed. */
    method ExecuteScript(env: Environment) returns (exitCode: int)
      requires logger.Valid()
      modifies logger
      ensures exitCode == ExitCode(env.child(cycles, Command(config)))
      ensures logger.Valid() && logger.submitted == old(logger.submitted) + ChildEntries(env.child(cycles, Command(config)))
    {
      var command := if config.isCliCommand then config.script else "php " + EscapeShellArg(config.script);
      var result := env.child(cycles, command);
      if result.SpawnFailed? {
        logger.Log(LevelError, SpawnFailedMessage);
        return 1;
      }
      logger.LogOutput(result.stdout, result.stderr);
      exitCode := result.exitCode;
    }

    /** tick(): count the cycle, run the child, log usage and a non-zero exit code. */
    method Tick(env: Environment)
      requires logger.Valid()
      modifies this, logger
      ensures cycles == old(cycles) + 1 && slept == old(slept)
      ensures shouldStop == (old(shouldStop) || env.tickSignal(cycles).Some?)
      ensures logger.Valid() && logger.submitted == old(logger.submitted) + TickPart(config, env, cycles)
    {
      ghost var s0 := logger.submitted;
      cycles := cycles + 1;
      ghost var r := env.child(cycles, Command(config));
      logger.Log(LevelInfo, "Cycle #" + IntToString(cycles));
      ghost var s1 := logger.submitted;
      var exitCode := ExecuteScript(env);
      ghost var s2 := logger.submitted;
      logger.Log(LevelInfo, env.usage(cycles));
      ghost var s3 := logger.submitted;
      if exitCode != 0 {
        logger.Log(LevelWarning, "Script exited with code: " + IntToString(exitCode));
      }
      ghost var s4 := logger.submitted;
      var signal := env.tickSignal(cycles);
      if signal.Some? {
        HandleSignal(signal.value);
      }
      TickLog(cycles, r, env.usage(cycles), signal, s0, s1, s2, s3, s4, logger.submitted);
    }

    /** shouldStop(): log and report the first stop reason that holds. */
    method ShouldStop(env: Environment) returns (stop: bool)
      requires logger.Valid()
      modifies logger
      ensures var reason := StopReasonOf(config, shouldStop, env.memory(cycles), env.clock(cycles) - startTime, cycles);
        stop == reason.Some?
        && logger.Valid() && logger.submitted == old(logger.submitted) + ReasonEntries(reason)
    {
      ghost var reason := StopReasonOf(config, shouldStop, env.memory(cycles), env.clock(cycles) - startTime, cycles);
      if shouldStop {
        assert reason == Some(StopSignal);
        logger.Log(LevelInfo, "Received stop signal");
        return true;
      }
      if IsMemoryExceeded(config, env.memory(cycles)) {
        assert reason == Some(MemoryLimit);
        logger.Log(LevelInfo, "Memory limit exceeded, stopping");
        return true;
      }
      if IsRuntimeExceeded(config, env.clock(cycles) - startTime) {
        assert reason == Some(RuntimeLimit);
        logger.Log(LevelInfo, "Runtime limit exceeded, stopping");
        return true;
      }
      if IsCyclesExceeded(config, cycles) {
        assert reason == Some(CycleLimit);
        logger.Log(LevelInfo, "Cycle limit reached, stopping");
        return true;
      }
      assert reason.None?;
      stop := false;
    }

    /**
     * sleep(): up to `interval` one-second waits, none once the flag is up;
     * a signal during a wait raises the flag and ends the sleep.
     */
    method Sleep(env: Environment)
      requires logger.Valid()
      modifies this, logger
      ensures cycles == old(cycles) && logger.Valid()
      ensures old(shouldStop) ==> shouldStop && slept == old(slept) && logger.submitted == old(logger.submitted)
      ensures !old(shouldStop) ==>
        var signals := env.sleepSignal(cycles);
        slept == old(slept) + SleepWaits(config.interval, signals)
        && shouldStop == SleepSignal(config.interval, signals).Some?
        && logger.submitted == old(logger.submitted) + SignalEntries(SleepSignal(config.interval, signals))
    {
      ghost var signals := env.sleepSignal(cycles);
      var i: int := 0;
      while i < config.interval
        invariant i >= 0 && (i == 0 || i <= config.interval)
        invariant cycles == old(cycles) && logger.Valid()
        invariant old(shouldStop) ==> shouldStop && i == 0 && slept == old(slept) && logger.submitted == old(logger.submitted)
        invariant !old(shouldStop) ==>
          slept == old(slept) + i
          && (shouldStop <==> FirstSignal(signals, i).Some?)
          && (shouldStop ==> FirstSignal(signals, i) == Some(i - 1))
          && logger.submitted == old(logger.submitted) + (if shouldStop then [SignalEntry(signals(i - 1).value)] else [])
      {
        if shouldStop {
          break;
        }
        slept := slept + 1;
        var signal := env.sleepSignal(cycles)(i);
        if signal.Some? {
          HandleSignal(signal.value);
        }
        i := i + 1;
      }
      assert !old(shouldStop) && i > 0 ==> FirstSignal(signals, config.interval) == FirstSignal(signals, i)
        by {
          if !old(shouldStop) && i > 0 && i < config.interval {
            FirstSignalStays(signals, i, config.interval);
          }
        }
    }

    /** beforeProcessStart(): the two start lines (the signal handlers are not modelled). */
    method BeforeProcessStart()
      requires logger.Valid()
      modifies logger
      ensures logger.Valid() && logger.submitted == old(logger.submitted) + StartEntries(config)
    {
      ghost var s0 := logger.submitted;
      logger.Log(LevelInfo, "Starting Cadence for: " + config.script);
      logger.Log(LevelInfo, "Interval: " + IntToString(config.interval) + "s");
      AppendAssoc(s0, [StartEntries(config)[0]], [StartEntries(config)[1]]);
      assert [StartEntries(config)[0]] + [StartEntries(config)[1]] == StartEntries(config);
    }

    /** afterProcessEnd(): the closing line with the cycle count. */
    method AfterProcessEnd()
      requires logger.Valid()
      modifies logger
      ensures logger.Valid() && logger.submitted == old(logger.submitted) + [StoppedEntry(cycles)]
    {
      logger.Log(LevelInfo, "Cadence stopped after " + IntToString(cycles) + " cycles");
    }

    /** One turn of run()'s loop: tick(), then shouldStop(), then sleep() unless it said stop. */
    method Pass(env: Environment) returns (stop: bool)
      requires !shouldStop && logger.Valid()
      modifies this, logger
      ensures cycles == old(cycles) + 1
      ensures stop || shouldStop <==> PassEnds(config, env, startTime, cycles)
      ensures shouldStop == FlagAfterPass(config, env, startTime, cycles)
      ensures logger.Valid() && logger.submitted == old(logger.submitted) + PassEntries(config, env, startTime, cycles)
    {
      ghost var s0 := logger.submitted;
      Tick(env);
      ghost var s1 := logger.submitted;
      assert shouldStop == env.tickSignal(cycles).Some?;
      stop := ShouldStop(env);
      ghost var s2 := logger.submitted;
      if !stop {
        Sleep(env);
      }
      PassOutcome(config, env, startTime, cycles, stop, shouldStop);
      PassLog(stop, TickPart(config, env, cycles), ReasonEntries(PassReason(config, env, startTime, cycles)),
        SignalEntries(SleepSignal(config.interval, env.sleepSignal(cycles))), PassTail(config, env, startTime, cycles),
        s0, s1, s2, logger.submitted);
    }

    /**
     * The while loop of run(): passes until shouldStop() says stop or the
     * flag is up. It needs a later pass that ends it, unless the flag is
     * already up.
     */
    method Loop(env: Environment)
      requires shouldStop || exists k: nat :: k > cycles && PassEnds(config, env, startTime, k)
      requires logger.Valid()
      modifies this, logger
      ensures old(shouldStop) ==> shouldStop && cycles == old(cycles)
      ensures !old(shouldStop) ==>
        cycles > old(cycles)
        && ContinuesThrough(config, env, startTime, old(cycles), cycles - 1)
        && PassEnds(config, env, startTime, cycles)
        && shouldStop == FlagAfterPass(config, env, startTime, cycles)
      ensures logger.Valid() && logger.submitted == old(logger.submitted) + Passes(config, env, startTime, old(cycles), cycles)
    {
      ghost var s0 := logger.submitted;
      ghost var f0 := shouldStop;
      ghost var m := cycles;
      ghost var k: nat := cycles;
      if !shouldStop {
        k :| k > cycles && PassEnds(config, env, startTime, k);
      }
      while !shouldStop
        invariant f0 ==> shouldStop && cycles == m
        invariant !f0 ==> PassEnds(config, env, startTime, k) && m <= cycles
        invariant !f0 && !shouldStop ==> cycles < k && ContinuesThrough(config, env, startTime, m, cycles)
        invariant !f0 && shouldStop ==>
          m < cycles && ContinuesThrough(config, env, startTime, m, cycles - 1)
          && PassEnds(config, env, startTime, cycles) && shouldStop == FlagAfterPass(config, env, startTime, cycles)
        invariant logger.Valid() && logger.submitted == s0 + Passes(config, env, startTime, m, cycles)
        decreases k - cycles
      {
        var stop := Pass(env);
        AppendAssoc(s0, Passes(config, env, startTime, m, cycles - 1), PassEntries(config, env, startTime, cycles));
        if stop {
          break;
        }
        if !shouldStop {
          ContinueStep(config, env, startTime, m, k, cycles);
        }
      }
    }

    /** run(): the start lines, the loop, the closing line; always 0. */
    method Run(env: Environment) returns (exitCode: int)
      requires shouldStop || exists k: nat :: k > cycles && PassEnds(config, env, startTime, k)
      requires logger.Valid()
      modifies this, logger
      ensures exitCode == 0
      ensures old(shouldStop) ==> shouldStop && cycles == old(cycles)
      ensures !old(shouldStop) ==>
        cycles > old(cycles)
        && ContinuesThrough(config, env, startTime, old(cycles), cycles - 1)
        && PassEnds(config, env, startTime, cycles)
        && shouldStop == FlagAfterPass(config, env, startTime, cycles)
      ensures logger.Valid() && logger.submitted == old(logger.submitted) + RunEntries(config, env, startTime, old(cycles), cycles)
      ensures logger.trace == old(logger.trace) + Visible(logger.level, RunEntries(config, env, startTime, old(cycles), cycles))
    {
      ghost var s0 := logger.submitted;
      ghost var t0 := logger.trace;
      ghost var m := cycles;
      BeforeProcessStart();
      ghost var s1 := logger.submitted;
      Loop(env);
      ghost var s2 := logger.submitted;
      AfterProcessEnd();
      RunLog(StartEntries(config), Passes(config, env, startTime, m, cycles), StoppedEntry(cycles), s0, s1, s2, logger.submitted);
      SinkGrows(logger.level, t0, s0, RunEntries(config, env, startTime, m, cycles), logger.trace);
      exitCode := 0;
    }
  }

  /** The first signal before `i` is still the first one before any later bound. */
  lemma {:induction false} FirstSignalStays(signals: nat -> Option<Signal>, i: nat, n: nat)
    requires FirstSignal(signals, i).Some? && i <= n
    ensures FirstSignal(signals, n) == FirstSignal(signals, i)
    decreases n - i
  {
    if i < n {
      FirstSignalStays(signals, i, n - 1);
    }
  }

  /** The log of one pass, put together from the log after tick(), shouldStop() and sleep(). */
  lemma PassLog(stop: bool, tick: seq<Entry>, reason: seq<Entry>, sleep: seq<Entry>, tail: seq<Entry>,
                s0: seq<Entry>, s1: seq<Entry>, s2: seq<Entry>, s3: seq<Entry>)
    requires s1 == s0 + tick
    requires s2 == s1 + reason
    requires stop ==> s3 == s2 && tail == reason
    requires !stop ==> reason == [] && s3 == s2 + sleep && tail == sleep
    ensures s3 == s0 + (tick + tail)
  {
    if !stop {
      assert s2 == s1;
    }
    AppendAssoc(s0, tick, tail);
  }

  /** The log of run(), put together from the log after its three parts. */
  lemma RunLog(start: seq<Entry>, passes: seq<Entry>, stopped: Entry,
               s0: seq<Entry>, s1: seq<Entry>, s2: seq<Entry>, s3: seq<Entry>)
    requires s1 == s0 + start
    requires s2 == s1 + passes
    requires s3 == s2 + [stopped]
    ensures s3 == s0 + (start + passes + [stopped])
  {
    AppendAssoc(s0, start, passes);
    AppendAssoc(s0, start + passes, [stopped]);
  }

  /** The log of tick(), put together from the log after each of its writes. */
  lemma TickLog(n: nat, r: ChildResult, usage: string, signal: Option<Signal>,
                s0: seq<Entry>, s1: seq<Entry>, s2: seq<Entry>, s3: seq<Entry>, s4: seq<Entry>, s5: seq<Entry>)
    requires s1 == s0 + [CycleEntry(n)]
    requires s2 == s1 + ChildEntries(r)
    requires s3 == s2 + [Entry(LevelInfo, usage)]
    requires s4 == s3 + (if ExitCode(r) != 0 then [ExitEntry(ExitCode(r))] else [])
    requires s5 == s4 + SignalEntries(signal)
    ensures s5 == s0 + (TickEntries(n, r, usage) + SignalEntries(signal))
  {
    var a := [CycleEntry(n)];
    var b := ChildEntries(r);
    var c := [Entry(LevelInfo, usage)];
    var d := if ExitCode(r) != 0 then [ExitEntry(ExitCode(r))] else [];
    AppendAssoc(s0, a, b);
    AppendAssoc(s0, a + b, c);
    AppendAssoc(s0, a + b + c, d);
    AppendAssoc(s0, a + b + c + d, SignalEntries(signal));
  }

  /** How pass `n` ends, from what shouldStop() answered and the flag after it (or after the sleep). */
  lemma PassOutcome(c: Config, env: Environment, startTime: int, n: nat, stop: bool, flag: bool)
    requires stop == PassReason(c, env, startTime, n).Some?
    requires stop ==> flag == env.tickSignal(n).Some?
    requires !stop ==> flag == SleepSignal(c.interval, env.sleepSignal(n)).Some?
    ensures PassEnds(c, env, startTime, n) <==> stop || flag
    ensures FlagAfterPass(c, env, startTime, n) == flag
  {
  }
}
