/**
 * Config.php: the immutable configuration record of the supervisor, the
 * constructor that fills it from an option array with defaults, the layered
 * merge of defaults, environment and command line, the memory-size parser
 * and the validator.
 */
module Settings {
  import opened Wrappers
  import opened PhpText
  import opened PhpValue
  import Log

  /** The fields of a Config object, which no method changes once it is built. */
  datatype Config = Config(
    script: string,
    isCliCommand: bool,
    interval: int,
    maxMemory: string,
    maxRuntime: Option<int>,
    maxCycles: Option<int>,
    logFile: Option<string>,
    logLevel: string,
    logTimezone: Option<string>)

  // ---------------------------------------------------------------------------
  // Construction
  // ---------------------------------------------------------------------------

  /** `Config::DEFAULTS` */
  const Defaults: Options := map[
    "interval" := Int(60),
    "maxMemory" := Str("128M"),
    "maxRuntime" := Int(3600),
    "maxCycles" := Null,
    "logFile" := Null,
    "logLevel" := Str("info"),
    "logTimezone" := Null]

  /** The entry is absent, null or a string. */
  predicate StrOrNull(o: Options, k: string) {
    k in o ==> (o[k].Null? || o[k].Str?)
  }

  /**
   * The option array can be stored without a TypeError: under strict types
   * the `string` and `?string` properties accept no other kind of value.
   */
  predicate WellTyped(o: Options) {
    StrOrNull(o, "script") && StrOrNull(o, "logFile") && StrOrNull(o, "logTimezone")
  }

  /** `$options[$k] ?? null` seen as an optional string. */
  function OptStr(o: Options, k: string): (r: Option<string>)
    requires StrOrNull(o, k)
    ensures r.Some? <==> IsSet(o, k)
  {
    if IsSet(o, k) then Some(o[k].s) else None
  }

  /**
   * `new Config($options)`. A null or absent `maxRuntime` falls back to 3600
   * because the constructor tests it with isset(), so the maximum runtime is
   * never null; `maxCycles` has no such fallback and is null unless set.
   */
  function FromOptions(options: Options): (c: Config)
    requires WellTyped(options)
    ensures c.maxRuntime.Some?
    ensures !IsSet(options, "maxRuntime") ==> c.maxRuntime == Some(3600)
    ensures c.maxCycles.None? <==> !IsSet(options, "maxCycles")
    ensures c.script == "" <== !IsSet(options, "script")
  {
    Config(
      script := OptStr(options, "script").GetOr(""),
      isCliCommand := ToBool(Coalesce(options, "isCliCommand", Bool(false))),
      interval := ToInt(Coalesce(options, "interval", Defaults["interval"])),
      maxMemory := ToStr(Coalesce(options, "maxMemory", Defaults["maxMemory"])),
      maxRuntime := if IsSet(options, "maxRuntime") then Some(ToInt(options["maxRuntime"])) else Some(3600),
      maxCycles := if IsSet(options, "maxCycles") then Some(ToInt(options["maxCycles"])) else None,
      logFile := OptStr(options, "logFile"),
      logLevel := ToStr(Coalesce(options, "logLevel", Defaults["logLevel"])),
      logTimezone := OptStr(options, "logTimezone"))
  }

  /** With no options at all the constructor yields the documented defaults. */
  lemma ConstructorDefaults()
    ensures FromOptions(map[]) == Config("", false, 60, "128M", Some(3600), None, None, "info", None)
  {
  }

  /** The array that `fromMerged()` hands to the constructor. */
  function Merged(defaults: Options, env: Options, cli: Options): Options {
    Defaults + WithoutNulls(defaults) + WithoutNulls(env) + WithoutNulls(cli)
  }

  /**
   * Each key comes from the last layer that holds it with a non-null value,
   * in the order DEFAULTS, `$defaults`, environment, command line; a null
   * never overrides anything, and a key no layer sets stays absent.
   */
  lemma MergedPrecedence(defaults: Options, env: Options, cli: Options, k: string)
    ensures IsSet(cli, k) ==> k in Merged(defaults, env, cli) && Merged(defaults, env, cli)[k] == cli[k]
    ensures !IsSet(cli, k) && IsSet(env, k) ==> k in Merged(defaults, env, cli) && Merged(defaults, env, cli)[k] == env[k]
    ensures !IsSet(cli, k) && !IsSet(env, k) && IsSet(defaults, k)
        ==> k in Merged(defaults, env, cli) && Merged(defaults, env, cli)[k] == defaults[k]
    ensures !IsSet(cli, k) && !IsSet(env, k) && !IsSet(defaults, k)
        ==> (k in Merged(defaults, env, cli) <==> k in Defaults)
    ensures !IsSet(cli, k) && !IsSet(env, k) && !IsSet(defaults, k) && k in Defaults
        ==> Merged(defaults, env, cli)[k] == Defaults[k]
  {
  }

  lemma MergedWellTyped(defaults: Options, env: Options, cli: Options)
    requires WellTyped(defaults) && WellTyped(env) && WellTyped(cli)
    ensures WellTyped(Merged(defaults, env, cli))
  {
    var m := Merged(defaults, env, cli);
    forall k | k in {"script", "logFile", "logTimezone"}
      ensures StrOrNull(m, k)
    {
      MergedPrecedence(defaults, env, cli, k);
    }
  }

  /** `Config::fromMerged()` */
  function FromMerged(defaults: Options, env: Options, cli: Options): (c: Config)
    requires WellTyped(defaults) && WellTyped(env) && WellTyped(cli)
    ensures c.maxRuntime.Some?
  {
    MergedWellTyped(defaults, env, cli);
    FromOptions(Merged(defaults, env, cli))
  }

  /** A command-line interval beats the environment's, which beats the caller's default. */
  lemma FromMergedInterval(defaults: Options, env: Options, cli: Options)
    requires WellTyped(defaults) && WellTyped(env) && WellTyped(cli)
    ensures FromMerged(defaults, env, cli).interval
         == if IsSet(cli, "interval") then ToInt(cli["interval"])
            else if IsSet(env, "interval") then ToInt(env["interval"])
            else if IsSet(defaults, "interval") then ToInt(defaults["interval"])
            else 60
  {
    MergedPrecedence(defaults, env, cli, "interval");
  }

  /**
   * The value of key `k` in the last layer that sets it: the command line,
   * the environment, the caller's defaults, then DEFAULTS; `fallback` when
   * none does.
   */
  function LayerValue(defaults: Options, env: Options, cli: Options, k: string, fallback: Value): Value {
    if IsSet(cli, k) then cli[k]
    else if IsSet(env, k) then env[k]
    else if IsSet(defaults, k) then defaults[k]
    else Coalesce(Defaults, k, fallback)
  }

  /** A `?string` property read from a value: present exactly for a string. */
  function OptText(v: Value): Option<string> {
    if v.Str? then Some(v.s) else None
  }

  /**
   * Every field of fromMerged()'s configuration comes from the layer that
   * wins for its key, with the constructor's fallback when no layer sets it.
   */
  lemma FromMergedFields(defaults: Options, env: Options, cli: Options)
    requires WellTyped(defaults) && WellTyped(env) && WellTyped(cli)
    ensures var c := FromMerged(defaults, env, cli);
      c.script == ToStr(LayerValue(defaults, env, cli, "script", Str("")))
      && c.isCliCommand == ToBool(LayerValue(defaults, env, cli, "isCliCommand", Bool(false)))
      && c.interval == ToInt(LayerValue(defaults, env, cli, "interval", Int(60)))
      && c.maxMemory == ToStr(LayerValue(defaults, env, cli, "maxMemory", Str("128M")))
      && c.maxRuntime == Some(ToInt(LayerValue(defaults, env, cli, "maxRuntime", Int(3600))))
      && c.maxCycles == (var v := LayerValue(defaults, env, cli, "maxCycles", Null);
                         if v.Null? then None else Some(ToInt(v)))
      && c.logFile == OptText(LayerValue(defaults, env, cli, "logFile", Null))
      && c.logLevel == ToStr(LayerValue(defaults, env, cli, "logLevel", Str("info")))
      && c.logTimezone == OptText(LayerValue(defaults, env, cli, "logTimezone", Null))
  {
    var m := Merged(defaults, env, cli);
    MergedWellTyped(defaults, env, cli);
    FromOptionsFields(m);
    CoalesceMerged(defaults, env, cli, "script", Str(""));
    CoalesceMerged(defaults, env, cli, "isCliCommand", Bool(false));
    CoalesceMerged(defaults, env, cli, "interval", Int(60));
    CoalesceMerged(defaults, env, cli, "maxMemory", Str("128M"));
    CoalesceMerged(defaults, env, cli, "maxRuntime", Int(3600));
    CoalesceMerged(defaults, env, cli, "maxCycles", Null);
    CoalesceMerged(defaults, env, cli, "logFile", Null);
    CoalesceMerged(defaults, env, cli, "logLevel", Str("info"));
    CoalesceMerged(defaults, env, cli, "logTimezone", Null);
  }

  /** The constructor's fields, each from `??` on its key. */
  lemma FromOptionsFields(o: Options)
    requires WellTyped(o)
    ensures var c := FromOptions(o);
      c.script == ToStr(Coalesce(o, "script", Str("")))
      && c.isCliCommand == ToBool(Coalesce(o, "isCliCommand", Bool(false)))
      && c.interval == ToInt(Coalesce(o, "interval", Int(60)))
      && c.maxMemory == ToStr(Coalesce(o, "maxMemory", Str("128M")))
      && c.maxRuntime == Some(ToInt(Coalesce(o, "maxRuntime", Int(3600))))
      && c.maxCycles == (var v := Coalesce(o, "maxCycles", Null); if v.Null? then None else Some(ToInt(v)))
      && c.logFile == OptText(Coalesce(o, "logFile", Null))
      && c.logLevel == ToStr(Coalesce(o, "logLevel", Str("info")))
      && c.logTimezone == OptText(Coalesce(o, "logTimezone", Null))
  {
  }

  /** `??` on the merged array is the lookup through the layers. */
  lemma CoalesceMerged(defaults: Options, env: Options, cli: Options, k: string, fallback: Value)
    ensures Coalesce(Merged(defaults, env, cli), k, fallback) == LayerValue(defaults, env, cli, k, fallback)
  {
    MergedPrecedence(defaults, env, cli, k);
  }

  // ---------------------------------------------------------------------------
  // Memory sizes
  // ---------------------------------------------------------------------------

  /**
   * parseMemoryString(): the upper-cased, trimmed text is cast to an integer
   * and scaled by the unit its last letter names, if any.
   */
  function ParseMemory(memory: string): int {
    var m := ToUpper(Trim(memory));
    IntCast(m) * UnitMultiplier(m)
  }

  /** The factor for a trailing G, M or K (checked in that order), else 1. */
  function UnitMultiplier(m: string): nat {
    if EndsWith(m, "G") then 1024 * 1024 * 1024
    else if EndsWith(m, "M") then 1024 * 1024
    else if EndsWith(m, "K") then 1024
    else 1
  }

  /** getMaxMemoryBytes() */
  function MaxMemoryBytes(c: Config): int {
    ParseMemory(c.maxMemory)
  }

  /** The unit letters a size may end in, in either case. */
  predicate IsUnit(u: char) {
    u in {'G', 'M', 'K', 'g', 'm', 'k'}
  }

  /** The multiplier a unit letter stands for, in either case. */
  function UnitFactor(u: char): nat {
    if u == 'G' || u == 'g' then 1024 * 1024 * 1024
    else if u == 'M' || u == 'm' then 1024 * 1024
    else if u == 'K' || u == 'k' then 1024
    else 1
  }

  /** A rendered integer is already trimmed and upper-case. */
  lemma RenderingIsNormal(n: int)
    ensures ToUpper(Trim(IntToString(n))) == IntToString(n)
  {
    IntToStringChars(n);
    TrimNoop(IntToString(n));
    ToUpperOfIntToString(n);
  }

  /** A rendered integer followed by a unit letter only needs the letter upper-cased. */
  lemma SizeIsNormal(n: int, u: char)
    requires IsUnit(u)
    ensures ToUpper(Trim(IntToString(n) + [u])) == IntToString(n) + [UpperChar(u)]
  {
    var digits := IntToString(n);
    var s := digits + [u];
    IntToStringChars(n);
    assert s[0] == digits[0];
    TrimNoop(s);
    ToUpperAppend(digits, [u]);
    ToUpperOfIntToString(n);
    assert ToUpper([u]) == [UpperChar(u)];
  }

  /** A rendered integer ends in a digit, so it carries no unit. */
  lemma NoUnitOnRendering(n: int)
    ensures UnitMultiplier(IntToString(n)) == 1
  {
    var digits := IntToString(n);
    IntToStringChars(n);
    EndsWithChar(digits, 'G');
    EndsWithChar(digits, 'M');
    EndsWithChar(digits, 'K');
  }

  lemma UnitOfLetter(s: string, u: char)
    requires IsUnit(u)
    ensures UnitMultiplier(s + [UpperChar(u)]) == UnitFactor(u)
  {
    var m := s + [UpperChar(u)];
    EndsWithChar(m, 'G');
    EndsWithChar(m, 'M');
    EndsWithChar(m, 'K');
  }

  /** A bare integer is a number of bytes. */
  lemma ParseMemoryOfBytes(n: int)
    ensures ParseMemory(IntToString(n)) == n
  {
    RenderingIsNormal(n);
    NoUnitOnRendering(n);
    IntCastOfIntToString(n, "");
    assert IntToString(n) + "" == IntToString(n);
  }

  /** An integer followed by a unit letter of either case is scaled by that unit. */
  lemma ParseMemoryOfSize(n: int, u: char)
    requires IsUnit(u)
    ensures ParseMemory(IntToString(n) + [u]) == n * UnitFactor(u)
  {
    SizeIsNormal(n, u);
    UnitOfLetter(IntToString(n), u);
    IntCastOfIntToString(n, [UpperChar(u)]);
  }

  /** The default limit `'128M'` is 134217728 bytes. */
  lemma DefaultMaxMemoryBytes()
    ensures ParseMemory("128M") == 134217728
  {
    assert NatToString(128) == "128";
    assert "128M" == IntToString(128) + ['M'];
    ParseMemoryOfSize(128, 'M');
  }

  /** Surrounding whitespace does not change the parsed size. */
  lemma ParseMemoryIgnoresPadding(memory: string)
    ensures ParseMemory(Trim(memory)) == ParseMemory(memory)
  {
    TrimIdempotent(memory);
  }

  // ---------------------------------------------------------------------------
  // Validation
  // ---------------------------------------------------------------------------

  const ScriptRequired := "Script path or command is required"
  const IntervalTooSmall := "Interval must be at least 1 second"
  const RuntimeTooSmall := "Max runtime must be at least 1 second"
  const CyclesTooSmall := "Max cycles must be at least 1"

  /** The level names validate() accepts, in the order its message lists them. */
  const ValidLogLevels: seq<string> := ["debug", "info", "warning", "error", "quiet"]

  /** The message lists the accepted levels joined by ", ". */
  const LevelInvalid := "Log level must be one of: " + "debug, info, warning, error, quiet"

  function ScriptNotFound(script: string): string {
    "Script not found: " + script
  }

  /** PHP's empty() on a string: "" and "0" are empty. */
  predicate IsEmptyString(s: string) {
    s == "" || s == "0"
  }

  /** The first check: the script is missing, or outside CLI mode it is not a file. */
  function ScriptErrors(c: Config, fileExists: string -> bool): seq<string> {
    if IsEmptyString(c.script) then [ScriptRequired]
    else if !c.isCliCommand && !fileExists(c.script) then [ScriptNotFound(c.script)]
    else []
  }

  function IntervalErrors(c: Config): seq<string> {
    if c.interval < 1 then [IntervalTooSmall] else []
  }

  /** A null maximum passes; the constructor never produces one, but the check allows it. */
  function RuntimeErrors(c: Config): seq<string> {
    if c.maxRuntime.Some? && c.maxRuntime.value < 1 then [RuntimeTooSmall] else []
  }

  function CyclesErrors(c: Config): seq<string> {
    if c.maxCycles.Some? && c.maxCycles.value < 1 then [CyclesTooSmall] else []
  }

  /** The level must be one of the listed names exactly: the comparison is strict and case-sensitive. */
  function LevelErrors(c: Config): seq<string> {
    if c.logLevel !in ValidLogLevels then [LevelInvalid] else []
  }

  /** The list validate() returns: one message per failed check, in check order. */
  function ValidationErrors(c: Config, fileExists: string -> bool): seq<string> {
    ScriptErrors(c, fileExists) + IntervalErrors(c) + RuntimeErrors(c) + CyclesErrors(c) + LevelErrors(c)
  }

  /** validate(): the checks run in order, each appending its message when it fails. */
  method Validate(c: Config, fileExists: string -> bool) returns (errors: seq<string>)
    ensures errors == ValidationErrors(c, fileExists)
  {
    errors := [];
    if IsEmptyString(c.script) {
      errors := errors + [ScriptRequired];
    } else if !c.isCliCommand && !fileExists(c.script) {
      errors := errors + [ScriptNotFound(c.script)];
    }
    assert errors == ScriptErrors(c, fileExists);
    if c.interval < 1 {
      errors := errors + [IntervalTooSmall];
    }
    assert errors == ScriptErrors(c, fileExists) + IntervalErrors(c);
    if c.maxRuntime.Some? && c.maxRuntime.value < 1 {
      errors := errors + [RuntimeTooSmall];
    }
    assert errors == ScriptErrors(c, fileExists) + IntervalErrors(c) + RuntimeErrors(c);
    if c.maxCycles.Some? && c.maxCycles.value < 1 {
      errors := errors + [CyclesTooSmall];
    }
    assert errors == ScriptErrors(c, fileExists) + IntervalErrors(c) + RuntimeErrors(c) + CyclesErrors(c);
    if c.logLevel !in ValidLogLevels {
      errors := errors + [LevelInvalid];
    }
  }

  /** isValid() */
  predicate IsValid(c: Config, fileExists: string -> bool) {
    ValidationErrors(c, fileExists) == []
  }

  /** The position of the check that produces a message. */
  function CheckIndex(message: string): nat {
    if message == ScriptRequired || StartsWith(message, "Script not found: ") then 0
    else if message == IntervalTooSmall then 1
    else if message == RuntimeTooSmall then 2
    else if message == CyclesTooSmall then 3
    else 4
  }

  /** Each message names its own check. */
  lemma CheckIndexOfMessages(script: string)
    ensures CheckIndex(ScriptRequired) == 0 && CheckIndex(ScriptNotFound(script)) == 0
    ensures CheckIndex(IntervalTooSmall) == 1
    ensures CheckIndex(RuntimeTooSmall) == 2
    ensures CheckIndex(CyclesTooSmall) == 3
    ensures CheckIndex(LevelInvalid) == 4
  {
    ScriptChecksIndex(script);
    LaterChecksIndex();
  }

  lemma ScriptChecksIndex(script: string)
    ensures CheckIndex(ScriptRequired) == 0 && CheckIndex(ScriptNotFound(script)) == 0
  {
    assert ScriptNotFound(script)[..18] == "Script not found: ";
  }

  /** The later messages start with letters other than `S`, and the two `M` messages differ in length. */
  lemma LaterChecksIndex()
    ensures CheckIndex(IntervalTooSmall) == 1
    ensures CheckIndex(RuntimeTooSmall) == 2
    ensures CheckIndex(CyclesTooSmall) == 3
    ensures CheckIndex(LevelInvalid) == 4
  {
    assert IntervalTooSmall[0] == 'I' && RuntimeTooSmall[0] == 'M' && CyclesTooSmall[0] == 'M' && LevelInvalid[0] == 'L';
    assert ScriptRequired[0] == 'S' && "Script not found: "[0] == 'S';
    assert |RuntimeTooSmall| != |CyclesTooSmall|;
  }


  /** The two script messages differ, so the message says which case failed. */
  lemma ScriptMessagesDiffer(script: string)
    ensures ScriptRequired != ScriptNotFound(script)
  {
    assert ScriptNotFound(script)[7] == 'n';
    assert ScriptRequired[7] == 'p';
  }

  /** Each message is in the list exactly when its check fails. */
  lemma ValidationErrorsIff(c: Config, fileExists: string -> bool)
    ensures var errs := ValidationErrors(c, fileExists);
      && (ScriptRequired in errs <==> IsEmptyString(c.script))
      && (ScriptNotFound(c.script) in errs <==> !IsEmptyString(c.script) && !c.isCliCommand && !fileExists(c.script))
      && (IntervalTooSmall in errs <==> c.interval < 1)
      && (RuntimeTooSmall in errs <==> c.maxRuntime.Some? && c.maxRuntime.value < 1)
      && (CyclesTooSmall in errs <==> c.maxCycles.Some? && c.maxCycles.value < 1)
      && (LevelInvalid in errs <==> c.logLevel !in ValidLogLevels)
  {
    CheckIndexOfMessages(c.script);
    ScriptMessagesDiffer(c.script);
    var errs := ValidationErrors(c, fileExists);
    forall m | m in errs
      ensures CheckIndex(m) == 0 ==> m in ScriptErrors(c, fileExists)
      ensures CheckIndex(m) == 1 ==> m in IntervalErrors(c)
      ensures CheckIndex(m) == 2 ==> m in RuntimeErrors(c)
      ensures CheckIndex(m) == 3 ==> m in CyclesErrors(c)
      ensures CheckIndex(m) == 4 ==> m in LevelErrors(c)
    {
    }
  }

  /** The messages come sorted by check, at most one per check. */
  predicate InCheckOrder(errs: seq<string>) {
    forall i, j :: 0 <= i < j < |errs| ==> CheckIndex(errs[i]) < CheckIndex(errs[j])
  }

  lemma AppendLaterCheck(a: seq<string>, b: seq<string>, k: nat)
    requires InCheckOrder(a) && forall m | m in a :: CheckIndex(m) < k
    requires |b| <= 1 && forall m | m in b :: CheckIndex(m) == k
    ensures InCheckOrder(a + b) && forall m | m in a + b :: CheckIndex(m) <= k
  {
  }

  lemma ValidationErrorsOrdered(c: Config, fileExists: string -> bool)
    ensures InCheckOrder(ValidationErrors(c, fileExists))
  {
    CheckIndexOfMessages(c.script);
    var e0 := ScriptErrors(c, fileExists);
    var e1 := e0 + IntervalErrors(c);
    var e2 := e1 + RuntimeErrors(c);
    var e3 := e2 + CyclesErrors(c);
    AppendLaterCheck(e0, IntervalErrors(c), 1);
    AppendLaterCheck(e1, RuntimeErrors(c), 2);
    AppendLaterCheck(e2, CyclesErrors(c), 3);
    AppendLaterCheck(e3, LevelErrors(c), 4);
  }

  /** isValid() holds exactly when every check passes. */
  lemma IsValidIff(c: Config, fileExists: string -> bool)
    ensures IsValid(c, fileExists) <==>
      && !IsEmptyString(c.script)
      && (c.isCliCommand || fileExists(c.script))
      && c.interval >= 1
      && (c.maxRuntime.None? || c.maxRuntime.value >= 1)
      && (c.maxCycles.None? || c.maxCycles.value >= 1)
      && c.logLevel in ValidLogLevels
  {
  }

  /** In CLI-command mode the script text is never looked up as a file. */
  lemma CliCommandSkipsFileCheck(c: Config, fileExists: string -> bool, other: string -> bool)
    requires c.isCliCommand
    ensures ValidationErrors(c, fileExists) == ValidationErrors(c, other)
  {
  }

  /** validate() accepts exactly the levels the logger ranks. */
  lemma ValidLevelsAreLoggerLevels(level: string)
    ensures level in ValidLogLevels <==> level in Log.Priorities
  {
  }

  /** The level message lists the accepted names in order, comma-separated. */
  lemma LevelInvalidText()
    ensures LevelInvalid == "Log level must be one of: " + Join(ValidLogLevels, ", ")
  {
  }
}
