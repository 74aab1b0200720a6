/**
 * EnvLoader.php: the `.env` file next to the script (or at an explicit
 * path) supplies configuration through seven CAD_* variables, each mapped
 * to a fixed configuration key and cast to that key's type.
 */
module EnvConfig {
  import opened Wrappers
  import opened PhpText
  import opened PhpValue
  import Settings

  /** The variables a Dotenv file yields; a variable may be defined without a value. */
  type EnvValues = map<string, Option<string>>

  /** `EnvLoader::ENV_MAP`: environment name to configuration key, in iteration order. */
  const EnvMap: seq<(string, string)> := [
    ("CAD_INTERVAL", "interval"),
    ("CAD_MAX_MEMORY", "maxMemory"),
    ("CAD_MAX_RUNTIME", "maxRuntime"),
    ("CAD_MAX_CYCLES", "maxCycles"),
    ("CAD_LOG_FILE", "logFile"),
    ("CAD_LOG_LEVEL", "logLevel"),
    ("CAD_LOG_TIMEZONE", "logTimezone")]

  /** The keys whose values are cast to integers. */
  predicate IsIntKey(key: string) {
    key == "interval" || key == "maxRuntime" || key == "maxCycles"
  }

  /** `isset($envValues[$envKey])` */
  predicate IsSetEnv(env: EnvValues, name: string) {
    name in env && env[name].Some?
  }

  /** castValue(): an empty value is null, the integer keys are cast, the rest stay strings. */
  function CastEnvValue(key: string, value: string): (v: Value)
    ensures v.Null? <==> value == ""
    ensures v.Int? <==> value != "" && IsIntKey(key)
    ensures v.Str? ==> v.s == value
  {
    if value == "" then Null
    else if IsIntKey(key) then Int(IntCast(value))
    else Str(value)
  }

  /** A number written in decimal reads back as that number under an integer key. */
  lemma CastRendersBack(key: string, n: int)
    requires IsIntKey(key)
    ensures CastEnvValue(key, IntToString(n)) == Int(n)
  {
    IntCastOfIntToString(n, "");
    assert IntToString(n) + "" == IntToString(n);
  }

  /** The configuration after the first entries of the table have been visited. */
  function Mapped(pairs: seq<(string, string)>, env: EnvValues): Options
    decreases |pairs|
  {
    if pairs == [] then map[]
    else
      var config := Mapped(pairs[..|pairs| - 1], env);
      var (envKey, configKey) := pairs[|pairs| - 1];
      if IsSetEnv(env, envKey) then config[configKey := CastEnvValue(configKey, env[envKey].value)]
      else config
  }

  /** mapToConfig() */
  function EnvToConfig(env: EnvValues): Options {
    if env == map[] then map[] else Mapped(EnvMap, env)
  }

  /** mapToConfig(): the foreach over the table fills the array one key at a time. */
  method MapToConfig(env: EnvValues) returns (config: Options)
    ensures config == EnvToConfig(env)
  {
    config := map[];
    if env == map[] {
      return;
    }
    for i := 0 to |EnvMap|
      invariant config == Mapped(EnvMap[..i], env)
    {
      var (envKey, configKey) := EnvMap[i];
      assert EnvMap[..i + 1][..i] == EnvMap[..i];
      if IsSetEnv(env, envKey) {
        config := config[configKey := CastEnvValue(configKey, env[envKey].value)];
      }
    }
    assert EnvMap[..|EnvMap|] == EnvMap;
  }

  // ---------------------------------------------------------------------------
  // What the table mapping promises
  // ---------------------------------------------------------------------------

  predicate DistinctTargets(pairs: seq<(string, string)>) {
    forall i, j :: 0 <= i < j < |pairs| ==> pairs[i].1 != pairs[j].1
  }

  function Targets(pairs: seq<(string, string)>): set<string> {
    set i | 0 <= i < |pairs| :: pairs[i].1
  }

  /** Only the table's configuration keys can appear. */
  lemma {:induction false} MappedKeys(pairs: seq<(string, string)>, env: EnvValues)
    ensures Mapped(pairs, env).Keys <= Targets(pairs)
    decreases |pairs|
  {
    if pairs != [] {
      var init := pairs[..|pairs| - 1];
      MappedKeys(init, env);
      assert Targets(init) <= Targets(pairs) by {
        forall k | k in Targets(init) ensures k in Targets(pairs) {
          var i :| 0 <= i < |init| && init[i].1 == k;
          assert pairs[i].1 == k;
        }
      }
      assert pairs[|pairs| - 1].1 in Targets(pairs);
    }
  }

  /** Each table entry lands under its key exactly when its variable is set, cast by that key. */
  lemma {:induction false} MappedAt(pairs: seq<(string, string)>, env: EnvValues, i: nat)
    requires DistinctTargets(pairs) && i < |pairs|
    ensures pairs[i].1 in Mapped(pairs, env) <==> IsSetEnv(env, pairs[i].0)
    ensures IsSetEnv(env, pairs[i].0)
        ==> Mapped(pairs, env)[pairs[i].1] == CastEnvValue(pairs[i].1, env[pairs[i].0].value)
    decreases |pairs|
  {
    var init := pairs[..|pairs| - 1];
    if i < |pairs| - 1 {
      assert pairs[i] == init[i];
      assert DistinctTargets(init);
      MappedAt(init, env, i);
    } else {
      MappedKeys(init, env);
      assert pairs[i].1 !in Targets(init);
    }
  }

  /** Variables outside the table do not matter. */
  lemma {:induction false} MappedReadsOnlySources(pairs: seq<(string, string)>, env: EnvValues, other: EnvValues)
    requires forall i :: 0 <= i < |pairs| ==>
      (IsSetEnv(env, pairs[i].0) <==> IsSetEnv(other, pairs[i].0))
      && (IsSetEnv(env, pairs[i].0) ==> env[pairs[i].0] == other[pairs[i].0])
    ensures Mapped(pairs, env) == Mapped(pairs, other)
    decreases |pairs|
  {
    if pairs != [] {
      MappedReadsOnlySources(pairs[..|pairs| - 1], env, other);
      assert pairs[..|pairs| - 1][0..] == pairs[..|pairs| - 1];
    }
  }

  lemma EnvMapTargetsDistinct()
    ensures DistinctTargets(EnvMap)
    ensures Targets(EnvMap) == {"interval", "maxMemory", "maxRuntime", "maxCycles", "logFile", "logLevel", "logTimezone"}
  {
    var names := {"interval", "maxMemory", "maxRuntime", "maxCycles", "logFile", "logLevel", "logTimezone"};
    forall k | k in Targets(EnvMap) ensures k in names {
      var i :| 0 <= i < |EnvMap| && EnvMap[i].1 == k;
    }
    forall i | 0 <= i < |EnvMap| ensures EnvMap[i].1 in Targets(EnvMap) {
    }
    assert names == {EnvMap[0].1, EnvMap[1].1, EnvMap[2].1, EnvMap[3].1, EnvMap[4].1, EnvMap[5].1, EnvMap[6].1};
  }

  /** The environment sets a configuration key exactly when its CAD_* variable is set. */
  lemma EnvToConfigAt(env: EnvValues, i: nat)
    requires i < |EnvMap|
    ensures EnvMap[i].1 in EnvToConfig(env) <==> IsSetEnv(env, EnvMap[i].0)
    ensures IsSetEnv(env, EnvMap[i].0)
        ==> EnvToConfig(env)[EnvMap[i].1] == CastEnvValue(EnvMap[i].1, env[EnvMap[i].0].value)
  {
    EnvMapTargetsDistinct();
    MappedAt(EnvMap, env, i);
  }

  /** No key outside the seven configuration names is ever produced. */
  lemma EnvToConfigKeys(env: EnvValues)
    ensures EnvToConfig(env).Keys
        <= {"interval", "maxMemory", "maxRuntime", "maxCycles", "logFile", "logLevel", "logTimezone"}
  {
    EnvMapTargetsDistinct();
    MappedKeys(EnvMap, env);
  }

  /** An environment without variables contributes nothing. */
  lemma EmptyEnvGivesNothing()
    ensures EnvToConfig(map[]) == map[]
  {
  }

  /** Only the CAD_* variables are read. */
  lemma EnvToConfigReadsOnlyCadVariables(env: EnvValues, other: EnvValues)
    requires env != map[] && other != map[]
    requires forall i :: 0 <= i < |EnvMap| ==>
      (IsSetEnv(env, EnvMap[i].0) <==> IsSetEnv(other, EnvMap[i].0))
      && (IsSetEnv(env, EnvMap[i].0) ==> env[EnvMap[i].0] == other[EnvMap[i].0])
    ensures EnvToConfig(env) == EnvToConfig(other)
  {
    MappedReadsOnlySources(EnvMap, env, other);
  }

  /** What the environment yields can be handed to the Config constructor. */
  lemma EnvToConfigWellTyped(env: EnvValues)
    ensures Settings.WellTyped(EnvToConfig(env))
  {
    EnvToConfigKeys(env);
    EnvToConfigAt(env, 4);
    EnvToConfigAt(env, 6);
  }

  // ---------------------------------------------------------------------------
  // Locating and reading the file
  // ---------------------------------------------------------------------------

  /**
   * The filesystem and the Dotenv parser as the loader sees them: whether a
   * path exists, realpath() (None for false), dirname(), and the variables
   * the parser yields for a file (None when it throws).
   */
  datatype FileSystem = FileSystem(
    fileExists: string -> bool,
    realpath: string -> Option<string>,
    dirname: string -> string,
    readEnv: string -> Option<EnvValues>)

  /** findEnvFile(): the `.env` in the directory of the script, if it exists. */
  function FindEnvFile(scriptPath: Option<string>, fs: FileSystem): (r: Option<string>)
    ensures r.Some? ==> fs.fileExists(r.value)
    ensures scriptPath.None? ==> r.None?
  {
    if scriptPath.None? then None
    else
      var directory := fs.dirname(fs.realpath(scriptPath.value).GetOr(scriptPath.value));
      var envPath := directory + "/.env";
      if fs.fileExists(envPath) then Some(envPath) else None
  }

  /** parse(): an unreadable file contributes nothing. */
  function ParseEnvFile(path: string, fs: FileSystem): Options {
    match fs.readEnv(path)
    case None => map[]
    case Some(values) => EnvToConfig(values)
  }

  /** load(): an explicit path is used as given, otherwise the script's directory is searched. */
  function Load(envPath: Option<string>, scriptPath: Option<string>, fs: FileSystem): Options {
    var path := if envPath.Some? then envPath else FindEnvFile(scriptPath, fs);
    if path.None? || !fs.fileExists(path.value) then map[] else ParseEnvFile(path.value, fs)
  }

  /** An explicit path wins: the script's directory is not consulted. */
  lemma ExplicitPathWins(path: string, scriptPath: Option<string>, other: Option<string>, fs: FileSystem)
    ensures Load(Some(path), scriptPath, fs) == Load(Some(path), other, fs)
    ensures Load(Some(path), scriptPath, fs) == if fs.fileExists(path) then ParseEnvFile(path, fs) else map[]
  {
  }

  /** Without a path and without a script there is nothing to load. */
  lemma NoPathLoadsNothing(fs: FileSystem)
    ensures Load(None, None, fs) == map[]
  {
  }

  /** A missing file loads nothing. */
  lemma MissingFileLoadsNothing(path: string, scriptPath: Option<string>, fs: FileSystem)
    requires !fs.fileExists(path)
    ensures Load(Some(path), scriptPath, fs) == map[]
  {
  }

  /** A file the Dotenv parser rejects loads nothing, even though it exists. */
  lemma UnreadableFileLoadsNothing(path: string, scriptPath: Option<string>, fs: FileSystem)
    requires fs.fileExists(path) && fs.readEnv(path).None?
    ensures Load(Some(path), scriptPath, fs) == map[]
  {
  }

  /** Without an explicit path the `.env` beside the resolved script is read, if there is one. */
  lemma LoadBesideScript(script: string, fs: FileSystem)
    ensures var envPath := fs.dirname(fs.realpath(script).GetOr(script)) + "/.env";
      Load(None, Some(script), fs) == if fs.fileExists(envPath) then ParseEnvFile(envPath, fs) else map[]
  {
  }

  /** Whatever is loaded can be handed to the Config constructor. */
  lemma LoadWellTyped(envPath: Option<string>, scriptPath: Option<string>, fs: FileSystem)
    ensures Settings.WellTyped(Load(envPath, scriptPath, fs))
  {
    var path := if envPath.Some? then envPath else FindEnvFile(scriptPath, fs);
    if path.Some? && fs.fileExists(path.value) && fs.readEnv(path.value).Some? {
      EnvToConfigWellTyped(fs.readEnv(path.value).value);
    }
  }
}
