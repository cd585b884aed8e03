/**
 * The configuration loader of lib/config.js: defaults, then the config
 * file, then the environment, merged key by key, with null and undefined
 * values removed; and the required-key check.
 */
module Config {
  import opened Wrappers

  /** A JSON-ish configuration value; `Composite` stands for any object or array. */
  datatype Value = Str(s: string) | Bool(b: bool) | Num(n: int) | Composite | Null | Undefined

  /** JavaScript truthiness. */
  predicate Truthy(v: Value) {
    match v
    case Str(s) => s != ""
    case Bool(b) => b
    case Num(n) => n != 0
    case Composite => true
    case _ => false
  }

  predicate Nullish(v: Value) {
    v == Null || v == Undefined
  }

  type Settings = map<string, Value>

  /** The process environment: every variable that is set, with its text. */
  type Env = map<string, string>

  /** The config file: absent, unreadable or not JSON, or parsed to an object. */
  datatype ConfigFile = NoFile | Malformed | Parsed(settings: Settings)

  /** The built-in defaults (lib/config.js:16-24). */
  const Defaults: Settings := map[
    "appId" := Str(""),
    "appSecret" := Str(""),
    "accessToken" := Str(""),
    "redirectUri" := Str("https://localhost:3000/callback"),
    "apiVersion" := Str("v1.0"),
    "dryRun" := Bool(false),
    "logLevel" := Str("info")]

  /** The seven keys the environment mapping always defines. */
  const EnvKeys: set<string> := {"appId", "appSecret", "accessToken", "redirectUri", "apiVersion", "dryRun", "logLevel"}

  /** `process.env[name]`. */
  function EnvVar(env: Env, name: string): (r: Value)
    ensures name in env ==> r == Str(env[name])
    ensures name !in env ==> r == Undefined
  {
    if name in env then Str(env[name]) else Undefined
  }

  /** `process.env[first] || process.env[second]`. */
  function EnvEither(env: Env, first: string, second: string): (r: Value)
    ensures Truthy(EnvVar(env, first)) ==> r == EnvVar(env, first)
    ensures !Truthy(EnvVar(env, first)) ==> r == EnvVar(env, second)
  {
    if first in env && env[first] != "" then Str(env[first]) else EnvVar(env, second)
  }

  /** The environment mapping (lib/config.js:40-48): every key is present, set or not. */
  function EnvSettings(env: Env): (r: Settings)
    ensures r.Keys == EnvKeys
    ensures r["dryRun"] == Bool("THREADS_DRY_RUN" in env && env["THREADS_DRY_RUN"] == "true")
    ensures r["redirectUri"] == EnvVar(env, "THREADS_REDIRECT_URI")
    ensures r["apiVersion"] == EnvVar(env, "THREADS_API_VERSION")
    ensures r["appId"] == EnvEither(env, "THREADS_APP_ID", "FACEBOOK_APP_ID")
    ensures r["appSecret"] == EnvEither(env, "THREADS_APP_SECRET", "FACEBOOK_APP_SECRET")
    ensures r["accessToken"] == EnvEither(env, "THREADS_ACCESS_TOKEN", "FACEBOOK_ACCESS_TOKEN")
    ensures r["logLevel"] == EnvEither(env, "THREADS_LOG_LEVEL", "LOG_LEVEL")
  {
    map[
      "appId" := EnvEither(env, "THREADS_APP_ID", "FACEBOOK_APP_ID"),
      "appSecret" := EnvEither(env, "THREADS_APP_SECRET", "FACEBOOK_APP_SECRET"),
      "accessToken" := EnvEither(env, "THREADS_ACCESS_TOKEN", "FACEBOOK_ACCESS_TOKEN"),
      "redirectUri" := EnvVar(env, "THREADS_REDIRECT_URI"),
      "apiVersion" := EnvVar(env, "THREADS_API_VERSION"),
      "dryRun" := Bool("THREADS_DRY_RUN" in env && env["THREADS_DRY_RUN"] == "true"),
      "logLevel" := EnvEither(env, "THREADS_LOG_LEVEL", "LOG_LEVEL")]
  }

  /** What the config file contributes: nothing unless it parsed. */
  function FileSettings(file: ConfigFile): (r: Settings)
    ensures !file.Parsed? ==> r == map[]
  {
    if file.Parsed? then file.settings else map[]
  }

  /** `{...defaults, ...configFile, ...envConfig}` (lib/config.js:51-55): a later source wins every key it has. */
  function Merged(env: Env, file: ConfigFile): (r: Settings)
    ensures r.Keys == Defaults.Keys + FileSettings(file).Keys + EnvKeys
    ensures forall k :: k in EnvKeys ==> r[k] == EnvSettings(env)[k]
    ensures forall k :: k in FileSettings(file) && k !in EnvKeys ==> r[k] == FileSettings(file)[k]
  {
    Defaults + FileSettings(file) + EnvSettings(env)
  }

  /** The settings without their null and undefined entries. */
  function Stripped(s: Settings): (r: Settings)
    ensures forall k :: k in r <==> k in s && !Nullish(s[k])
    ensures forall k :: k in r ==> r[k] == s[k]
  {
    map k | k in s && !Nullish(s[k]) :: s[k]
  }

  /** `loadConfig`: merge the sources, then delete each key whose value is null or undefined. */
  method LoadConfig(env: Env, file: ConfigFile) returns (config: Settings)
    ensures config == Stripped(Merged(env, file))
  {
    var merged := Merged(env, file);
    config := merged;
    var keys := merged.Keys;
    while keys != {}
      invariant keys <= merged.Keys
      invariant forall k :: k in config <==> k in merged && (k in keys || !Nullish(merged[k]))
      invariant forall k :: k in config ==> config[k] == merged[k]
      decreases keys
    {
      var k :| k in keys;
      if Nullish(config[k]) {
        config := config - {k};
      }
      keys := keys - {k};
    }
  }

  /**
   * After loading, no key holds null or undefined, `dryRun` is always present
   * and says whether THREADS_DRY_RUN is "true", and a key outside the
   * environment mapping keeps its config-file value unless that is null.
   */
  lemma LoadedShape(env: Env, file: ConfigFile)
    ensures var c := Stripped(Merged(env, file));
      && (forall k :: k in c ==> !Nullish(c[k]))
      && "dryRun" in c && c["dryRun"] == Bool("THREADS_DRY_RUN" in env && env["THREADS_DRY_RUN"] == "true")
      && forall k :: k in FileSettings(file) && k !in EnvKeys && !Nullish(FileSettings(file)[k]) ==>
           k in c && c[k] == FileSettings(file)[k]
  {
  }

  /**
   * For each of the seven environment keys the environment decides alone:
   * the key is present iff its environment value is defined, and then holds
   * that value, whatever the file and the defaults say.
   */
  lemma EnvDecides(env: Env, file: ConfigFile, k: string)
    requires k in EnvKeys
    ensures var c := Stripped(Merged(env, file));
      (k in c <==> !Nullish(EnvSettings(env)[k])) && (k in c ==> c[k] == EnvSettings(env)[k])
  {
  }

  /** An unreadable or malformed config file counts as no file. */
  lemma MalformedIsNoFile(env: Env)
    ensures Stripped(Merged(env, Malformed)) == Stripped(Merged(env, NoFile))
  {
  }

  /** The message `validateConfig` throws with, naming the missing required keys. */
  const MissingAccessToken := "Missing required configuration: accessToken"

  /** `validateConfig`: fails iff `accessToken` is absent or falsy. */
  function ValidateConfig(config: Settings): (r: Result<bool>)
    ensures r.Failure? <==> "accessToken" !in config || !Truthy(config["accessToken"])
    ensures r.Failure? ==> r.error == MissingAccessToken
    ensures r.Success? ==> r.value
  {
    if "accessToken" in config && Truthy(config["accessToken"]) then Success(true)
    else Failure(MissingAccessToken)
  }

  /**
   * As written, an access token given only in the config file is discarded:
   * with no token in the environment the loaded configuration fails
   * validation. Likewise the default API version is lost.
   */
  lemma FileTokenDiscarded(token: string)
    requires token != ""
    ensures var c := Stripped(Merged(map[], Parsed(map["accessToken" := Str(token)])));
      ValidateConfig(c).Failure? && "apiVersion" !in c
  {
    var c := Stripped(Merged(map[], Parsed(map["accessToken" := Str(token)])));
    assert EnvSettings(map[])["accessToken"] == Undefined;
    assert "accessToken" !in c;
  }

  /**
   * The environment mapping as intended: like `EnvSettings`, except that an
   * unset THREADS_DRY_RUN leaves `dryRun` undefined instead of false.
   */
  function IntendedEnv(env: Env): (r: Settings)
    ensures r.Keys == EnvKeys
    ensures forall k :: k in EnvKeys && k != "dryRun" ==> r[k] == EnvSettings(env)[k]
    ensures "THREADS_DRY_RUN" in env ==> r["dryRun"] == EnvSettings(env)["dryRun"]
    ensures "THREADS_DRY_RUN" !in env ==> r["dryRun"] == Undefined
  {
    EnvSettings(env)["dryRun" := if "THREADS_DRY_RUN" in env then Bool(env["THREADS_DRY_RUN"] == "true") else Undefined]
  }

  /** The intended environment mapping without its undefined entries: a variable only overrides when it is set. */
  function DefinedEnv(env: Env): Settings {
    Stripped(IntendedEnv(env))
  }

  /**
   * The merge the priority comment of lib/config.js:11-12 describes:
   * environment over config file over defaults, where an unset variable
   * (THREADS_DRY_RUN included) does not override.
   */
  function IntendedConfig(env: Env, file: ConfigFile): (r: Settings)
    ensures forall k :: k in r ==> !Nullish(r[k])
  {
    Stripped(Defaults + FileSettings(file) + DefinedEnv(env))
  }

  /**
   * With the intended merge every key keeps the value of the highest-priority
   * source that defines it, and every default key stays present.
   */
  lemma IntendedPriority(env: Env, file: ConfigFile, k: string)
    ensures var c := IntendedConfig(env, file);
      var e := IntendedEnv(env);
      var f := FileSettings(file);
      && (k in EnvKeys && !Nullish(e[k]) ==> k in c && c[k] == e[k])
      && ((k !in EnvKeys || Nullish(e[k])) && k in f && !Nullish(f[k]) ==> k in c && c[k] == f[k])
      && ((k !in EnvKeys || Nullish(e[k])) && k !in f && k in Defaults ==> k in c && c[k] == Defaults[k])
  {
    var e, f, d := IntendedEnv(env), FileSettings(file), DefinedEnv(env);
    var merged := Defaults + f + d;
    assert k in d <==> k in EnvKeys && !Nullish(e[k]);
    if k in d {
      assert merged[k] == e[k];
    } else if k in f {
      assert merged[k] == f[k];
    } else if k in Defaults {
      assert merged[k] == Defaults[k];
      DefaultsDefined(k);
    }
  }

  lemma DefaultsDefined(k: string)
    requires k in Defaults
    ensures !Nullish(Defaults[k])
  {
  }

  /**
   * With the intended merge an unset THREADS_DRY_RUN keeps the file's
   * `dryRun`, and the default `false` when the file has none.
   */
  lemma IntendedDryRun(env: Env, file: ConfigFile)
    requires "THREADS_DRY_RUN" !in env
    ensures var c := IntendedConfig(env, file);
      var f := FileSettings(file);
      && ("dryRun" in f && !Nullish(f["dryRun"]) ==> c["dryRun"] == f["dryRun"])
      && ("dryRun" !in f ==> c["dryRun"] == Bool(false))
  {
    IntendedPriority(env, file, "dryRun");
  }
}
