/** `PromptGuardConfig` and `ConfigManager` of src/config/mod.rs: the project
    configuration, its defaults, the API-key check of `new`, and the checks `load`
    makes on a decoded configuration. */
module ProjectConfig {
  import opened Wrappers
  import opened Strings
  import opened Errors

  /** `ConfigMetadata`; `last_applied` is kept as its RFC 3339 text. */
  datatype ConfigMetadata = ConfigMetadata(
    lastApplied: Option<string>,
    cliVersion: string,
    filesManaged: seq<string>,
    backups: seq<string>)

  /** `PromptGuardConfig` */
  datatype PromptGuardConfig = PromptGuardConfig(
    version: string,
    apiKey: string,
    projectId: Option<string>,
    proxyUrl: string,
    providers: seq<string>,
    excludePatterns: seq<string>,
    backupEnabled: bool,
    backupExtension: string,
    envFile: string,
    envVarName: string,
    framework: Option<string>,
    enabled: bool,
    runtimeMode: bool,
    metadata: ConfigMetadata)

  /** `ConfigMetadata::default`; `cliVersion` is the crate's version, fixed when the
      program is built. */
  function DefaultMetadata(cliVersion: string): (m: ConfigMetadata)
    ensures m.lastApplied.None? && m.cliVersion == cliVersion
    ensures m.filesManaged == [] && m.backups == []
  {
    ConfigMetadata(None, cliVersion, [], [])
  }

  /** `default_exclude_patterns`: test files, dependency, build and virtual-environment
      directories. */
  function DefaultExcludePatterns(): seq<string> {
    ["**/*.test.js", "**/*.test.ts", "**/*.spec.js", "**/*.spec.ts",
     "**/node_modules/**", "**/dist/**", "**/__tests__/**", "**/.venv/**", "**/venv/**"]
  }

  /** There are nine default patterns, none repeated, each matching at any depth. */
  lemma DefaultExcludesAnyDepth()
    ensures |DefaultExcludePatterns()| == 9
    ensures forall i :: 0 <= i < |DefaultExcludePatterns()| ==> StartsWith(DefaultExcludePatterns()[i], "**/")
    ensures forall i, j :: 0 <= i < j < |DefaultExcludePatterns()| ==> DefaultExcludePatterns()[i] != DefaultExcludePatterns()[j]
  {
    var ps := DefaultExcludePatterns();
    forall i | 0 <= i < |ps| ensures StartsWith(ps[i], "**/") {
      assert ps[i][..3] == "**/";
    }
    forall i, j | 0 <= i < j < |ps| ensures ps[i] != ps[j] {
      DistinctPatterns(ps, i, j);
    }
  }

  /** Two default patterns differ in length or in a character past `**\/`. */
  lemma DistinctPatterns(ps: seq<string>, i: nat, j: nat)
    requires ps == DefaultExcludePatterns() && i < j < |ps|
    ensures ps[i] != ps[j]
  {
    if j < 4 {
      if i / 2 != j / 2 { assert ps[i][5] != ps[j][5]; } else { assert ps[i][10] != ps[j][10]; }
    } else if i == 5 && j == 8 {
      assert ps[i][3] != ps[j][3];
    } else {
      assert |ps[i]| != |ps[j]|;
    }
  }

  /** The key prefixes `new` accepts: a test key or a production key. */
  predicate ValidApiKey(apiKey: string) {
    StartsWith(apiKey, "pg_sk_test_") || StartsWith(apiKey, "pg_sk_prod_")
  }

  /** `PromptGuardConfig::new` */
  function New(apiKey: string, proxyUrl: string, providers: seq<string>, cliVersion: string): (r: Result<PromptGuardConfig>)
    ensures r.Err? <==> !ValidApiKey(apiKey)
    ensures r.Err? ==> r.error == InvalidApiKey
  {
    if !StartsWith(apiKey, "pg_sk_test_") && !StartsWith(apiKey, "pg_sk_prod_") then Err(InvalidApiKey)
    else Ok(PromptGuardConfig(
      "1.0", apiKey, None, proxyUrl, providers, DefaultExcludePatterns(), true, ".bak",
      ".env", "PROMPTGUARD_API_KEY", None, true, false, DefaultMetadata(cliVersion)))
  }

  /** A new configuration stores the key, the proxy URL and the providers as given,
      has no project or framework, and takes every other field from the defaults. */
  lemma NewStoresInputs(apiKey: string, proxyUrl: string, providers: seq<string>, cliVersion: string)
    requires ValidApiKey(apiKey)
    ensures var c := New(apiKey, proxyUrl, providers, cliVersion).value;
      c.apiKey == apiKey && c.proxyUrl == proxyUrl && c.providers == providers &&
      c.projectId.None? && c.framework.None? &&
      c.version == "1.0" && c.excludePatterns == DefaultExcludePatterns() &&
      c.backupEnabled && c.backupExtension == ".bak" && c.envFile == ".env" &&
      c.envVarName == "PROMPTGUARD_API_KEY" && c.enabled && !c.runtimeMode &&
      c.metadata == DefaultMetadata(cliVersion)
  {
  }

  /** `ConfigManager::DEFAULT_CONFIG_FILE` */
  const DefaultConfigFile := ".promptguard.json"

  /** `ConfigManager`: only the path of the configuration file. */
  datatype ConfigManager = ConfigManager(configPath: string)

  /** `ConfigManager::new`: the path given, or `.promptguard.json` in the current
      directory, which is a parameter here. */
  function NewManager(configPath: Option<string>, currentDir: string): (m: ConfigManager)
    ensures configPath.Some? ==> m.configPath == configPath.value
    ensures configPath.None? ==> EndsWith(m.configPath, "/" + DefaultConfigFile)
  {
    ConfigManager(configPath.GetOr(currentDir + "/" + DefaultConfigFile))
  }

  /** The check `load` makes on `env_file`: no `..` anywhere, and not absolute. */
  predicate SafeEnvFile(envFile: string) {
    !Contains(envFile, "..") && !StartsWith(envFile, "/")
  }

  /** The error `load` gives for an unsafe `env_file`. */
  const UnsafeEnvFileMessage := "Invalid env_file in config: must be relative path within project"

  /** `ConfigManager::load`. Reading and decoding the file are not modelled: `stored`
      is None when the file does not exist, else what reading and decoding gave (an
      `Io` error, a `Config` error from decoding, or the decoded configuration). */
  function Load(stored: Option<Result<PromptGuardConfig>>): (r: Result<PromptGuardConfig>)
    ensures stored.None? ==> r == Err(NotInitialized)
    ensures stored.Some? && stored.value.Err? ==> r == stored.value
    ensures r.Ok? <==> stored.Some? && stored.value.Ok? && SafeEnvFile(stored.value.value.envFile)
    ensures r.Ok? ==> r == stored.value
  {
    match stored
    case None => Err(NotInitialized)
    case Some(Err(e)) => Err(e)
    case Some(Ok(config)) =>
      if Contains(config.envFile, "..") || StartsWith(config.envFile, "/") then
        Err(Config(UnsafeEnvFileMessage))
      else Ok(config)
  }

  /** A decoded configuration is rejected exactly when its `env_file` is unsafe, and
      then with the fixed message. */
  lemma LoadRejectsUnsafe(config: PromptGuardConfig)
    ensures Load(Some(Ok(config))).Err? <==> !SafeEnvFile(config.envFile)
    ensures !SafeEnvFile(config.envFile) ==> Load(Some(Ok(config))) == Err(Config(UnsafeEnvFileMessage))
  {
  }

  /** A configuration made by `new` passes the checks of `load`: loading it gives it
      back unchanged, because its default `env_file`, `.env`, is safe. */
  lemma NewLoads(apiKey: string, proxyUrl: string, providers: seq<string>, cliVersion: string)
    requires ValidApiKey(apiKey)
    ensures var c := New(apiKey, proxyUrl, providers, cliVersion);
      Load(Some(c)) == c
  {
    var env := ".env";
    assert SafeEnvFile(env) by {
      forall i: nat ensures !OccursAt(env, "..", i) {
        if i + 2 <= |env| { Mismatch(env, "..", i, 1); }
      }
      assert env[..1] != "/" by { assert env[..1][0] == '.'; }
    }
  }

  /** Any path with a `..` segment, and any absolute path, is refused. */
  lemma EscapingPathsRefused(dir: string, rest: string)
    ensures !SafeEnvFile(dir + "../" + rest)
    ensures !SafeEnvFile("/" + rest)
  {
    ContainsMiddle(dir, "..", "/" + rest);
    assert dir + "../" + rest == dir + ".." + ("/" + rest);
    assert ("/" + rest)[..1] == "/";
  }
}
