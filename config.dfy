/** `AppConfig::from_env` and `get_target_directory`. */
module Config {
  import opened Base
  import opened Text
  import opened Utils
  import opened Fs

  const DefaultPort: nat := 4444
  const U16Max: nat := 65535

  /** The text `server_port` is parsed from: SERVER_PORT, else
      APPLICATION_PORT, else "4444". */
  function ServerPortText(env: Env): (t: string)
    ensures "SERVER_PORT" in env ==> t == env["SERVER_PORT"]
    ensures "SERVER_PORT" !in env && "APPLICATION_PORT" in env ==> t == env["APPLICATION_PORT"]
    ensures "SERVER_PORT" !in env && "APPLICATION_PORT" !in env ==> t == "4444"
  {
    if "SERVER_PORT" in env then env["SERVER_PORT"]
    else VarOr(env, "APPLICATION_PORT", "4444")
  }

  /** `server_port`: the chosen text parsed as a `u16`, 4444 when it does
      not parse. */
  function ServerPort(env: Env): (port: nat)
    ensures port <= U16Max
    ensures ParseUnsigned(ServerPortText(env), U16Max).Some? ==> port == ParseUnsigned(ServerPortText(env), U16Max).value
    ensures ParseUnsigned(ServerPortText(env), U16Max).None? ==> port == DefaultPort
  {
    ParseUnsigned(ServerPortText(env), U16Max).GetOr(DefaultPort)
  }

  /** The default text "4444" is the decimal form of 4444 and parses back
      to it. */
  lemma {:induction false} DefaultPortParses()
    ensures NatToString(DefaultPort) == "4444"
    ensures ParseUnsigned("4444", U16Max) == Some(DefaultPort)
  {
    assert NatToString(4) == "4";
    assert NatToString(44) == "44";
    assert NatToString(444) == "444";
    ParseNatToString(DefaultPort, U16Max);
  }

  /** A port written in SERVER_PORT wins; without SERVER_PORT, one written
      in APPLICATION_PORT is used; without either the port is 4444. */
  lemma {:induction false} ServerPortPrecedence(env: Env, port: nat)
    requires port <= U16Max
    ensures "SERVER_PORT" !in env && "APPLICATION_PORT" !in env ==> ServerPort(env) == 4444
    ensures ServerPort(env["SERVER_PORT" := NatToString(port)]) == port
    ensures "SERVER_PORT" !in env ==> ServerPort(env["APPLICATION_PORT" := NatToString(port)]) == port
  {
    ParseNatToString(port, U16Max);
    DefaultPortParses();
    var e2 := env["APPLICATION_PORT" := NatToString(port)];
    if "SERVER_PORT" !in env {
      assert "SERVER_PORT" !in e2;
    }
  }

  /** A SERVER_PORT that does not parse gives 4444 even when
      APPLICATION_PORT holds a valid port: the fallback happens after the
      choice of variable, not before. */
  lemma {:induction false} InvalidServerPortIgnoresApplicationPort()
    ensures ServerPort(map["SERVER_PORT" := "http", "APPLICATION_PORT" := "30000"]) == 4444
  {
    var env := map["SERVER_PORT" := "http", "APPLICATION_PORT" := "30000"];
    assert ServerPortText(env) == "http";
    assert !IsDigit('h');
  }

  /** `static_files_dir`. */
  function StaticFilesDir(env: Env): string { VarOr(env, "STATIC_FILES_DIR", "static") }

  /** `server_host`. */
  function ServerHost(env: Env): string { VarOr(env, "SERVER_HOST", "0.0.0.0") }

  /** The `--hostname` passed to Foundry. */
  function FoundryHost(env: Env): string { VarOr(env, "APPLICATION_HOST", "foundry.vtt") }

  const PortFlag: string := "--port="

  /** `foundry_args`. */
  function FoundryArgs(env: Env, port: nat): (args: seq<string>)
    ensures |args| == 5
    ensures args[0] == "--dataPath=" + DataDir(env)
    ensures |args[1]| > |PortFlag|
    ensures args[1][..|PortFlag|] == PortFlag && args[1][|PortFlag|..] == NatToString(port)
    ensures args[2] == "--hostname=" + FoundryHost(env)
    ensures args[3] == "--noupnp" && args[4] == "--proxySSL"
  {
    var portArg := PortFlag + NatToString(port);
    assert portArg[..|PortFlag|] == PortFlag && portArg[|PortFlag|..] == NatToString(port);
    ["--dataPath=" + DataDir(env), portArg, "--hostname=" + FoundryHost(env), "--noupnp", "--proxySSL"]
  }

  /** The port handed to Foundry is the one the installer listens on: parsing
      the `--port=` argument back gives `server_port`. */
  lemma {:induction false} FoundryPortArgRoundTrip(env: Env)
    ensures ParseUnsigned(FoundryArgs(env, ServerPort(env))[1][|PortFlag|..], U16Max) == Some(ServerPort(env))
  {
    ParseNatToString(ServerPort(env), U16Max);
  }

  /** Where `get_target_directory` looks: a variable's value, or the
      fallback `cwd/tmp` (which it creates), or nowhere because the current
      directory is unavailable. */
  datatype TargetChoice = FromVar(dir: string) | Fallback(dir: string) | NoCwd

  function TargetChoiceOf(env: Env, cwd: Option<string>): (c: TargetChoice)
    ensures "TARGET_DIR" in env ==> c == FromVar(env["TARGET_DIR"])
    ensures "TARGET_DIR" !in env && "APPLICATION_DIR" in env ==> c == FromVar(env["APPLICATION_DIR"])
    ensures "TARGET_DIR" !in env && "APPLICATION_DIR" !in env ==>
      c == if cwd.Some? then Fallback(PathPush(cwd.value, "tmp")) else NoCwd
  {
    if "TARGET_DIR" in env then FromVar(env["TARGET_DIR"])
    else if "APPLICATION_DIR" in env then FromVar(env["APPLICATION_DIR"])
    else if cwd.Some? then Fallback(PathPush(cwd.value, "tmp"))
    else NoCwd
  }

  /** `get_target_directory`: the directory, or the message of the `expect`
      that panics. `cwd` is `env::current_dir()`; `createFault` the outcome
      of creating the fallback directory. */
  function TargetDirectory(env: Env, cwd: Option<string>, createFault: Option<IoError>): (r: Result<string, string>)
    ensures TargetChoiceOf(env, cwd).FromVar? ==> r == Ok(TargetChoiceOf(env, cwd).dir)
    ensures TargetChoiceOf(env, cwd).Fallback? ==>
      r == if createFault.None? then Ok(TargetChoiceOf(env, cwd).dir) else Err("Failed to create target directory")
    ensures TargetChoiceOf(env, cwd).NoCwd? ==> r == Err("Failed to get current directory")
  {
    match TargetChoiceOf(env, cwd)
    case FromVar(dir) => Ok(dir)
    case Fallback(dir) => if createFault.None? then Ok(dir) else Err("Failed to create target directory")
    case NoCwd => Err("Failed to get current directory")
  }

  /** The directories after `get_target_directory` ran: only the fallback
      creates one. */
  function TargetDirectoryDirs(env: Env, cwd: Option<string>, createFault: Option<IoError>, dirs: set<string>): set<string>
  {
    var c := TargetChoiceOf(env, cwd);
    if c.Fallback? && createFault.None? then dirs + {c.dir} else dirs
  }

  method GetTargetDirectory(env: Env, cwd: Option<string>, fs: FileSystem, createFault: Option<IoError>)
    returns (r: Result<string, string>)
    modifies fs
    ensures r == TargetDirectory(env, cwd, createFault)
    ensures fs.dirs == TargetDirectoryDirs(env, cwd, createFault, old(fs.dirs))
    ensures fs.files == old(fs.files)
  {
    if "TARGET_DIR" in env {
      return Ok(env["TARGET_DIR"]);
    }
    if "APPLICATION_DIR" in env {
      return Ok(env["APPLICATION_DIR"]);
    }
    if cwd.None? {
      return Err("Failed to get current directory");
    }
    var dir := PathPush(cwd.value, "tmp");
    var created := fs.CreateDirAll(dir, createFault);
    if created.Err? {
      return Err("Failed to create target directory");
    }
    return Ok(dir);
  }

  /** When `get_target_directory` returns, its directory exists: a chosen
      variable is taken on trust, but the fallback is created first. */
  lemma {:induction false} FallbackExists(env: Env, cwd: Option<string>, createFault: Option<IoError>, dirs: set<string>)
    requires TargetChoiceOf(env, cwd).Fallback? && TargetDirectory(env, cwd, createFault).Ok?
    ensures TargetDirectory(env, cwd, createFault).value in TargetDirectoryDirs(env, cwd, createFault, dirs)
  {
  }

  datatype AppConfig = AppConfig(
    staticFilesDir: string,
    serverPort: nat,
    serverHost: string,
    targetDir: string,
    foundryArgs: seq<string>,
    foundryScript: string)

  /** `AppConfig::from_env`; `Err` is the panic of `get_target_directory`. */
  function FromEnv(env: Env, cwd: Option<string>, createFault: Option<IoError>): (r: Result<AppConfig, string>)
    ensures r.Ok? <==> TargetDirectory(env, cwd, createFault).Ok?
    ensures r.Ok? ==>
      && r.value.staticFilesDir == StaticFilesDir(env)
      && r.value.serverPort == ServerPort(env)
      && r.value.serverPort <= U16Max
      && r.value.serverHost == ServerHost(env)
      && r.value.foundryArgs == FoundryArgs(env, r.value.serverPort)
      && r.value.targetDir == TargetDirectory(env, cwd, createFault).value
      && r.value.foundryScript == FoundryScriptPath(env)
  {
    var port := ServerPort(env);
    match TargetDirectory(env, cwd, createFault)
    case Err(m) => Err(m)
    case Ok(dir) =>
      Ok(AppConfig(StaticFilesDir(env), port, ServerHost(env), dir, FoundryArgs(env, port), FoundryScriptPath(env)))
  }

  lemma {:induction false} DefaultArgs()
    ensures FoundryArgs(map[], DefaultPort) == ["--dataPath=/foundrydata", "--port=4444", "--hostname=foundry.vtt", "--noupnp", "--proxySSL"]
  {
    var env: Env := map[];
    var args := FoundryArgs(env, DefaultPort);
    assert args[0] == "--dataPath=/foundrydata" by {
      assert DataDir(env) == DefaultDataDir;
    }
    assert args[1] == "--port=4444" by {
      DefaultPortParses();
      assert args[1] == PortFlag + NatToString(DefaultPort);
    }
    assert args[2] == "--hostname=foundry.vtt" by {
      assert FoundryHost(env) == "foundry.vtt";
    }
  }

  /** With none of its variables set, the configuration is the documented
      default one. */
  lemma {:induction false} DefaultConfig(cwd: string)
    ensures var r := FromEnv(map[], Some(cwd), None);
      && r.Ok?
      && r.value.staticFilesDir == "static"
      && r.value.serverPort == 4444
      && r.value.serverHost == "0.0.0.0"
      && r.value.targetDir == PathPush(cwd, "tmp")
      && r.value.foundryArgs == ["--dataPath=/foundrydata", "--port=4444", "--hostname=foundry.vtt", "--noupnp", "--proxySSL"]
      && r.value.foundryScript == "/foundryvtt/main.js"
  {
    var env: Env := map[];
    assert ServerPort(env) == 4444 by {
      DefaultPortParses();
      assert ServerPortText(env) == "4444";
    }
    DefaultArgs();
    FoundryScriptPathShape(env);
    assert TargetDirectory(env, Some(cwd), None) == Ok(PathPush(cwd, "tmp"));
  }
}
