/** The `paths` defaults and `run_command`. The environment is a map from
    variable names to values; `env::var` succeeds exactly for the names in it. */
module Utils {
  import opened Base

  type Env = map<string, string>

  /** `env::var(name).unwrap_or_else(|_| default)`. */
  function VarOr(env: Env, name: string, default: string): (v: string)
    ensures name in env ==> v == env[name]
    ensures name !in env ==> v == default
  {
    if name in env then env[name] else default
  }

  const DefaultApplicationDir: string := "/foundryvtt"
  const DefaultDataDir: string := "/foundrydata"

  /** `paths::APPLICATION_DIR`. */
  function ApplicationDir(env: Env): string
  {
    VarOr(env, "APPLICATION_DIR", DefaultApplicationDir)
  }

  /** `paths::DATA_DIR`. */
  function DataDir(env: Env): string
  {
    VarOr(env, "DATA_DIR", DefaultDataDir)
  }

  /** `PathBuf::push` of a component: an absolute component replaces the
      path; otherwise a `/` is inserted unless the path is empty or already
      ends with one. */
  function PathPush(base: string, component: string): (r: string)
    ensures |component| > 0 && component[0] == '/' ==> r == component
    ensures (|component| == 0 || component[0] != '/') ==>
      && |base| + |component| <= |r|
      && r[..|base|] == base
      && r[|r| - |component|..] == component
      && |base| <= |r| - |component| <= |base| + 1
  {
    if |component| > 0 && component[0] == '/' then component
    else if |base| == 0 || base[|base| - 1] == '/' then base + component
    else base + "/" + component
  }

  /** `paths::FOUNDRY_SCRIPT_PATH`: the application directory with `main.js`
      pushed onto it. */
  function FoundryScriptPath(env: Env): string
  {
    PathPush(ApplicationDir(env), "main.js")
  }

  /** With the default directory the script is `/foundryvtt/main.js`; in
      general it is the application directory, one separator at most, then
      `main.js`. */
  lemma {:induction false} FoundryScriptPathShape(env: Env)
    ensures "APPLICATION_DIR" !in env ==> FoundryScriptPath(env) == "/foundryvtt/main.js"
    ensures var dir := ApplicationDir(env); var p := FoundryScriptPath(env);
      && p[..|dir|] == dir
      && p[|p| - 7..] == "main.js"
      && (p == dir + "main.js" || p == dir + "/main.js")
  {
    var dir := ApplicationDir(env);
    var p := FoundryScriptPath(env);
    assert p == dir + "main.js" || p == dir + "/main.js" by {
      if |dir| == 0 || dir[|dir| - 1] == '/' {
        assert p == dir + "main.js";
      } else {
        assert p == dir + "/main.js";
      }
    }
    if "APPLICATION_DIR" !in env {
      DefaultScriptPath(env);
    }
  }

  /** The default application directory does not end with `/`, so one is
      inserted. */
  lemma {:induction false} DefaultScriptPath(env: Env)
    requires "APPLICATION_DIR" !in env
    ensures FoundryScriptPath(env) == "/foundryvtt/main.js"
  {
    var dir := ApplicationDir(env);
    assert dir == "/foundryvtt" && dir[|dir| - 1] == 't';
    assert FoundryScriptPath(env) == dir + "/" + "main.js";
  }

  /** What `Command::output` produced: whether the exit status was a
      success, and the captured output, already decoded as text. */
  datatype Output = Output(success: bool, stdout: string, stderr: string)

  /** Why `run_command` failed: the command could not be executed. */
  datatype CommandError = ExecFailed(command: string, args: seq<string>, cause: string)

  /** `run_command`: `exec` is what `Command::output` returned. */
  function RunCommand(command: string, args: seq<string>, exec: Result<Output, string>): (r: Result<string, CommandError>)
    ensures r.Ok? <==> exec.Ok?
    ensures r.Ok? ==> r.value == exec.value.stdout
    ensures r.Err? ==> r.error == ExecFailed(command, args, exec.error)
  {
    match exec
    case Err(cause) => Err(ExecFailed(command, args, cause))
    case Ok(output) => Ok(output.stdout)
  }

  /** A command that ran but exited with a failure status still yields its
      standard output: the status only decides a log line. */
  lemma {:induction false} RunCommandIgnoresStatus(command: string, args: seq<string>, stdout: string, e1: string, e2: string)
    ensures RunCommand(command, args, Ok(Output(false, stdout, e1)))
         == RunCommand(command, args, Ok(Output(true, stdout, e2)))
         == Ok(stdout)
  {
  }
}
