/** Start-up checks run before the installer serves anything: `initialize`
    and the checks it runs in order. */
module Initialization {
  import opened Base
  import opened Text
  import opened Utils
  import opened Config
  import opened Fs

  /** Why `initialize` failed: a command that could not be executed, or a
      check's message. */
  datatype InitError = CommandFailed(cause: CommandError) | Failed(message: string)

  // ---------------------------------------------------------------------
  // print_system_info

  /** The commands `print_system_info` runs, in order. */
  const SystemInfoCommands: seq<(string, seq<string>)> := [
    ("hostname", []),
    ("uname", ["-r"]),
    ("sh", ["-c", "grep PRETTY_NAME /etc/os-release | cut -d= -f2 | tr -d '\"'"]),
    ("sh", ["-c", "lscpu | grep 'Model name' | cut -d: -f2 | sed 's/^ *//'"]),
    ("sh", ["-c", "free -h | awk '/^Mem:/ {print $2}'"]),
    ("sh", ["-c", "df -h / | awk 'NR==2 {print $4}'"]),
    ("node", ["--version"]),
    ("npm", ["--version"])
  ]

  /** The first of `commands` whose execution failed, given what executing
      each produced; `None` when all of them ran. */
  function FirstExecFailure(commands: seq<(string, seq<string>)>, execs: seq<Result<Output, string>>): (r: Option<CommandError>)
    requires |execs| == |commands|
    ensures r.None? <==> forall i :: 0 <= i < |execs| ==> execs[i].Ok?
    ensures r.Some? ==>
      exists i :: (&& 0 <= i < |execs| && execs[i].Err?
                   && r.value == ExecFailed(commands[i].0, commands[i].1, execs[i].error)
                   && forall j :: 0 <= j < i ==> execs[j].Ok?)
  {
    if execs == [] then None
    else match RunCommand(commands[0].0, commands[0].1, execs[0])
      case Err(e) => Some(e)
      case Ok(_) =>
        var rest := FirstExecFailure(commands[1..], execs[1..]);
        if rest.Some? then
          assert forall j :: 0 <= j < |execs| - 1 ==> execs[1..][j] == execs[j + 1];
          rest
        else
          assert forall j :: 1 <= j < |execs| ==> execs[j] == execs[1..][j - 1];
          rest
  }

  /** `print_system_info`: fails with the first command that could not run. */
  function SystemInfo(execs: seq<Result<Output, string>>): Result<(), InitError>
    requires |execs| == |SystemInfoCommands|
  {
    match FirstExecFailure(SystemInfoCommands, execs)
    case Some(e) => Err(CommandFailed(e))
    case None => Ok(())
  }

  // ---------------------------------------------------------------------
  // check_required_env

  const RequiredVars: seq<string> := ["APPLICATION_DIR", "DATA_DIR", "APPLICATION_HOST"]

  /** The names among `names` that are not set, in order. */
  function Unset(env: Env, names: seq<string>): (r: seq<string>)
    ensures forall x :: x in r <==> x in names && x !in env
  {
    if names == [] then []
    else Unset(env, names[..|names| - 1]) + (if names[|names| - 1] in env then [] else [names[|names| - 1]])
  }

  predicate AllRequiredSet(env: Env)
  {
    forall i :: 0 <= i < |RequiredVars| ==> RequiredVars[i] in env
  }

  /** `check_required_env`: every required variable is looked up, and each
      unset one is reported, before the check fails. */
  method CheckRequiredEnv(env: Env) returns (r: Result<(), InitError>, reported: seq<string>)
    ensures reported == Unset(env, RequiredVars)
    ensures r == if AllRequiredSet(env) then Ok(()) else Err(Failed("Missing required environment variables"))
  {
    var missing := false;
    reported := [];
    for i := 0 to |RequiredVars|
      invariant reported == Unset(env, RequiredVars[..i])
      invariant missing <==> exists j :: 0 <= j < i && RequiredVars[j] !in env
    {
      assert RequiredVars[..i + 1][..i] == RequiredVars[..i];
      var name := RequiredVars[i];
      if name !in env {
        reported := reported + [name];
        missing := true;
      }
    }
    assert RequiredVars[..|RequiredVars|] == RequiredVars;
    if missing {
      return Err(Failed("Missing required environment variables")), reported;
    }
    return Ok(()), reported;
  }

  // ---------------------------------------------------------------------
  // validate_env

  const U32Max: nat := 0xFFFF_FFFF

  /** `validate_env`. */
  function ValidateEnv(env: Env): (r: Result<(), InitError>)
    ensures ApplicationDir(env) == DataDir(env) ==> r == Err(Failed("APPLICATION_DIR and DATA_DIR cannot be the same"))
    ensures ApplicationDir(env) != DataDir(env) ==>
      (r.Ok? <==> ParseUnsigned(VarOr(env, "APPLICATION_PORT", "4444"), U32Max).Some?)
    ensures r.Err? && ApplicationDir(env) != DataDir(env) ==> r.error == Failed("Invalid APPLICATION_PORT")
  {
    if ApplicationDir(env) == DataDir(env) then Err(Failed("APPLICATION_DIR and DATA_DIR cannot be the same"))
    else if ParseUnsigned(VarOr(env, "APPLICATION_PORT", "4444"), U32Max).None? then Err(Failed("Invalid APPLICATION_PORT"))
    else Ok(())
  }

  /** With the directory defaults (which differ) and no APPLICATION_PORT,
      validation passes: the port defaults to "4444". */
  lemma {:induction false} ValidateDefaults(env: Env)
    requires "APPLICATION_DIR" !in env && "DATA_DIR" !in env && "APPLICATION_PORT" !in env
    ensures ValidateEnv(env) == Ok(())
  {
    DefaultPortParses();
    ParseNatToString(DefaultPort, U32Max);
  }

  /** Validation parses APPLICATION_PORT as a `u32` while the configuration
      parses the port as a `u16`: "70000" passes validation, yet the server
      falls back to 4444. */
  lemma {:induction false} PortWidthMismatch()
    ensures var env := map["APPLICATION_PORT" := "70000"];
      ValidateEnv(env) == Ok(()) && ServerPort(env) == 4444
  {
    var env := map["APPLICATION_PORT" := "70000"];
    assert NatToString(7) == "7";
    assert NatToString(70) == "70";
    assert NatToString(700) == "700";
    assert NatToString(7000) == "7000";
    assert NatToString(70000) == "70000";
    ParseNatToString(70000, U32Max);
    DigitsValueOfNatToString(70000);
    assert ServerPortText(env) == "70000";
    assert ParseUnsigned("70000", U16Max).None?;
  }

  // ---------------------------------------------------------------------
  // ensure_directories

  /** What the operating system answers for one directory: the outcome of
      creating it (when missing), of reading its metadata (the permission
      mode bits), whether it is a directory, and the outcome of listing it. */
  datatype DirProbe = DirProbe(createFault: Option<IoError>, mode: Result<bv32, IoError>, isDir: bool, readDirFault: Option<IoError>)

  datatype DirCheck = DirCheck(dir: string, probe: DirProbe)

  /** The owner-write bit 0o200. */
  predicate IsWritable(mode: bv32)
  {
    mode & 0x80 != 0
  }

  /** The state of the directory loop: the directories that exist, the
      directories reported as not writable, and the error that stopped it. */
  datatype DirsState = DirsState(dirs: set<string>, notWritable: seq<string>, failure: Option<InitError>)

  function DirStep(s: DirsState, c: DirCheck, files: map<string, seq<byte>>): DirsState
  {
    if s.failure.Some? then s
    else
      var exists_ := c.dir in s.dirs || c.dir in files;
      if !exists_ && c.probe.createFault.Some? then s.(failure := Some(Failed("Failed to create " + c.dir)))
      else
        var dirs := if exists_ then s.dirs else s.dirs + {c.dir};
        match c.probe.mode
        case Err(e) => DirsState(dirs, s.notWritable, Some(Failed(e.message)))
        case Ok(mode) =>
          var warned := s.notWritable + (if IsWritable(mode) then [] else [c.dir]);
          if c.probe.isDir && c.probe.readDirFault.Some? then DirsState(dirs, warned, Some(Failed(c.probe.readDirFault.value.message)))
          else DirsState(dirs, warned, None)
  }

  function DirsFold(checks: seq<DirCheck>, st: FsState): DirsState
  {
    if checks == [] then DirsState(st.dirs, [], None)
    else DirStep(DirsFold(checks[..|checks| - 1], st), checks[|checks| - 1], st.files)
  }

  /** What `ensure_directories` returns. */
  function DirectoriesResult(env: Env, st: FsState, appProbe: DirProbe, dataProbe: DirProbe): Result<(), InitError>
  {
    var s := DirsFold([DirCheck(ApplicationDir(env), appProbe), DirCheck(DataDir(env), dataProbe)], st);
    if s.failure.Some? then Err(s.failure.value) else Ok(())
  }

  /** `ensure_directories` over the application and data directories.
      `notWritable` is the directories the warning names. */
  method EnsureDirectories(env: Env, fs: FileSystem, appProbe: DirProbe, dataProbe: DirProbe)
    returns (r: Result<(), InitError>, notWritable: seq<string>)
    modifies fs
    ensures var s := DirsFold([DirCheck(ApplicationDir(env), appProbe), DirCheck(DataDir(env), dataProbe)], old(fs.State()));
      && fs.dirs == s.dirs && fs.files == old(fs.files)
      && notWritable == s.notWritable
      && r == (if s.failure.Some? then Err(s.failure.value) else Ok(()))
  {
    var checks := [DirCheck(ApplicationDir(env), appProbe), DirCheck(DataDir(env), dataProbe)];
    notWritable := [];
    for i := 0 to |checks|
      invariant var s := DirsFold(checks[..i], old(fs.State()));
        s.failure.None? && fs.dirs == s.dirs && fs.files == old(fs.files) && notWritable == s.notWritable
    {
      assert checks[..i + 1][..i] == checks[..i];
      var stop;
      stop, notWritable := CheckDirectory(checks[i], fs, notWritable, DirsFold(checks[..i], old(fs.State())));
      if stop.Some? {
        FoldStopsAt(checks, i + 1, old(fs.State()));
        return Err(stop.value), notWritable;
      }
    }
    assert checks[..|checks|] == checks;
    r := Ok(());
  }

  /** One iteration of the directory loop, on top of the loop state `s`. */
  method CheckDirectory(c: DirCheck, fs: FileSystem, notWritable: seq<string>, ghost s: DirsState)
    returns (stop: Option<InitError>, warned: seq<string>)
    requires s.failure.None? && fs.dirs == s.dirs && notWritable == s.notWritable
    modifies fs
    ensures var t := DirStep(s, c, old(fs.files));
      stop == t.failure && fs.dirs == t.dirs && fs.files == old(fs.files) && warned == t.notWritable
  {
    warned := notWritable;
    if !fs.Exists(c.dir) {
      var created := fs.CreateDirAll(c.dir, c.probe.createFault);
      if created.Err? {
        return Some(Failed("Failed to create " + c.dir)), warned;
      }
    }
    match c.probe.mode {
      case Err(e) =>
        return Some(Failed(e.message)), warned;
      case Ok(mode) =>
        if !IsWritable(mode) {
          warned := warned + [c.dir];
        }
        if c.probe.isDir && c.probe.readDirFault.Some? {
          return Some(Failed(c.probe.readDirFault.value.message)), warned;
        }
    }
    return None, warned;
  }

  lemma {:induction false} FoldStopsAt(checks: seq<DirCheck>, k: nat, st: FsState)
    requires k <= |checks| && DirsFold(checks[..k], st).failure.Some?
    ensures DirsFold(checks, st) == DirsFold(checks[..k], st)
    decreases |checks|
  {
    if k < |checks| {
      assert checks[..|checks| - 1][..k] == checks[..k];
      FoldStopsAt(checks[..|checks| - 1], k, st);
    } else {
      assert checks[..k] == checks;
    }
  }

  /** Once the loop got past a directory, that directory exists: a missing
      one is created before its metadata is read. */
  lemma {:induction false} CheckedDirsExist(checks: seq<DirCheck>, st: FsState)
    requires DirsFold(checks, st).failure.None?
    ensures forall i :: 0 <= i < |checks| ==> checks[i].dir in DirsFold(checks, st).dirs || checks[i].dir in st.files
    ensures st.dirs <= DirsFold(checks, st).dirs
  {
    if checks != [] {
      var init := checks[..|checks| - 1];
      CheckedDirsExist(init, st);
      forall i | 0 <= i < |checks|
        ensures checks[i].dir in DirsFold(checks, st).dirs || checks[i].dir in st.files
      {
        if i < |init| {
          assert checks[i] == init[i];
        }
      }
    }
  }

  /** A missing directory that cannot be created stops the loop with
      "Failed to create <dir>", whatever its metadata would have said. */
  lemma {:induction false} CreateFailureStops(s: DirsState, c: DirCheck, files: map<string, seq<byte>>, mode: Result<bv32, IoError>)
    requires s.failure.None? && c.dir !in s.dirs && c.dir !in files && c.probe.createFault.Some?
    ensures DirStep(s, c, files) == DirStep(s, c.(probe := c.probe.(mode := mode)), files)
    ensures DirStep(s, c, files).failure == Some(Failed("Failed to create " + c.dir))
  {
  }

  /** A directory without the owner-write bit only draws a warning: the
      outcome is the same as if the bit were set, and the directory is
      named in the warnings exactly when the bit is clear. */
  lemma {:induction false} NotWritableOnlyWarns(s: DirsState, c: DirCheck, files: map<string, seq<byte>>, m: bv32)
    requires s.failure.None? && c.probe.mode == Ok(m)
    ensures DirStep(s, c, files).failure == DirStep(s, c.(probe := c.probe.(mode := Ok(m | 0x80))), files).failure
    ensures !(c.dir !in s.dirs && c.dir !in files && c.probe.createFault.Some?) ==>
      DirStep(s, c, files).notWritable == s.notWritable + (if IsWritable(m) then [] else [c.dir])
  {
    assert (m | 0x80) & 0x80 != 0;
  }

  // ---------------------------------------------------------------------
  // initialize

  datatype Stage = Banner | SystemInfoStage | RequiredEnv | Validate | Directories

  const AllStages: seq<Stage> := [Banner, SystemInfoStage, RequiredEnv, Validate, Directories]

  /** What the start-up checks would return, stage by stage, on the given
      environment and system. */
  function StageResults(env: Env, st: FsState, execs: seq<Result<Output, string>>, appProbe: DirProbe, dataProbe: DirProbe): (rs: seq<Result<(), InitError>>)
    requires |execs| == |SystemInfoCommands|
    ensures |rs| == |AllStages|
  {
    [ Ok(()),
      SystemInfo(execs),
      if AllRequiredSet(env) then Ok(()) else Err(Failed("Missing required environment variables")),
      ValidateEnv(env),
      DirectoriesResult(env, st, appProbe, dataProbe) ]
  }

  /** The stages that run when each would return `results[i]`: up to and
      including the first that fails. */
  function Ran(results: seq<Result<(), InitError>>): (n: nat)
    ensures n <= |results|
    ensures forall i :: 0 <= i < n - 1 ==> results[i].Ok?
    ensures n < |results| ==> n > 0 && results[n - 1].Err?
    ensures n == |results| ==> forall i :: 0 <= i < n - 1 ==> results[i].Ok?
  {
    if results == [] then 0
    else if results[0].Err? then 1
    else
      var n := 1 + Ran(results[1..]);
      assert forall i :: 1 <= i < n - 1 ==> results[i] == results[1..][i - 1];
      n
  }

  /** What `initialize` returns and which stages it ran. */
  datatype Startup = Startup(result: Result<(), InitError>, ran: seq<Stage>)

  function InitializeSpec(env: Env, st: FsState, execs: seq<Result<Output, string>>, appProbe: DirProbe, dataProbe: DirProbe): Startup
    requires |execs| == |SystemInfoCommands|
  {
    if SystemInfo(execs).Err? then Startup(SystemInfo(execs), [Banner, SystemInfoStage])
    else if !AllRequiredSet(env) then Startup(Err(Failed("Missing required environment variables")), [Banner, SystemInfoStage, RequiredEnv])
    else if ValidateEnv(env).Err? then Startup(ValidateEnv(env), [Banner, SystemInfoStage, RequiredEnv, Validate])
    else Startup(DirectoriesResult(env, st, appProbe, dataProbe), AllStages)
  }

  /** `initialize`. `execs` is what running each system-information command
      produced; the directory stage's effects are those of `EnsureDirectories`. */
  method Initialize(env: Env, fs: FileSystem, execs: seq<Result<Output, string>>, appProbe: DirProbe, dataProbe: DirProbe)
    returns (r: Result<(), InitError>, ran: seq<Stage>)
    requires |execs| == |SystemInfoCommands|
    modifies fs
    ensures Startup(r, ran) == InitializeSpec(env, old(fs.State()), execs, appProbe, dataProbe)
  {
    ran := [Banner, SystemInfoStage];
    r := SystemInfo(execs);
    if r.Err? {
      return;
    }
    ran := [Banner, SystemInfoStage, RequiredEnv];
    var reported;
    r, reported := CheckRequiredEnv(env);
    if r.Err? {
      return;
    }
    ran := [Banner, SystemInfoStage, RequiredEnv, Validate];
    r := ValidateEnv(env);
    if r.Err? {
      return;
    }
    ran := AllStages;
    var notWritable;
    r, notWritable := EnsureDirectories(env, fs, appProbe, dataProbe);
    assert r == DirectoriesResult(env, old(fs.State()), appProbe, dataProbe);
  }

  /** Start-up succeeds exactly when every stage does, and it stops at the
      first that fails: the stages after it do not run. */
  lemma {:induction false} InitializeStopsAtFirstError(env: Env, st: FsState, execs: seq<Result<Output, string>>, appProbe: DirProbe, dataProbe: DirProbe)
    requires |execs| == |SystemInfoCommands|
    ensures var rs := StageResults(env, st, execs, appProbe, dataProbe);
      var s := InitializeSpec(env, st, execs, appProbe, dataProbe);
      && s.ran == AllStages[..Ran(rs)]
      && s.result == rs[Ran(rs) - 1]
      && (s.result.Ok? <==> forall i :: 0 <= i < |rs| ==> rs[i].Ok?)
  {
    var rs := StageResults(env, st, execs, appProbe, dataProbe);
    assert InitializeSpec(env, st, execs, appProbe, dataProbe) == StartupOf(rs);
    StartupOfStopsAtFirstError(rs);
  }

  /** The outcome of start-up when the stages would return `rs`. */
  function StartupOf(rs: seq<Result<(), InitError>>): Startup
    requires |rs| == |AllStages|
  {
    if rs[1].Err? then Startup(rs[1], [Banner, SystemInfoStage])
    else if rs[2].Err? then Startup(rs[2], [Banner, SystemInfoStage, RequiredEnv])
    else if rs[3].Err? then Startup(rs[3], [Banner, SystemInfoStage, RequiredEnv, Validate])
    else Startup(rs[4], AllStages)
  }

  lemma {:induction false} StartupOfStopsAtFirstError(rs: seq<Result<(), InitError>>)
    requires |rs| == |AllStages| && rs[0].Ok?
    ensures StartupOf(rs).ran == AllStages[..Ran(rs)]
    ensures StartupOf(rs).result == rs[Ran(rs) - 1]
    ensures StartupOf(rs).result.Ok? <==> forall i :: 0 <= i < |rs| ==> rs[i].Ok?
  {
    RanIsFirstError(rs);
    if rs[1].Err? {
      assert Ran(rs) == 2;
    } else if rs[2].Err? {
      assert Ran(rs) == 3;
    } else if rs[3].Err? {
      assert Ran(rs) == 4;
    } else {
      RanAllOk(rs);
      assert AllStages[..5] == AllStages;
    }
  }

  lemma {:induction false} RanAllOk(rs: seq<Result<(), InitError>>)
    requires forall j :: 0 <= j < |rs| - 1 ==> rs[j].Ok?
    ensures Ran(rs) == |rs|
  {
    if rs != [] && rs[0].Ok? {
      assert forall j :: 0 <= j < |rs[1..]| - 1 ==> rs[1..][j] == rs[j + 1];
      RanAllOk(rs[1..]);
    }
  }

  lemma {:induction false} RanIsFirstError(rs: seq<Result<(), InitError>>)
    ensures forall k :: 0 <= k < |rs| && rs[k].Err? && (forall j :: 0 <= j < k ==> rs[j].Ok?) ==> Ran(rs) == k + 1
  {
    if rs != [] && rs[0].Ok? {
      RanIsFirstError(rs[1..]);
      forall k | 0 <= k < |rs| && rs[k].Err? && (forall j :: 0 <= j < k ==> rs[j].Ok?)
        ensures Ran(rs) == k + 1
      {
        assert k > 0;
        assert rs[1..][k - 1] == rs[k];
        assert forall j :: 0 <= j < k - 1 ==> rs[1..][j] == rs[j + 1];
      }
    }
  }
}
