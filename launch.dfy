/** `launch_foundry`: the supervisor that waits for Foundry's script, runs it
    under `npx`, waits for it to exit and starts it again, forever. Time and
    processes are observations; what the loop does is a trace of actions. */
module Launch {
  import opened Base

  /** What starting the child produced: a spawn error, or a child whose
      `wait` returned an exit status (as printed) or an error. */
  datatype SpawnResult = SpawnFailed(message: string) | Spawned(wait: Result<string, string>)

  /** What one iteration of the loop observes: the script is missing, or it
      is present and the spawn went as given. */
  datatype Observation = ScriptMissing | ScriptPresent(spawn: SpawnResult)

  /** What the supervisor does: sleep, start a child, see it exit, or panic. */
  datatype Action = Sleep(seconds: nat) | Spawn(program: string, argv: seq<string>) | Exit(status: Result<string, string>) | Panic(message: string)

  /** `npx --yes node <script> <args...>`. */
  function Argv(script: string, args: seq<string>): (argv: seq<string>)
    ensures |argv| == 3 + |args| && argv[..3] == ["--yes", "node", script] && argv[3..] == args
  {
    ["--yes", "node", script] + args
  }

  const PanicMessage: string := "Failed to spawn FoundryVTT"

  /** The actions of one iteration. */
  function Iteration(o: Observation, script: string, args: seq<string>): seq<Action>
  {
    match o
    case ScriptMissing => [Sleep(10)]
    case ScriptPresent(SpawnFailed(m)) => [Panic(PanicMessage + ": " + m)]
    case ScriptPresent(Spawned(w)) => [Spawn("npx", Argv(script, args)), Exit(w), Sleep(5)]
  }

  predicate Panicked(trace: seq<Action>)
  {
    |trace| > 0 && trace[|trace| - 1].Panic?
  }

  /** The trace of the loop over `observations`, one per iteration; a panic
      ends the process, so nothing follows it. */
  function Trace(observations: seq<Observation>, script: string, args: seq<string>): seq<Action>
  {
    if observations == [] then []
    else
      var t := Trace(observations[..|observations| - 1], script, args);
      if Panicked(t) then t else t + Iteration(observations[|observations| - 1], script, args)
  }

  /** The supervisor, run for as many iterations as there are observations:
      the loop itself has no exit, so the trace only ends at a panic. */
  method LaunchFoundry(args: seq<string>, script: string, observations: seq<Observation>) returns (trace: seq<Action>)
    ensures trace == Trace(observations, script, args)
  {
    trace := [];
    var i := 0;
    while i < |observations|
      invariant 0 <= i <= |observations|
      invariant trace == Trace(observations[..i], script, args) && !Panicked(trace)
    {
      assert observations[..i + 1][..i] == observations[..i];
      match observations[i] {
        case ScriptMissing =>
          trace := trace + [Sleep(10)];
          i := i + 1;
          continue;
        case ScriptPresent(spawn) =>
          if spawn.SpawnFailed? {
            trace := trace + [Panic(PanicMessage + ": " + spawn.message)];
            PanicIsFinal(observations, i + 1, script, args);
            return;
          }
          trace := trace + [Spawn("npx", Argv(script, args))];
          trace := trace + [Exit(spawn.wait)];
          trace := trace + [Sleep(5)];
      }
      i := i + 1;
    }
    assert observations[..i] == observations;
  }

  // ---------------------------------------------------------------------
  // Properties

  /** Once the trace has panicked, later observations add nothing. */
  lemma {:induction false} PanicIsFinal(observations: seq<Observation>, k: nat, script: string, args: seq<string>)
    requires k <= |observations| && Panicked(Trace(observations[..k], script, args))
    ensures Trace(observations, script, args) == Trace(observations[..k], script, args)
    decreases |observations|
  {
    if k < |observations| {
      assert observations[..|observations| - 1][..k] == observations[..k];
      PanicIsFinal(observations[..|observations| - 1], k, script, args);
    } else {
      assert observations[..k] == observations;
    }
  }

  /** There is no way out of the loop but a panic: every iteration that
      does not follow a panic adds at least one action, and only a failed
      spawn panics. */
  lemma {:induction false} NoShutdownPath(observations: seq<Observation>, o: Observation, script: string, args: seq<string>)
    requires !Panicked(Trace(observations, script, args))
    ensures |Trace(observations + [o], script, args)| > |Trace(observations, script, args)|
    ensures Panicked(Trace(observations + [o], script, args)) <==> o.ScriptPresent? && o.spawn.SpawnFailed?
  {
    assert (observations + [o])[..|observations|] == observations;
  }

  /** While the script is missing the loop only sleeps 10 seconds at a time. */
  lemma {:induction false} MissingScriptOnlySleeps(observations: seq<Observation>, script: string, args: seq<string>)
    requires forall i :: 0 <= i < |observations| ==> observations[i] == ScriptMissing
    ensures Trace(observations, script, args) == seq(|observations|, _ => Sleep(10))
  {
    if observations != [] {
      var init := observations[..|observations| - 1];
      MissingScriptOnlySleeps(init, script, args);
    }
  }

  /** The shape every trace has: each child is started as `npx` with
      exactly the argv above and is seen to exit right after; each exit is
      followed by the fixed 5-second sleep; sleeps are 10 or 5 seconds; a
      panic can only be the last action. */
  ghost predicate WellFormed(t: seq<Action>, script: string, args: seq<string>)
  {
    SpawnsAwaited(t, script, args) && ExitsThenSleep(t) && SleepsFixed(t) && PanicLast(t)
  }

  ghost predicate SpawnsAwaited(t: seq<Action>, script: string, args: seq<string>)
  {
    forall i :: 0 <= i < |t| && t[i].Spawn? ==>
      t[i].program == "npx" && t[i].argv == Argv(script, args) && i + 1 < |t| && t[i + 1].Exit?
  }

  ghost predicate ExitsThenSleep(t: seq<Action>)
  {
    forall i :: 0 <= i < |t| && t[i].Exit? ==> 0 < i && t[i - 1].Spawn? && i + 1 < |t| && t[i + 1] == Sleep(5)
  }

  ghost predicate SleepsFixed(t: seq<Action>)
  {
    forall i :: 0 <= i < |t| && t[i].Sleep? ==> t[i].seconds == 5 || t[i].seconds == 10
  }

  ghost predicate PanicLast(t: seq<Action>)
  {
    forall i :: 0 <= i < |t| && t[i].Panic? ==> i == |t| - 1
  }

  lemma {:induction false} IterationKeepsWellFormed(t: seq<Action>, o: Observation, script: string, args: seq<string>)
    requires WellFormed(t, script, args) && !Panicked(t)
    ensures WellFormed(t + Iteration(o, script, args), script, args)
  {
    KeepsSpawnsAwaited(t, o, script, args);
    KeepsExitsThenSleep(t, o, script, args);
    KeepsSleepsFixed(t, o, script, args);
    KeepsPanicLast(t, o, script, args);
  }

  lemma {:induction false} KeepsSpawnsAwaited(t: seq<Action>, o: Observation, script: string, args: seq<string>)
    requires SpawnsAwaited(t, script, args)
    ensures SpawnsAwaited(t + Iteration(o, script, args), script, args)
  {
    var piece := Iteration(o, script, args);
    var u := t + piece;
    forall i | 0 <= i < |u| && u[i].Spawn?
      ensures u[i].program == "npx" && u[i].argv == Argv(script, args) && i + 1 < |u| && u[i + 1].Exit?
    {
      if i < |t| {
        assert u[i] == t[i] && u[i + 1] == t[i + 1];
      } else {
        assert u[i] == piece[i - |t|] && u[i + 1] == piece[i + 1 - |t|];
      }
    }
  }

  lemma {:induction false} KeepsExitsThenSleep(t: seq<Action>, o: Observation, script: string, args: seq<string>)
    requires ExitsThenSleep(t)
    ensures ExitsThenSleep(t + Iteration(o, script, args))
  {
    var piece := Iteration(o, script, args);
    var u := t + piece;
    forall i | 0 <= i < |u| && u[i].Exit?
      ensures 0 < i && u[i - 1].Spawn? && i + 1 < |u| && u[i + 1] == Sleep(5)
    {
      if i < |t| {
        assert u[i] == t[i] && u[i - 1] == t[i - 1] && u[i + 1] == t[i + 1];
      } else {
        assert u[i] == piece[i - |t|] && u[i - 1] == piece[i - 1 - |t|] && u[i + 1] == piece[i + 1 - |t|];
      }
    }
  }

  lemma {:induction false} KeepsSleepsFixed(t: seq<Action>, o: Observation, script: string, args: seq<string>)
    requires SleepsFixed(t)
    ensures SleepsFixed(t + Iteration(o, script, args))
  {
    var piece := Iteration(o, script, args);
    var u := t + piece;
    forall i | 0 <= i < |u| && u[i].Sleep? ensures u[i].seconds == 5 || u[i].seconds == 10 {
      if i < |t| {
        assert u[i] == t[i];
      } else {
        assert u[i] == piece[i - |t|];
      }
    }
  }

  lemma {:induction false} KeepsPanicLast(t: seq<Action>, o: Observation, script: string, args: seq<string>)
    requires PanicLast(t) && !Panicked(t)
    ensures PanicLast(t + Iteration(o, script, args))
  {
    var piece := Iteration(o, script, args);
    var u := t + piece;
    forall i | |t| <= i < |u| && u[i].Panic? ensures i == |u| - 1 {
      assert u[i] == piece[i - |t|];
    }
    assert forall i :: 0 <= i < |t| ==> u[i] == t[i];
  }

  lemma {:induction false} TraceWellFormed(observations: seq<Observation>, script: string, args: seq<string>)
    ensures WellFormed(Trace(observations, script, args), script, args)
  {
    if observations != [] {
      var init := observations[..|observations| - 1];
      TraceWellFormed(init, script, args);
      if !Panicked(Trace(init, script, args)) {
        IterationKeepsWellFormed(Trace(init, script, args), observations[|observations| - 1], script, args);
      }
    }
  }

  /** Children started minus children seen to exit. */
  function Live(t: seq<Action>): int
  {
    if t == [] then 0
    else Live(t[..|t| - 1]) + (if t[|t| - 1].Spawn? then 1 else if t[|t| - 1].Exit? then -1 else 0)
  }

  lemma {:induction false} LiveAppend(a: seq<Action>, b: seq<Action>)
    ensures Live(a + b) == Live(a) + Live(b)
    decreases |b|
  {
    if b == [] {
      assert a + b == a;
    } else {
      assert (a + b)[..|a + b| - 1] == a + b[..|b| - 1];
      LiveAppend(a, b[..|b| - 1]);
    }
  }

  /** Each child is awaited before the next is started: at every point of
      the trace at most one child is running, and none between iterations. */
  lemma {:induction false} AtMostOneChild(observations: seq<Observation>, script: string, args: seq<string>)
    ensures var t := Trace(observations, script, args);
      && (!Panicked(t) ==> Live(t) == 0)
      && forall k :: 0 <= k <= |t| ==> 0 <= Live(t[..k]) <= 1
  {
    var t := Trace(observations, script, args);
    if observations == [] {
      assert forall k :: 0 <= k <= |t| ==> t[..k] == [];
    } else {
      var init := observations[..|observations| - 1];
      var t0 := Trace(init, script, args);
      AtMostOneChild(init, script, args);
      if !Panicked(t0) {
        var piece := Iteration(observations[|observations| - 1], script, args);
        assert t == t0 + piece;
        AppendPieceLive(t0, piece);
      }
    }
  }

  /** Appending one iteration's actions to a trace with no child running
      keeps at most one running at every point, and none at its end unless
      it panicked. */
  lemma {:induction false} AppendPieceLive(t0: seq<Action>, piece: seq<Action>)
    requires Live(t0) == 0 && forall k :: 0 <= k <= |t0| ==> 0 <= Live(t0[..k]) <= 1
    requires piece == [Sleep(10)] || (|piece| == 1 && piece[0].Panic?) || (|piece| == 3 && piece[0].Spawn? && piece[1].Exit? && piece[2].Sleep?)
    ensures forall k :: 0 <= k <= |t0 + piece| ==> 0 <= Live((t0 + piece)[..k]) <= 1
    ensures !Panicked(t0 + piece) ==> Live(t0 + piece) == 0
  {
    var t := t0 + piece;
    forall k | 0 <= k <= |t| ensures 0 <= Live(t[..k]) <= 1 {
      if k <= |t0| {
        assert t[..k] == t0[..k];
      } else {
        assert t[..k] == t0 + piece[..k - |t0|];
        LiveAppend(t0, piece[..k - |t0|]);
        PieceLive(piece, k - |t0|);
      }
    }
    LiveAppend(t0, piece);
    PieceLive(piece, |piece|);
    assert piece[..|piece|] == piece;
  }

  lemma {:induction false} PieceLive(piece: seq<Action>, n: nat)
    requires n <= |piece|
    requires piece == [Sleep(10)] || (|piece| == 1 && piece[0].Panic?) || (|piece| == 3 && piece[0].Spawn? && piece[1].Exit? && piece[2].Sleep?)
    ensures 0 <= Live(piece[..n]) <= 1
    ensures n == |piece| && !piece[n - 1].Panic? ==> Live(piece[..n]) == 0
  {
    var p1 := piece[..1];
    assert piece[..0] == [] && p1[..0] == [] && p1[0] == piece[0];
    assert Live(p1) == (if piece[0].Spawn? then 1 else 0);
    if |piece| == 3 {
      var p2 := piece[..2];
      var p3 := piece[..3];
      assert p2[..1] == p1 && p2[1] == piece[1];
      assert Live(p2) == 0;
      assert p3[..2] == p2 && p3[2] == piece[2] && p3 == piece;
      assert Live(p3) == 0;
    }
  }
}
