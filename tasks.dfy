/**
 * The per-file task runners `runCommand` (the `run` command) and `runScript`
 * (the legacy `parallel` command), as the sequence of steps one task performs.
 *
 * Go's deferred calls run in reverse order of registration when the task
 * returns, whichever return it takes: a stack onto which each `defer` pushes
 * and which is appended to the steps at the return. The outcomes of opening
 * the input, reading its gzip header and running the external program are
 * inputs; whether the temp file can be created is decided by the caller from
 * the filesystem.
 */
module Tasks {
  import opened Wrappers
  import opened FileSystem

  datatype Stage = OpenStage | GzipStage | CreateStage | RunStage

  datatype Step =
    | Register              // wgDate.Add(1), before the task starts
    | Queued                // the "queued" message
    | OpenInput             // os.Open of the log file succeeded
    | OpenGzip              // gzip.NewReader succeeded
    | CreateOutput          // os.Create of the temp file succeeded
    | Exec                  // the external program was run
    | Failed(stage: Stage)  // an error was printed
    | CloseOutput
    | CloseGzip
    | CloseInput
    | Increment             // taskBar.Increment()
    | Done                  // wgDate.Done()

  /**
   * What one task did between its registration and its completion, and its
   * temp file's contents if it wrote one.
   */
  datatype TaskRun = TaskRun(steps: seq<Step>, output: Option<seq<Line>>)

  /** The outcomes `runCommand` cannot see in advance. */
  datatype CommandIO = CommandIO(openOk: bool, gzipOk: bool, runOk: bool, output: seq<Line>)

  /**
   * The outcomes `runScript` cannot see in advance: whether the script exits
   * successfully, and what it writes to the output path it is given (`None`
   * when it writes no file there at all).
   */
  datatype ScriptIO = ScriptIO(runOk: bool, output: Option<seq<Line>>)

  /** Steps that are not the wait-group and progress-bar bookkeeping. */
  predicate NoBookkeeping(s: seq<Step>)
  {
    Register !in s && Increment !in s && Done !in s
  }

  /**
   * A task's whole trace. `wgDate.Add(1)` runs before the task starts; the
   * progress bar and `wgDate.Done()` run last, `wgDate.Done()` at the very end
   * (in `runCommand` because they are the first calls deferred, in
   * `runScript` because they are deferred after everything else has run).
   */
  function Trace(r: TaskRun): seq<Step>
  {
    [Register] + r.steps + [Increment, Done]
  }

  /**
   * Registered once before anything else, then the progress bar advanced once
   * and the completion signalled once, as the very last two steps.
   */
  predicate CompletesOnce(t: seq<Step>)
  {
    && |t| >= 3
    && t[0] == Register && t[|t| - 2] == Increment && t[|t| - 1] == Done
    && Register !in t[1..]
    && Increment !in t[..|t| - 2]
    && Done !in t[..|t| - 1]
  }

  /** A task whose own steps leave the bookkeeping alone completes exactly once. */
  lemma TraceCompletesOnce(r: TaskRun)
    requires NoBookkeeping(r.steps)
    ensures CompletesOnce(Trace(r))
  {
    var t := Trace(r);
    assert t[1..] == r.steps + [Increment, Done];
    assert t[..|t| - 2] == [Register] + r.steps;
    assert t[..|t| - 1] == [Register] + r.steps + [Increment];
  }

  /** In a trace that completes once, each bookkeeping step occurs exactly once. */
  lemma CompletesOnceCounts(t: seq<Step>)
    requires CompletesOnce(t)
    ensures multiset(t)[Register] == 1 && multiset(t)[Increment] == 1 && multiset(t)[Done] == 1
  {
    assert t == [t[0]] + t[1..];
    assert multiset(t[1..])[Register] == 0;
    var n := |t|;
    assert t == t[..n - 2] + [Increment, Done];
    assert multiset(t[..n - 2])[Increment] == 0;
    assert t[..n - 2] == t[..n - 1][..n - 2];
    assert multiset(t[..n - 1])[Done] == 0;
    assert t == t[..n - 1] + [Done];
  }

  /**
   * `runCommand`'s task: open the log file, wrap it in a gzip reader, create the
   * temp file, then run the command from one into the other. Each failure
   * prints its error and returns; each resource opened defers its close.
   */
  function RunCommand(io: CommandIO, createOk: bool): (r: TaskRun)
    ensures NoBookkeeping(r.steps)
    // The temp file exists only after its create succeeded, and holds what the command wrote.
    ensures r.output.Some? <==> CreateOutput in r.steps
    ensures r.output.Some? <==> io.openOk && io.gzipOk && createOk
    ensures r.output.Some? ==> r.output.value == io.output
  {
    var deferred := [];
    if !io.openOk then
      TaskRun([Queued, Failed(OpenStage)] + deferred, None)
    else
      var deferred := [CloseInput] + deferred;
      if !io.gzipOk then
        TaskRun([Queued, OpenInput, Failed(GzipStage)] + deferred, None)
      else
        var deferred := [CloseGzip] + deferred;
        if !createOk then
          TaskRun([Queued, OpenInput, OpenGzip, Failed(CreateStage)] + deferred, None)
        else
          var deferred := [CloseOutput] + deferred;
          var ran := if io.runOk then [Exec] else [Exec, Failed(RunStage)];
          TaskRun([Queued, OpenInput, OpenGzip, CreateOutput] + ran + deferred, Some(io.output))
  }

  /** The stage of the first step that fails, if any: the error `runCommand` prints. */
  function FirstFailure(io: CommandIO, createOk: bool): Option<Stage>
  {
    if !io.openOk then Some(OpenStage)
    else if !io.gzipOk then Some(GzipStage)
    else if !createOk then Some(CreateStage)
    else if !io.runOk then Some(RunStage)
    else None
  }

  /** Each failure aborts the rest: the command runs only when every step before it succeeded. */
  lemma RunCommandRunsOnlyAfterSetup(io: CommandIO, createOk: bool)
    ensures Exec in RunCommand(io, createOk).steps <==> io.openOk && io.gzipOk && createOk
  {
  }

  /** Exactly one error is printed when a step fails, and it is that of the first failing step. */
  lemma RunCommandReportsFirstFailure(io: CommandIO, createOk: bool, st: Stage)
    ensures Failed(st) in RunCommand(io, createOk).steps <==> FirstFailure(io, createOk) == Some(st)
  {
  }

  /** What was opened is closed, and nothing else is. */
  lemma RunCommandClosesWhatItOpened(io: CommandIO, createOk: bool)
    ensures CloseInput in RunCommand(io, createOk).steps <==> OpenInput in RunCommand(io, createOk).steps
    ensures CloseGzip in RunCommand(io, createOk).steps <==> OpenGzip in RunCommand(io, createOk).steps
    ensures CloseOutput in RunCommand(io, createOk).steps <==> CreateOutput in RunCommand(io, createOk).steps
  {
  }

  /** When all three were opened, they are closed in the reverse order, after the command ran. */
  lemma RunCommandClosesInReverse(io: CommandIO, createOk: bool)
    ensures var s := RunCommand(io, createOk).steps;
      CreateOutput in s ==> |s| >= 4 && s[|s| - 3..] == [CloseOutput, CloseGzip, CloseInput] && (s[|s| - 4] == Exec || s[|s| - 4] == Failed(RunStage))
  {
  }

  /**
   * `runScript`'s task: the script is given the log file and the temp path and
   * writes the temp file itself, if it writes one at all and the path can be
   * created; its exit status is only logged. The bookkeeping calls are deferred after it
   * returns, so there is no early return and nothing to close.
   */
  function RunScript(io: ScriptIO, createOk: bool): (r: TaskRun)
    ensures NoBookkeeping(r.steps)
    ensures Exec in r.steps
    ensures Failed(RunStage) in r.steps <==> !io.runOk
    ensures r.output.Some? <==> createOk && io.output.Some?
    ensures createOk ==> r.output == io.output
  {
    var ran := if io.runOk then [Exec] else [Exec, Failed(RunStage)];
    TaskRun([Queued] + ran, if createOk then io.output else None)
  }
}
