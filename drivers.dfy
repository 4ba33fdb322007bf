/**
 * The three drivers built on the time grid: `ParseLogs` (given any per-file
 * handler), the `run` command (with `runCommand`) and the legacy `parallel`
 * command (with `runScript`). Each makes sure the output directory is usable,
 * scans the grid with its own names, tasks and aggregator, and the first two
 * then finalize the day files.
 */
module Drivers {
  import opened Wrappers
  import opened FileSystem
  import opened Sorting
  import opened Concat
  import opened DirCheck
  import opened TimeGrid
  import opened Tasks
  import opened Aggregate
  import opened Grid

  /**
   * A per-file handler that leaves the wait group and the progress bar to the
   * loop's bookkeeping and writes its temp file only when it could be created.
   */
  ghost predicate HandlerBehaves(task: (Path, bool) -> TaskRun)
  {
    forall logFile, createOk :: NoBookkeeping(task(logFile, createOk).steps)
      && (task(logFile, createOk).output.Some? ==> createOk)
  }

  /** The day's aggregator concatenates into the day's output file, as `AggregateSpec` says. */
  ghost predicate AggregatesByDay(cfg: Config, closeOk: Sink -> bool)
  {
    forall h, temps, d :: cfg.aggregate(h, temps, d)
      == AggregateSpec(h, temps, cfg.dayFile(d), d, closeOk(ToFile(cfg.dayFile(d))))
  }

  /**
   * The loop's configuration as the drivers build it: the `fmt.Sprintf` names
   * over the log and output directories, the glob, the handler, and the day
   * aggregator writing `<outDir>/<logType>-YYYY-MM-DD.json`.
   */
  function DriverConfig(logDir: Path, logType: string, outDir: Path, stamp: Hour -> string,
                        glob: string -> seq<Path>, task: (Path, bool) -> TaskRun, closeOk: Sink -> bool): (cfg: Config)
    ensures NamedAs(cfg, logDir, logType, outDir, stamp)
    ensures AggregatesByDay(cfg, closeOk)
    ensures cfg.glob == glob && cfg.task == task
    ensures HandlerBehaves(task) ==> WellBehaved(cfg)
  {
    Config(
      (h: Hour) => GlobPattern(logDir, logType, h),
      (h: Hour, f: Path) => TempName(outDir, stamp(h), f),
      (d: Hour) => DayFileName(outDir, logType, d),
      glob,
      task,
      (host: Host, temps: seq<Path>, d: Hour) => AggregateSpec(host, temps, DayFileName(outDir, logType, d), d, closeOk(ToFile(DayFileName(outDir, logType, d)))))
  }

  /** `runCommand` for each log file, with that file's outcomes. */
  function CommandTask(io: Path -> CommandIO): (task: (Path, bool) -> TaskRun)
    ensures HandlerBehaves(task)
  {
    var task := (f: Path, c: bool) => RunCommand(io(f), c);
    assert HandlerBehaves(task) by {
      forall f, c ensures NoBookkeeping(task(f, c).steps) && (task(f, c).output.Some? ==> c) {
        assert task(f, c) == RunCommand(io(f), c);
      }
    }
    task
  }

  /** `runScript` for each log file, with that file's outcomes. */
  function ScriptTask(io: Path -> ScriptIO): (task: (Path, bool) -> TaskRun)
    ensures HandlerBehaves(task)
  {
    var task := (f: Path, c: bool) => RunScript(io(f), c);
    assert HandlerBehaves(task) by {
      forall f, c ensures NoBookkeeping(task(f, c).steps) && (task(f, c).output.Some? ==> c) {
        assert task(f, c) == RunScript(io(f), c);
      }
    }
    task
  }

  /**
   * A `runCommand` task whose input cannot be opened or whose gzip header
   * cannot be read returns before creating its temp file: the filesystem is
   * left as it was, so the day's aggregator finds no such file.
   */
  lemma CommandTaskLeavesNoTemp(io: Path -> CommandIO, h: Host, f: Path, temp: Path, createOk: bool)
    requires !io(f).openOk || !io(f).gzipOk
    ensures Leave(h, temp, CommandTask(io)(f, createOk)) == h
  {
    var r := RunCommand(io(f), createOk);
    assert r.output.None?;
  }

  /**
   * What one day leaves on disk, with the drivers' aggregator. A day with no
   * temp file changes no file and does not fail. Otherwise, when its temp
   * names are distinct, none of them is a file yet and none is the day file,
   * and the day file can be created: the day file holds the lines of the temp
   * files the day's tasks wrote, in sorted order; no temp file remains; no
   * other file changes; and the day fails exactly when closing the day file
   * fails.
   */
  lemma ScanDayFiles(g: GridState, cfg: Config, closeOk: Sink -> bool, start: Hour, end: Hour, k: nat)
    requires AggregatesByDay(cfg, closeOk)
    ensures var g' := ScanDay(g, cfg, start, end, k);
      var r := g'.days[|g.days|];
      && |r.temps| == |r.runs|
      && (r.temps == [] ==> g'.host.files == g.host.files && !r.failed)
      && (r.temps != [] && NoDuplicates(r.temps) && r.output !in r.temps
          && (forall t :: t in r.temps ==> t !in g.host.files) && CanCreate(g.host, r.output) ==>
          && g'.host.files == g.host.files[r.output := Gather(Produced(r.temps, r.runs), SortSpec(r.temps))]
          && (forall t :: t in r.temps ==> t !in g'.host.files)
          && (r.failed <==> !closeOk(ToFile(r.output))))
  {
    var d := DayStart(start, k);
    var hs := HoursOf(start, end, d);
    var s0 := DayState(g.host, [], [], 0, 0, g.taskCount);
    var s := ScanHours(s0, cfg, hs);
    ScanHoursEffect(s0, cfg, hs);
    assert g.host.files + Produced([], []) == g.host.files;
    ScanHoursHost(s0, cfg, hs, g.host.files, g.host);
    var p := Produced(s.temps, s.runs);
    var out := cfg.dayFile(d);
    var c := closeOk(ToFile(out));
    assert cfg.aggregate(s.host, s.temps, d) == AggregateSpec(s.host, s.temps, out, d, c);
    if s.temps == [] {
      assert g.host.files + p == g.host.files;
    } else if NoDuplicates(s.temps) && out !in s.temps && (forall t :: t in s.temps ==> t !in g.host.files) && CanCreate(g.host, out) {
      ConcatFilesContent(s.host, s.temps, out, true, false, c);
      OverlayUndone(g.host.files, s.temps, s.runs);
    }
  }

  /** `TryCreateDir`, whose error is only printed: the run goes on either way. */
  function PrepareOutDir(h: Host, abs: Option<Path>, empty: bool, mkdirOk: bool, writable: bool): (r: Host)
    ensures r.files == h.files && r.stdout == h.stdout
    ensures var d := TryCreateDir(h, abs, empty, mkdirOk, writable);
      if d.err.Some? then r == Report(h, Reported(d.err.value)) else r == d.host
  {
    var d := TryCreateDir(h, abs, empty, mkdirOk, writable);
    if d.err.Some? then Report(d.host, Reported(d.err.value)) else d.host
  }

  // ---------------------------------------------------------------------------
  // Finalizing the day files.

  /** `ConcatFiles(outputFiles, target, true, true)`, its error printed. */
  function FoldInto(h: Host, outputFiles: seq<Path>, target: Path, closeOk: bool): Host
  {
    var (c, e) := ConcatFilesSpec(h, outputFiles, target, true, true, closeOk);
    if e.Some? then Report(c, Reported(e.value)) else c
  }

  /**
   * Stdout mode: `ConcatToStdout(outputFiles, true, true)`, its error printed,
   * then `os.Remove` of the output directory, its error logged.
   */
  function StreamOut(h: Host, outputFiles: seq<Path>, outDir: Path, closeOk: bool): Host
  {
    var (c, e) := ConcatToStdoutSpec(h, outputFiles, true, true, closeOk);
    var c' := if e.Some? then Report(c, Reported(e.value)) else c;
    var (r, re) := Remove(c', outDir);
    if re.Some? then Report(r, Reported(re.value)) else r
  }

  /** `<outDir>/<logType>.json`, the single file of `ParseLogs`. */
  function SingleFileName(outDir: Path, logType: string): Path
  {
    Join(outDir, logType + ".json")
  }

  /** What `ParseLogs` does once every day is aggregated. */
  function FinalizeSpec(h: Host, outputFiles: seq<Path>, outDir: Path, logType: string,
                        singleFile: bool, writeStdout: bool, closeOk: Sink -> bool): Host
  {
    if writeStdout then StreamOut(h, outputFiles, outDir, closeOk(ToStdout))
    else if singleFile then FoldInto(h, outputFiles, SingleFileName(outDir, logType), closeOk(ToFile(SingleFileName(outDir, logType))))
    else h
  }

  method FoldIntoFile(h: Host, outputFiles: seq<Path>, target: Path, closeOk: bool) returns (h': Host)
    ensures h' == FoldInto(h, outputFiles, target, closeOk)
  {
    var inputs := ToArray(outputFiles);
    var e;
    h', e := ConcatFiles(h, inputs, target, true, true, closeOk);
    if e.Some? {
      h' := Report(h', Reported(e.value));
    }
  }

  method StreamToStdout(h: Host, outputFiles: seq<Path>, outDir: Path, closeOk: bool) returns (h': Host)
    ensures h' == StreamOut(h, outputFiles, outDir, closeOk)
  {
    var inputs := ToArray(outputFiles);
    var e;
    h', e := ConcatToStdout(h, inputs, true, true, closeOk);
    if e.Some? {
      h' := Report(h', Reported(e.value));
    }
    var removed := Remove(h', outDir);
    h' := removed.0;
    if removed.1.Some? {
      h' := Report(h', Reported(removed.1.value));
    }
  }

  /** The final branch of `ParseLogs`: standard output first, else the single file, else nothing. */
  method Finalize(h: Host, outputFiles: seq<Path>, outDir: Path, logType: string,
                  singleFile: bool, writeStdout: bool, closeOk: Sink -> bool) returns (h': Host)
    ensures h' == FinalizeSpec(h, outputFiles, outDir, logType, singleFile, writeStdout, closeOk)
  {
    h' := h;
    if writeStdout {
      h' := StreamToStdout(h, outputFiles, outDir, closeOk(ToStdout));
    } else if singleFile {
      var target := SingleFileName(outDir, logType);
      h' := FoldIntoFile(h, outputFiles, target, closeOk(ToFile(target)));
    }
  }

  /**
   * Folding distinct day files into a target that is not one of them: the
   * target holds the lines of every day file that exists, in sorted order,
   * the day files are gone, no directory but a day path can go, and nothing
   * else changes; when the target cannot be created, only the error is printed.
   */
  lemma FoldIntoEffect(h: Host, outputFiles: seq<Path>, target: Path, closeOk: bool)
    requires NoDuplicates(outputFiles) && target !in outputFiles
    ensures var r := FoldInto(h, outputFiles, target, closeOk);
      if CanCreate(h, target) then
        && r.files == Kept(h.files, SortSpec(outputFiles), true)[target := Gather(h.files, SortSpec(outputFiles))]
        && r.dirs <= h.dirs && (forall d :: d in h.dirs && d !in outputFiles ==> d in r.dirs)
        && r.stdout == h.stdout
      else r == Report(h, Reported(CreateFailed(target)))
  {
    ConcatFilesContent(h, outputFiles, target, true, true, closeOk);
  }

  /** Removing a directory leaves the entries of whatever directory was there. */
  lemma RemoveKeepsEntries(c: Host, d: Path)
    requires d !in c.files
    ensures HasEntries(Remove(c, d).0, d) == HasEntries(c, d)
  {
    var r := Remove(c, d).0;
    if HasEntries(c, d) {
      var p :| p in c.files.Keys + c.dirs && p != d && Dir(p) == d;
      assert p in r.files.Keys + r.dirs;
    }
    if HasEntries(r, d) {
      var p :| p in r.files.Keys + r.dirs && p != d && Dir(p) == d;
      assert p in c.files.Keys + c.dirs;
    }
  }

  /** What `os.Remove` of the output path does after streaming, whatever is there. */
  lemma RemoveOutDir(c: Host, outDir: Path)
    ensures var r := Remove(c, outDir).0;
      && r.files == c.files - {outDir} && r.dirs <= c.dirs && r.dirs - {outDir} == c.dirs - {outDir}
      && r.stdout == c.stdout
      && (outDir in c.files ==> r.dirs == c.dirs)
      && (outDir !in c.files ==> (outDir in r.dirs <==> outDir in c.dirs && HasEntries(r, outDir)))
  {
    if outDir !in c.files {
      RemoveKeepsEntries(c, outDir);
      assert c.files - {outDir} == c.files;
    }
  }

  /**
   * Streaming distinct day files: standard output receives the lines of
   * every day file that exists, in sorted order, each with its newline; the
   * day files are gone, and so is whatever file sits at the output path;
   * an output directory is removed exactly when nothing is left in it, and
   * no other directory but a day path can go.
   */
  lemma StreamOutEffect(h: Host, outputFiles: seq<Path>, outDir: Path, closeOk: bool)
    requires NoDuplicates(outputFiles)
    ensures var r := StreamOut(h, outputFiles, outDir, closeOk);
      && r.stdout == h.stdout + Framed(Gather(h.files, SortSpec(outputFiles)))
      && r.files == Kept(h.files, SortSpec(outputFiles), true) - {outDir}
      && r.dirs <= h.dirs
      && (forall d :: d in h.dirs && d !in outputFiles && d != outDir ==> d in r.dirs)
      && (outDir !in outputFiles && outDir in h.files ==> (outDir in r.dirs <==> outDir in h.dirs))
      && (outDir !in outputFiles && outDir !in h.files ==> (outDir in r.dirs <==> outDir in h.dirs && HasEntries(r, outDir)))
  {
    ConcatToStdoutContent(h, outputFiles, true, true, closeOk);
    var (c, e) := ConcatToStdoutSpec(h, outputFiles, true, true, closeOk);
    var c' := if e.Some? then Report(c, Reported(e.value)) else c;
    assert Unlogged(c') == Unlogged(c);
    SortedInputs(outputFiles);
    assert outDir !in outputFiles ==> (outDir in c'.files <==> outDir in h.files) && (outDir in c'.dirs <==> outDir in h.dirs);
    RemoveOutDir(c', outDir);
    var (r0, re) := Remove(c', outDir);
    var r := if re.Some? then Report(r0, Reported(re.value)) else r0;
    assert r == StreamOut(h, outputFiles, outDir, closeOk);
    assert Unlogged(r) == Unlogged(r0);
    assert HasEntries(r, outDir) == HasEntries(r0, outDir);
  }

  /**
   * When the output path names an existing file rather than a directory,
   * `TryCreateDir` refuses it, `ParseLogs` only prints that error and goes
   * on, and in stdout mode the final `os.Remove` deletes that file.
   */
  lemma StreamOutDeletesFileAtOutDir(h: Host, outputFiles: seq<Path>, outDir: Path, mkdirOk: bool, writable: bool, closeOk: bool)
    requires outDir in h.files && outDir !in h.dirs && outDir !in outputFiles && NoDuplicates(outputFiles)
    ensures PrepareOutDir(h, Some(outDir), true, mkdirOk, writable) == Report(h, Reported(NotADirectory(outDir)))
    ensures outDir !in StreamOut(h, outputFiles, outDir, closeOk).files
  {
    StreamOutEffect(h, outputFiles, outDir, closeOk);
  }

  /** Stdout mode as evidently intended: the output path is removed only when it is a directory. */
  function StreamOutDirOnly(h: Host, outputFiles: seq<Path>, outDir: Path, closeOk: bool): Host
  {
    var (c, e) := ConcatToStdoutSpec(h, outputFiles, true, true, closeOk);
    var c' := if e.Some? then Report(c, Reported(e.value)) else c;
    if outDir !in c'.dirs then c'
    else
      var (r, re) := Remove(c', outDir);
      if re.Some? then Report(r, Reported(re.value)) else r
  }

  /**
   * The corrected stdout mode streams the same lines and removes the day
   * files, but every other file, one at the output path included, is kept.
   */
  lemma StreamOutDirOnlyEffect(h: Host, outputFiles: seq<Path>, outDir: Path, closeOk: bool)
    requires Valid(h) && NoDuplicates(outputFiles)
    ensures var r := StreamOutDirOnly(h, outputFiles, outDir, closeOk);
      && r.stdout == h.stdout + Framed(Gather(h.files, SortSpec(outputFiles)))
      && r.files == Kept(h.files, SortSpec(outputFiles), true)
      && r.dirs <= h.dirs
      && (forall d :: d in h.dirs && d !in outputFiles && d != outDir ==> d in r.dirs)
      && (outDir !in outputFiles ==> (outDir in r.dirs <==> outDir in h.dirs && HasEntries(r, outDir)))
  {
    ConcatToStdoutContent(h, outputFiles, true, true, closeOk);
    var (c, e) := ConcatToStdoutSpec(h, outputFiles, true, true, closeOk);
    var c' := if e.Some? then Report(c, Reported(e.value)) else c;
    if outDir in c'.dirs {
      assert outDir in h.dirs;
      assert outDir !in c'.files;
      RemoveOutDir(c', outDir);
    }
  }

  /**
   * The final branch, mode by mode: with `writeStdout` the day files are
   * streamed whatever `singleFile` says; otherwise with `singleFile` they are
   * folded into `<outDir>/<logType>.json`; otherwise they are left as they are.
   */
  lemma FinalizeEffect(h: Host, outputFiles: seq<Path>, outDir: Path, logType: string,
                       singleFile: bool, writeStdout: bool, closeOk: Sink -> bool)
    requires NoDuplicates(outputFiles) && SingleFileName(outDir, logType) !in outputFiles
    ensures var r := FinalizeSpec(h, outputFiles, outDir, logType, singleFile, writeStdout, closeOk);
      && (writeStdout ==>
            && r.stdout == h.stdout + Framed(Gather(h.files, SortSpec(outputFiles)))
            && r.files == Kept(h.files, SortSpec(outputFiles), true) - {outDir})
      && (!writeStdout && singleFile && CanCreate(h, SingleFileName(outDir, logType)) ==>
            && r.stdout == h.stdout
            && r.files == Kept(h.files, SortSpec(outputFiles), true)[SingleFileName(outDir, logType) := Gather(h.files, SortSpec(outputFiles))])
      && (!writeStdout && !singleFile ==> r == h)
  {
    if writeStdout {
      StreamOutEffect(h, outputFiles, outDir, closeOk(ToStdout));
    } else if singleFile {
      var target := SingleFileName(outDir, logType);
      FoldIntoEffect(h, outputFiles, target, closeOk(ToFile(target)));
    }
  }

  // ---------------------------------------------------------------------------
  // The drivers.

  /** Two different midnights lie in different days. */
  lemma MidnightsDiffer(x: Hour, y: Hour)
    requires x % 24 == 0 && y % 24 == 0 && x != y
    ensures x / 24 != y / 24
  {
  }

  /**
   * The day files of any driver's scan are distinct, and neither finalize
   * target (`<outDir>/<logType>.json`, `<outDir>/output.json`) is one of them.
   */
  lemma DriverOutputsDistinct(h: Host, logDir: Path, logType: string, outDir: Path, start: Hour, end: Hour,
                              stamp: Hour -> string, glob: string -> seq<Path>, task: (Path, bool) -> TaskRun, closeOk: Sink -> bool)
    ensures var g := ScanDays(h, DriverConfig(logDir, logType, outDir, stamp, glob, task, closeOk), start, end, NumDays(start, end));
      && NoDuplicates(g.outputFiles)
      && SingleFileName(outDir, logType) !in g.outputFiles
      && RunOutputName(outDir) !in g.outputFiles
  {
    var cfg := DriverConfig(logDir, logType, outDir, stamp, glob, task, closeOk);
    var g := ScanDays(h, cfg, start, end, NumDays(start, end));
    ScanDaysEffect(h, cfg, start, end, NumDays(start, end));
    forall j | 0 <= j < |g.outputFiles| ensures g.outputFiles[j] == DayFileName(outDir, logType, DayStart(start, j)) {
      assert DayFacts(cfg, start, end, j, g.days[j]);
    }
    DayNamesDistinct(g.outputFiles, outDir, logType, start);
  }

  /** Names of successive days are distinct and never a finalize target. */
  lemma DayNamesDistinct(names: seq<Path>, outDir: Path, logType: string, start: Hour)
    requires forall j :: 0 <= j < |names| ==> names[j] == DayFileName(outDir, logType, DayStart(start, j))
    ensures NoDuplicates(names)
    ensures SingleFileName(outDir, logType) !in names && RunOutputName(outDir) !in names
  {
    forall i, j | 0 <= i < j < |names| ensures names[i] != names[j] {
      MidnightsDiffer(DayStart(start, i), DayStart(start, j));
      DayFileNameSameDay(outDir, logType, DayStart(start, i), DayStart(start, j));
    }
    forall j | 0 <= j < |names|
      ensures names[j] != SingleFileName(outDir, logType) && names[j] != RunOutputName(outDir)
    {
      ShortNameIsNoDayFile(outDir, logType, logType + ".json", DayStart(start, j));
      ShortNameIsNoDayFile(outDir, logType, "output.json", DayStart(start, j));
    }
  }

  /**
   * `ParseLogs`, given the resolved output directory: prepare it (asking for
   * an empty one), scan the grid with the handler, then finalize. The day
   * files are distinct and not the single file, so the final branch does
   * what `FinalizeEffect` says.
   */
  method ParseLogs(h: Host, handler: (Path, bool) -> TaskRun, logDir: Path, logType: string, outDir: Path,
                   start: Hour, end: Hour, stamp: Hour -> string, glob: string -> seq<Path>,
                   mkdirOk: bool, writable: bool, closeOk: Sink -> bool,
                   singleFile: bool, writeStdout: bool)
    returns (h': Host, g: GridState)
    ensures g == ScanDays(PrepareOutDir(h, Some(outDir), true, mkdirOk, writable),
      DriverConfig(logDir, logType, outDir, stamp, glob, handler, closeOk), start, end, NumDays(start, end))
    ensures h' == FinalizeSpec(g.host, g.outputFiles, outDir, logType, singleFile, writeStdout, closeOk)
    ensures NoDuplicates(g.outputFiles) && SingleFileName(outDir, logType) !in g.outputFiles
    ensures writeStdout ==>
      && h'.stdout == g.host.stdout + Framed(Gather(g.host.files, SortSpec(g.outputFiles)))
      && h'.files == Kept(g.host.files, SortSpec(g.outputFiles), true) - {outDir}
    ensures !writeStdout && singleFile && CanCreate(g.host, SingleFileName(outDir, logType)) ==>
      && h'.stdout == g.host.stdout
      && h'.files == Kept(g.host.files, SortSpec(g.outputFiles), true)[SingleFileName(outDir, logType) := Gather(g.host.files, SortSpec(g.outputFiles))]
    ensures !writeStdout && !singleFile ==> h' == g.host
  {
    var h0 := PrepareOutDir(h, Some(outDir), true, mkdirOk, writable);
    var cfg := DriverConfig(logDir, logType, outDir, stamp, glob, handler, closeOk);
    g := ScanGrid(h0, cfg, start, end);
    h' := Finalize(g.host, g.outputFiles, outDir, logType, singleFile, writeStdout, closeOk);
    DriverOutputsDistinct(h0, logDir, logType, outDir, start, end, stamp, glob, handler, closeOk);
    FinalizeEffect(g.host, g.outputFiles, outDir, logType, singleFile, writeStdout, closeOk);
  }

  /** `<outputDir>/output.json`, the single file of the `run` command. */
  function RunOutputName(outputDir: Path): Path
  {
    Join(outputDir, "output.json")
  }

  /**
   * The `run` command after its confirmation prompt, run from working
   * directory `cwd`. The output directory is resolved with `filepath.Abs` and
   * prepared; the temp files, day files and `output.json` are named after the
   * `outputDir` flag as given, and the OS resolves those names against `cwd`,
   * so the filesystem sees them joined onto the resolved directory
   * (`DriverNamesResolve`). The day files are folded into `output.json` when
   * `singleFile` is set.
   */
  method RunCmd(h: Host, io: Path -> CommandIO, logDir: Path, logType: string, cwd: Path, outputDir: Path,
                start: Hour, end: Hour, stamp: Hour -> string, glob: string -> seq<Path>,
                mkdirOk: bool, writable: bool, closeOk: Sink -> bool, singleFile: bool)
    returns (h': Host, g: GridState)
    ensures var outDir := Resolve(cwd, outputDir);
      g == ScanDays(PrepareOutDir(h, Some(outDir), true, mkdirOk, writable),
        DriverConfig(logDir, logType, outDir, stamp, glob, CommandTask(io), closeOk), start, end, NumDays(start, end))
    ensures var target := RunOutputName(Resolve(cwd, outputDir));
      && (h' == if singleFile then FoldInto(g.host, g.outputFiles, target, closeOk(ToFile(target))) else g.host)
      && NoDuplicates(g.outputFiles) && target !in g.outputFiles
      && (singleFile && CanCreate(g.host, target) ==>
        && h'.stdout == g.host.stdout
        && h'.files == Kept(g.host.files, SortSpec(g.outputFiles), true)[target := Gather(g.host.files, SortSpec(g.outputFiles))])
  {
    var outDir := Resolve(cwd, outputDir);
    var h0 := PrepareOutDir(h, Some(outDir), true, mkdirOk, writable);
    var cfg := DriverConfig(logDir, logType, outDir, stamp, glob, CommandTask(io), closeOk);
    g := ScanGrid(h0, cfg, start, end);
    DriverOutputsDistinct(h0, logDir, logType, outDir, start, end, stamp, glob, CommandTask(io), closeOk);
    h' := g.host;
    if singleFile {
      var target := RunOutputName(outDir);
      h' := FoldIntoFile(h', g.outputFiles, target, closeOk(ToFile(target)));
      FoldIntoEffect(g.host, g.outputFiles, target, closeOk(ToFile(target)));
    }
  }

  /**
   * The legacy `parallel` command after its confirmation prompt, run from
   * working directory `cwd`: prepare the resolved output directory, then scan
   * the grid running the script on every log file, each day aggregated by
   * `outputDateParallel`; nothing is finalized. The names built on the
   * `outputDir` flag reach the filesystem resolved against `cwd`.
   */
  method ParallelCmd(h: Host, io: Path -> ScriptIO, logDir: Path, logType: string, cwd: Path, outputDir: Path,
                     start: Hour, end: Hour, stamp: Hour -> string, glob: string -> seq<Path>,
                     empty: bool, mkdirOk: bool, writable: bool, closeOk: Sink -> bool)
    returns (g: GridState)
    ensures var outDir := Resolve(cwd, outputDir);
      g == ScanDays(PrepareOutDir(h, Some(outDir), empty, mkdirOk, writable),
        DriverConfig(logDir, logType, outDir, stamp, glob, ScriptTask(io), closeOk), start, end, NumDays(start, end))
    ensures NoDuplicates(g.outputFiles)
  {
    var outDir := Resolve(cwd, outputDir);
    var h0 := PrepareOutDir(h, Some(outDir), empty, mkdirOk, writable);
    var cfg := DriverConfig(logDir, logType, outDir, stamp, glob, ScriptTask(io), closeOk);
    g := ScanGrid(h0, cfg, start, end);
    DriverOutputsDistinct(h0, logDir, logType, outDir, start, end, stamp, glob, ScriptTask(io), closeOk);
  }

  /**
   * The names `run` and `parallel` build on the `outputDir` flag, resolved by
   * the OS against the working directory, are the driver's names on the
   * resolved directory: a temp file, a day file and `output.json`.
   */
  lemma DriverNamesResolve(cwd: Path, outputDir: Path, logType: string, s: string, logFile: Path, d: Hour)
    requires outputDir != "" || (s != "" && !IsAbs(s) && logType != "" && !IsAbs(logType))
    ensures Resolve(cwd, TempName(outputDir, s, logFile)) == TempName(Resolve(cwd, outputDir), s, logFile)
    ensures Resolve(cwd, DayFileName(outputDir, logType, d)) == DayFileName(Resolve(cwd, outputDir), logType, d)
    ensures Resolve(cwd, RunOutputName(outputDir)) == RunOutputName(Resolve(cwd, outputDir))
  {
    var t := s + Base(logFile) + ".json";
    var f := logType + "-" + DateString(d) + ".json";
    if outputDir == "" {
      assert t[0] == s[0] && f[0] == logType[0];
    }
    ResolveJoin(cwd, outputDir, t);
    ResolveJoin(cwd, outputDir, f);
    ResolveJoin(cwd, outputDir, "output.json");
  }

  /**
   * Once the resolved output directory has been prepared, every temp or day
   * file named after the flag can be created: the directory the OS resolves
   * it into is the one prepared.
   */
  lemma PreparedDirTakesNames(h: Host, cwd: Path, outputDir: Path, n: Path, empty: bool, mkdirOk: bool, writable: bool)
    requires CleanDir(Resolve(cwd, outputDir)) && PlainName(n)
    requires TryCreateDir(h, Some(Resolve(cwd, outputDir)), empty, mkdirOk, writable).err.None?
    requires Join(Resolve(cwd, outputDir), n) !in h.dirs
    ensures CanCreate(PrepareOutDir(h, Some(Resolve(cwd, outputDir)), empty, mkdirOk, writable), Resolve(cwd, Join(outputDir, n)))
  {
    ResolveJoin(cwd, outputDir, n);
    JoinSplits(Resolve(cwd, outputDir), n);
  }

  /**
   * What any driver's scan leaves, with its own names: one day per midnight
   * from the start's up to the end, in ascending order, the `j`-th day's
   * output named `<outDir>/<logType>-YYYY-MM-DD.json` after its midnight,
   * every task registered and completed once, and one task per glob match
   * over the hours from the start to the end.
   */
  lemma DriverScanEffect(h: Host, logDir: Path, logType: string, outDir: Path, start: Hour, end: Hour,
                         stamp: Hour -> string, glob: string -> seq<Path>, task: (Path, bool) -> TaskRun, closeOk: Sink -> bool)
    requires HandlerBehaves(task)
    ensures var cfg := DriverConfig(logDir, logType, outDir, stamp, glob, task, closeOk);
      var g := ScanDays(h, cfg, start, end, NumDays(start, end));
      && |g.days| == |g.outputFiles| == NumDays(start, end)
      && (forall j :: 0 <= j < |g.outputFiles| ==> g.outputFiles[j] == DayFileName(outDir, logType, DayStart(start, j)))
      && (forall i, j :: 0 <= i < j < |g.days| ==> g.days[i].day < g.days[j].day)
      && AllDaysComplete(g.days)
      && g.allAdded == g.allDone == |g.days|
      && g.taskCount == TotalMatches(cfg, Range(start, end + 1))
  {
    var cfg := DriverConfig(logDir, logType, outDir, stamp, glob, task, closeOk);
    ScanGridEffect(h, cfg, start, end);
  }
}
