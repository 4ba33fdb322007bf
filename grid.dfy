/**
 * The time-grid driver shared by `ParseLogs`, the `run` command and the
 * legacy `parallel` command: for each day from the start's midnight up to the
 * end, and each hour of that day inside the range, glob the hour's log files,
 * start one task per match writing a temp file, then hand the day's temp
 * files to the day's aggregator.
 *
 * Tasks and aggregators run sequentially here: each task has completed before
 * its day's aggregator starts, and each aggregator before the next day. The
 * wait groups become counters: one registration when a task is dispatched and
 * one completion when it has run, per day and, for the aggregators, overall.
 * The names, the glob, the task and the aggregator are parameters of the
 * loop, so that one loop serves all three drivers.
 */
module Grid {
  import opened Wrappers
  import opened FileSystem
  import opened Tasks
  import opened TimeGrid
  import opened Sorting
  import opened Concat
  import opened LexOrder

  /**
   * What the loop needs besides the filesystem: the names it builds (the glob
   * pattern of an hour, the temp file of a log file found in an hour, the
   * output file of a day), the glob (assumed never to fail), the task run for
   * a log file given whether its temp file can be created, and the day's
   * aggregator, given the filesystem, the day's temp files and its midnight.
   */
  datatype Config = Config(
    pattern: Hour -> string,
    tempName: (Hour, Path) -> Path,
    dayFile: Hour -> Path,
    glob: string -> seq<Path>,
    task: (Path, bool) -> TaskRun,
    aggregate: (Host, seq<Path>, Hour) -> (Host, bool))

  /** The names are built by the driver's format strings from these parts. */
  ghost predicate NamedAs(cfg: Config, logDir: Path, logType: string, outDir: Path, stamp: Hour -> string)
  {
    && (forall h :: cfg.pattern(h) == GlobPattern(logDir, logType, h))
    && (forall h, f :: cfg.tempName(h, f) == TempName(outDir, stamp(h), f))
    && (forall d :: cfg.dayFile(d) == DayFileName(outDir, logType, d))
  }

  /**
   * A task leaves the day's wait group and the progress bar to the loop's
   * bookkeeping, and writes its temp file only when it could be created.
   */
  ghost predicate WellBehaved(cfg: Config)
  {
    forall logFile, createOk :: NoBookkeeping(cfg.task(logFile, createOk).steps)
      && (cfg.task(logFile, createOk).output.Some? ==> createOk)
  }

  /** The filesystem once a task has finished: its temp file, if it wrote one. */
  function Leave(h: Host, temp: Path, r: TaskRun): Host
  {
    if r.output.Some? then h.(files := h.files[temp := r.output.value]) else h
  }

  function Matches(cfg: Config, hour: Hour): seq<Path>
  {
    cfg.glob(cfg.pattern(hour))
  }

  /** The temp names of one hour's matches, in match order. */
  function TempsOf(cfg: Config, hour: Hour, ms: seq<Path>): (r: seq<Path>)
    ensures |r| == |ms|
    ensures forall i :: 0 <= i < |ms| ==> r[i] == cfg.tempName(hour, ms[i])
  {
    if ms == [] then [] else TempsOf(cfg, hour, ms[..|ms| - 1]) + [cfg.tempName(hour, ms[|ms| - 1])]
  }

  /** The temp names of some hours, in hour order and then match order. */
  function HoursTemps(cfg: Config, hs: seq<Hour>): seq<Path>
  {
    if hs == [] then [] else HoursTemps(cfg, hs[..|hs| - 1]) + TempsOf(cfg, hs[|hs| - 1], Matches(cfg, hs[|hs| - 1]))
  }

  /** The number of glob matches over some hours. */
  function TotalMatches(cfg: Config, hs: seq<Hour>): nat
  {
    if hs == [] then 0 else TotalMatches(cfg, hs[..|hs| - 1]) + |Matches(cfg, hs[|hs| - 1])|
  }

  /**
   * Where one day's scan stands: the filesystem, its temp list, the tasks
   * run, the day wait group's registrations and completions, and the global
   * task count.
   */
  datatype DayState = DayState(
    host: Host,
    temps: seq<Path>,
    runs: seq<TaskRun>,
    registered: nat,
    completed: nat,
    taskCount: nat)

  /** One log file: name its temp file, add it to the list and run its task. */
  function RunOne(s: DayState, cfg: Config, hour: Hour, logFile: Path): DayState
  {
    var temp := cfg.tempName(hour, logFile);
    var r := cfg.task(logFile, CanCreate(s.host, temp));
    // `wgDate.Add(1)` before the task starts; its deferred `wgDate.Done()` once it has run.
    DayState(Leave(s.host, temp, r), s.temps + [temp], s.runs + [r],
      s.registered + 1, s.completed + 1, s.taskCount)
  }

  function RunAll(s: DayState, cfg: Config, hour: Hour, ms: seq<Path>): DayState
  {
    if ms == [] then s else RunOne(RunAll(s, cfg, hour, ms[..|ms| - 1]), cfg, hour, ms[|ms| - 1])
  }

  /** One iteration of the hour loop: count the hour's matches, then run them. */
  function ScanHour(s: DayState, cfg: Config, hour: Hour): DayState
  {
    var ms := Matches(cfg, hour);
    RunAll(s.(taskCount := s.taskCount + |ms|), cfg, hour, ms)
  }

  function ScanHours(s: DayState, cfg: Config, hs: seq<Hour>): DayState
  {
    if hs == [] then s else ScanHour(ScanHours(s, cfg, hs[..|hs| - 1]), cfg, hs[|hs| - 1])
  }

  /** What one day produced. */
  datatype DayRun = DayRun(
    day: Hour,
    temps: seq<Path>,
    runs: seq<TaskRun>,
    registered: nat,
    completed: nat,
    output: Path,
    failed: bool)

  /**
   * Where the date loop stands: the filesystem, the days done, the day output
   * names, the task count, and the global wait group's additions and completions.
   */
  datatype GridState = GridState(
    host: Host,
    days: seq<DayRun>,
    outputFiles: seq<Path>,
    taskCount: nat,
    allAdded: nat,
    allDone: nat)

  /** One iteration of the date loop, for the `k`-th day. */
  function ScanDay(g: GridState, cfg: Config, start: Hour, end: Hour, k: nat): GridState
  {
    var d := DayStart(start, k);
    var s := ScanHours(DayState(g.host, [], [], 0, 0, g.taskCount), cfg, HoursOf(start, end, d));
    var out := cfg.dayFile(d);
    var (h', failed) := cfg.aggregate(s.host, s.temps, d);
    GridState(h', g.days + [DayRun(d, s.temps, s.runs, s.registered, s.completed, out, failed)],
      g.outputFiles + [out], s.taskCount, g.allAdded + 1, g.allDone + 1)
  }

  /** The first `k` iterations of the date loop. */
  function ScanDays(h: Host, cfg: Config, start: Hour, end: Hour, k: nat): GridState
  {
    if k == 0 then GridState(h, [], [], 0, 0, 0) else ScanDay(ScanDays(h, cfg, start, end, k - 1), cfg, start, end, k - 1)
  }

  // ---------------------------------------------------------------------------
  // The loops.

  /** The loop over one hour's matches. */
  method RunHour(s: DayState, cfg: Config, hour: Hour) returns (s': DayState)
    ensures s' == ScanHour(s, cfg, hour)
  {
    var ms := Matches(cfg, hour);
    s' := s.(taskCount := s.taskCount + |ms|);
    ghost var s0 := s';
    var i := 0;
    while i < |ms|
      invariant 0 <= i <= |ms|
      invariant s' == RunAll(s0, cfg, hour, ms[..i])
    {
      RunAllStep(s0, cfg, hour, ms, i);
      s' := RunOne(s', cfg, hour, ms[i]);
      i := i + 1;
    }
    assert ms[..|ms|] == ms;
  }

  lemma RunAllStep(s: DayState, cfg: Config, hour: Hour, ms: seq<Path>, i: nat)
    requires i < |ms|
    ensures RunAll(s, cfg, hour, ms[..i + 1]) == RunOne(RunAll(s, cfg, hour, ms[..i]), cfg, hour, ms[i])
  {
    assert ms[..i + 1][..i] == ms[..i];
  }

  lemma RangeStep(a: Hour, c: Hour)
    requires a <= c
    ensures Range(a, c + 1) == Range(a, c) + [c]
    ensures Range(a, c + 1)[..c - a] == Range(a, c)
  {
    RangeSplit(a, c, c + 1);
  }

  /** Scanning one more hour of a range scans that hour last. */
  lemma ScanHoursRangeStep(s: DayState, cfg: Config, a: Hour, c: Hour)
    requires a <= c
    ensures ScanHours(s, cfg, Range(a, c + 1)) == ScanHour(ScanHours(s, cfg, Range(a, c)), cfg, c)
  {
    RangeStep(a, c);
  }

  /**
   * The hour loop of the `k`-th day. `curTime` is where the previous day left
   * it: it is never reset at midnight, and runs on into the next day.
   */
  method ScanDayHours(s: DayState, cfg: Config, start: Hour, end: Hour, curDate: Hour, curTime: Hour, ghost k: nat)
    returns (s': DayState, curTime': Hour)
    requires curDate == DayStart(start, k) && curDate <= end && curTime == CurTimeAt(start, end, k)
    ensures s' == ScanHours(s, cfg, HoursOf(start, end, curDate))
    ensures curTime' == CurTimeAt(start, end, k + 1)
  {
    s' := s;
    curTime' := curTime;
    ghost var first := Max(start, curDate);
    ghost var last := Max(first, Min(curDate + 24, end + 1));
    assert curTime' == first;
    while curTime' < curDate + 24 && curTime' <= end
      invariant first <= curTime' <= last
      invariant s' == ScanHours(s, cfg, Range(first, curTime'))
    {
      s' := RunHour(s', cfg, curTime');
      ScanHoursRangeStep(s, cfg, first, curTime');
      curTime' := curTime' + 1;
    }
    DayHoursExit(start, end, k, curTime');
  }

  /** Where the hour loop of the `k`-th day stops: after that day's hours, at the next day's `curTime`. */
  lemma DayHoursExit(start: Hour, end: Hour, k: nat, t: Hour)
    requires DayStart(start, k) <= end
    requires var first := Max(start, DayStart(start, k));
      first <= t <= Max(first, Min(DayStart(start, k) + 24, end + 1))
    requires !(t < DayStart(start, k) + 24 && t <= end)
    ensures Range(Max(start, DayStart(start, k)), t) == HoursOf(start, end, DayStart(start, k))
    ensures t == CurTimeAt(start, end, k + 1)
  {
    assert DayStart(start, k + 1) == DayStart(start, k) + 24;
  }

  /**
   * The nested date and hour loops: one aggregator runs per day from the
   * start's midnight while that midnight is not after the end, days with no
   * hour in range or no matches included.
   */
  method ScanGrid(h: Host, cfg: Config, start: Hour, end: Hour) returns (g: GridState)
    ensures g == ScanDays(h, cfg, start, end, NumDays(start, end))
  {
    g := GridState(h, [], [], 0, 0, 0);
    var curDate := Day(start);
    var curTime := start;
    ghost var k: nat := 0;
    while curDate <= end
      invariant k <= NumDays(start, end)
      invariant curDate == DayStart(start, k) && curTime == CurTimeAt(start, end, k)
      invariant g == ScanDays(h, cfg, start, end, k)
      decreases NumDays(start, end) - k
    {
      var s;
      s, curTime := ScanDayHours(DayState(g.host, [], [], 0, 0, g.taskCount), cfg, start, end, curDate, curTime, k);
      var out := cfg.dayFile(curDate);
      var aggregated := cfg.aggregate(s.host, s.temps, curDate);
      g := GridState(aggregated.0, g.days + [DayRun(curDate, s.temps, s.runs, s.registered, s.completed, out, aggregated.1)],
        g.outputFiles + [out], s.taskCount, g.allAdded + 1, g.allDone + 1);
      curDate := curDate + 24;
      k := k + 1;
    }
  }

  // ---------------------------------------------------------------------------
  // What the loops compute.

  /** Each task run for an hour adds its temp name and registers and completes on the day's counters. */
  lemma {:induction false} RunAllEffect(s: DayState, cfg: Config, hour: Hour, ms: seq<Path>)
    ensures var r := RunAll(s, cfg, hour, ms);
      && r.temps == s.temps + TempsOf(cfg, hour, ms)
      && |r.runs| == |s.runs| + |ms|
      && r.registered == s.registered + |ms| && r.completed == s.completed + |ms|
      && r.taskCount == s.taskCount
  {
    if ms != [] {
      RunAllEffect(s, cfg, hour, ms[..|ms| - 1]);
      assert TempsOf(cfg, hour, ms) == TempsOf(cfg, hour, ms[..|ms| - 1]) + [cfg.tempName(hour, ms[|ms| - 1])];
    }
  }

  lemma {:induction false} ScanHoursEffect(s: DayState, cfg: Config, hs: seq<Hour>)
    ensures var r := ScanHours(s, cfg, hs);
      && r.temps == s.temps + HoursTemps(cfg, hs)
      && |r.runs| == |s.runs| + |HoursTemps(cfg, hs)|
      && r.registered == s.registered + |HoursTemps(cfg, hs)|
      && r.completed == s.completed + |HoursTemps(cfg, hs)|
      && r.taskCount == s.taskCount + TotalMatches(cfg, hs)
  {
    if hs != [] {
      var hour := hs[|hs| - 1];
      var p := ScanHours(s, cfg, hs[..|hs| - 1]);
      ScanHoursEffect(s, cfg, hs[..|hs| - 1]);
      var ms := Matches(cfg, hour);
      RunAllEffect(p.(taskCount := p.taskCount + |ms|), cfg, hour, ms);
    }
  }

  /**
   * The temp files a day's tasks wrote, by name: each run's output under its
   * temp name, a later run of the same name overwriting an earlier one.
   */
  function Produced(temps: seq<Path>, runs: seq<TaskRun>): (m: map<Path, seq<Line>>)
    requires |temps| == |runs|
    ensures forall t :: t in m ==> t in temps
  {
    if temps == [] then map[]
    else
      var m := Produced(temps[..|temps| - 1], runs[..|runs| - 1]);
      var r := runs[|runs| - 1];
      if r.output.Some? then m[temps[|temps| - 1] := r.output.value] else m
  }

  /** With distinct temp names, the `i`-th temp file exists exactly when the `i`-th task wrote it, with what it wrote. */
  lemma {:induction false} ProducedAt(temps: seq<Path>, runs: seq<TaskRun>, i: nat)
    requires |temps| == |runs| && NoDuplicates(temps) && i < |temps|
    ensures temps[i] in Produced(temps, runs) <==> runs[i].output.Some?
    ensures runs[i].output.Some? ==> Produced(temps, runs)[temps[i]] == runs[i].output.value
    decreases |temps|
  {
    var n := |temps| - 1;
    var t, rs := temps[..n], runs[..n];
    var m := Produced(t, rs);
    assert Produced(temps, runs) == if runs[n].output.Some? then m[temps[n] := runs[n].output.value] else m;
    if i < n {
      assert t[i] == temps[i] && rs[i] == runs[i];
      assert NoDuplicates(t) by {
        forall a, b | 0 <= a < b < |t| ensures t[a] != t[b] {
          assert t[a] == temps[a] && t[b] == temps[b];
        }
      }
      assert temps[n] != temps[i];
      ProducedAt(t, rs, i);
    }
  }

  /** The files of a day scan so far: those it started from, with every temp file written so far. */
  predicate HostIs(s: DayState, files: map<Path, seq<Line>>, rest: Host)
  {
    && |s.temps| == |s.runs|
    && s.host == rest.(files := files + Produced(s.temps, s.runs))
  }

  lemma RunOneHost(s: DayState, cfg: Config, hour: Hour, logFile: Path, files: map<Path, seq<Line>>, rest: Host)
    requires HostIs(s, files, rest)
    ensures HostIs(RunOne(s, cfg, hour, logFile), files, rest)
  {
    var s' := RunOne(s, cfg, hour, logFile);
    assert s'.temps[..|s'.temps| - 1] == s.temps;
    assert s'.runs[..|s'.runs| - 1] == s.runs;
    var r := s'.runs[|s'.runs| - 1];
    if r.output.Some? {
      var temp := s'.temps[|s'.temps| - 1];
      var p := Produced(s.temps, s.runs);
      assert (files + p)[temp := r.output.value] == files + p[temp := r.output.value];
    }
  }

  lemma {:induction false} RunAllHost(s: DayState, cfg: Config, hour: Hour, ms: seq<Path>, files: map<Path, seq<Line>>, rest: Host)
    requires HostIs(s, files, rest)
    ensures HostIs(RunAll(s, cfg, hour, ms), files, rest)
  {
    if ms != [] {
      RunAllHost(s, cfg, hour, ms[..|ms| - 1], files, rest);
      RunOneHost(RunAll(s, cfg, hour, ms[..|ms| - 1]), cfg, hour, ms[|ms| - 1], files, rest);
    }
  }

  /**
   * A day's hours change the filesystem only by the temp files they write:
   * started from `files` and no temp file, the scan ends with `files` plus
   * what its tasks produced, and the directories, standard output and log as
   * they were.
   */
  lemma {:induction false} ScanHoursHost(s: DayState, cfg: Config, hs: seq<Hour>, files: map<Path, seq<Line>>, rest: Host)
    requires HostIs(s, files, rest)
    ensures HostIs(ScanHours(s, cfg, hs), files, rest)
  {
    if hs != [] {
      var p := ScanHours(s, cfg, hs[..|hs| - 1]);
      ScanHoursHost(s, cfg, hs[..|hs| - 1], files, rest);
      var ms := Matches(cfg, hs[|hs| - 1]);
      RunAllHost(p.(taskCount := p.taskCount + |ms|), cfg, hs[|hs| - 1], ms, files, rest);
    }
  }

  /**
   * Concatenating the temp files with `delete` set, over files none of which
   * was a temp file, leaves the files as they were before the tasks ran, and
   * reads just what the tasks wrote.
   */
  lemma OverlayUndone(files: map<Path, seq<Line>>, temps: seq<Path>, runs: seq<TaskRun>)
    requires |temps| == |runs| && forall t :: t in temps ==> t !in files
    ensures Kept(files + Produced(temps, runs), SortSpec(temps), true) == files
    ensures Gather(files + Produced(temps, runs), SortSpec(temps)) == Gather(Produced(temps, runs), SortSpec(temps))
  {
    var p := Produced(temps, runs);
    SortedInputs(temps);
    GatherAgrees(files + p, p, SortSpec(temps));
    var k := Kept(files + p, SortSpec(temps), true);
    forall q ensures (q in k <==> q in files) && (q in k ==> k[q] == files[q]) {
    }
  }

  /** Every task of a list registered once and completed once. */
  ghost predicate AllCompleteOnce(runs: seq<TaskRun>)
  {
    forall i :: 0 <= i < |runs| ==> CompletesOnce(Trace(runs[i]))
  }

  lemma {:induction false} RunAllCompletes(s: DayState, cfg: Config, hour: Hour, ms: seq<Path>)
    requires WellBehaved(cfg) && AllCompleteOnce(s.runs)
    ensures AllCompleteOnce(RunAll(s, cfg, hour, ms).runs)
  {
    if ms != [] {
      var p := RunAll(s, cfg, hour, ms[..|ms| - 1]);
      RunAllCompletes(s, cfg, hour, ms[..|ms| - 1]);
      var logFile := ms[|ms| - 1];
      TraceCompletesOnce(cfg.task(logFile, CanCreate(p.host, cfg.tempName(hour, logFile))));
    }
  }

  lemma {:induction false} ScanHoursCompletes(s: DayState, cfg: Config, hs: seq<Hour>)
    requires WellBehaved(cfg) && AllCompleteOnce(s.runs)
    ensures AllCompleteOnce(ScanHours(s, cfg, hs).runs)
  {
    if hs != [] {
      var hour := hs[|hs| - 1];
      var p := ScanHours(s, cfg, hs[..|hs| - 1]);
      ScanHoursCompletes(s, cfg, hs[..|hs| - 1]);
      RunAllCompletes(p.(taskCount := p.taskCount + |Matches(cfg, hour)|), cfg, hour, Matches(cfg, hour));
    }
  }

  /**
   * The bookkeeping of one day: its midnight and output name, one temp path
   * per match in hour order and then match order, and one task per temp path,
   * so that when the aggregator starts the day's wait group has seen as many
   * registrations as there are temp files, and as many completions.
   */
  ghost predicate DayFacts(cfg: Config, start: Hour, end: Hour, k: nat, r: DayRun)
  {
    var d := DayStart(start, k);
    && r.day == d
    && r.output == cfg.dayFile(d)
    && r.temps == HoursTemps(cfg, HoursOf(start, end, d))
    && |r.runs| == |r.temps|
    && r.registered == |r.temps| && r.completed == |r.temps|
  }

  lemma {:induction false} TotalMatchesAppend(cfg: Config, a: seq<Hour>, b: seq<Hour>)
    ensures TotalMatches(cfg, a + b) == TotalMatches(cfg, a) + TotalMatches(cfg, b)
    decreases |b|
  {
    if b == [] {
      assert a + b == a;
    } else {
      assert (a + b)[..|a + b| - 1] == a + b[..|b| - 1];
      TotalMatchesAppend(cfg, a, b[..|b| - 1]);
    }
  }

  /** The facts of each day of a list, the `j`-th being the `j`-th day of the loop. */
  ghost predicate AllDayFacts(cfg: Config, start: Hour, end: Hour, days: seq<DayRun>)
  {
    forall j :: 0 <= j < |days| ==> DayFacts(cfg, start, end, j, days[j])
  }

  /** Each day's output name is its record's. */
  predicate OutputsOf(days: seq<DayRun>, outputFiles: seq<Path>)
  {
    |outputFiles| == |days| && forall j :: 0 <= j < |days| ==> outputFiles[j] == days[j].output
  }

  /** Every task of every day registered once and completed once. */
  ghost predicate AllDaysComplete(days: seq<DayRun>)
  {
    forall j :: 0 <= j < |days| ==> AllCompleteOnce(days[j].runs)
  }

  /** Appending the next day's record keeps the facts of every day. */
  lemma DaysAppend(cfg: Config, start: Hour, end: Hour, days: seq<DayRun>, outputFiles: seq<Path>, r: DayRun)
    requires AllDayFacts(cfg, start, end, days) && DayFacts(cfg, start, end, |days|, r)
    requires OutputsOf(days, outputFiles)
    ensures AllDayFacts(cfg, start, end, days + [r])
    ensures OutputsOf(days + [r], outputFiles + [r.output])
    ensures AllDaysComplete(days) && AllCompleteOnce(r.runs) ==> AllDaysComplete(days + [r])
  {
    forall j | 0 <= j < |days| + 1 ensures DayFacts(cfg, start, end, j, (days + [r])[j]) {
      if j < |days| {
        assert (days + [r])[j] == days[j];
      }
    }
  }

  /**
   * One day's iteration appends one record, with that day's facts, and its
   * output name, and counts once on the global wait group.
   */
  lemma DayStep(g: GridState, cfg: Config, start: Hour, end: Hour, k: nat)
    ensures var g' := ScanDay(g, cfg, start, end, k);
      && |g'.days| == |g.days| + 1
      && g'.days == g.days + [g'.days[|g.days|]]
      && g'.outputFiles == g.outputFiles + [g'.days[|g.days|].output]
      && g'.allAdded == g.allAdded + 1 && g'.allDone == g.allDone + 1
      && DayFacts(cfg, start, end, k, g'.days[|g.days|])
      && (WellBehaved(cfg) ==> AllCompleteOnce(g'.days[|g.days|].runs))
  {
    var s0 := DayState(g.host, [], [], 0, 0, g.taskCount);
    ScanHoursEffect(s0, cfg, HoursOf(start, end, DayStart(start, k)));
    if WellBehaved(cfg) {
      ScanHoursCompletes(s0, cfg, HoursOf(start, end, DayStart(start, k)));
    }
  }

  /** One day's iteration adds the day's matches to the task count. */
  lemma DayStepCount(g: GridState, cfg: Config, start: Hour, end: Hour, k: nat)
    ensures ScanDay(g, cfg, start, end, k).taskCount == g.taskCount + TotalMatches(cfg, HoursOf(start, end, DayStart(start, k)))
  {
    ScanHoursEffect(DayState(g.host, [], [], 0, 0, g.taskCount), cfg, HoursOf(start, end, DayStart(start, k)));
  }

  /**
   * After `k` days: one record and one output name per day, and the global
   * wait group added to and completed once per day.
   */
  lemma {:induction false} ScanDaysEffect(h: Host, cfg: Config, start: Hour, end: Hour, k: nat)
    ensures var g := ScanDays(h, cfg, start, end, k);
      && |g.days| == k
      && AllDayFacts(cfg, start, end, g.days)
      && OutputsOf(g.days, g.outputFiles)
      && g.allAdded == k && g.allDone == k
  {
    if k > 0 {
      var j: nat := k - 1;
      ScanDaysEffect(h, cfg, start, end, j);
      var g := ScanDays(h, cfg, start, end, j);
      assert ScanDays(h, cfg, start, end, k) == ScanDay(g, cfg, start, end, j);
      DayStep(g, cfg, start, end, j);
      DaysAppend(cfg, start, end, g.days, g.outputFiles, ScanDay(g, cfg, start, end, j).days[j]);
    }
  }

  /** For tasks that leave the bookkeeping alone, after `k` days every task has registered once and completed once. */
  lemma {:induction false} ScanDaysComplete(h: Host, cfg: Config, start: Hour, end: Hour, k: nat)
    requires WellBehaved(cfg)
    ensures AllDaysComplete(ScanDays(h, cfg, start, end, k).days)
  {
    if k > 0 {
      var j: nat := k - 1;
      ScanDaysComplete(h, cfg, start, end, j);
      ScanDaysEffect(h, cfg, start, end, j);
      var g := ScanDays(h, cfg, start, end, j);
      assert ScanDays(h, cfg, start, end, k) == ScanDay(g, cfg, start, end, j);
      DayStep(g, cfg, start, end, j);
      DaysAppend(cfg, start, end, g.days, g.outputFiles, ScanDay(g, cfg, start, end, j).days[j]);
    }
  }

  /** The number of glob matches over the hours of days `0 .. k - 1`, day by day. */
  function GridMatches(cfg: Config, start: Hour, end: Hour, k: nat): nat
  {
    if k == 0 then 0 else GridMatches(cfg, start, end, k - 1) + TotalMatches(cfg, HoursOf(start, end, DayStart(start, k - 1)))
  }

  /** Counting day by day is counting over all the hours visited. */
  lemma {:induction false} GridMatchesAreTotal(cfg: Config, start: Hour, end: Hour, k: nat)
    ensures GridMatches(cfg, start, end, k) == TotalMatches(cfg, GridHours(start, end, k))
  {
    if k > 0 {
      var j: nat := k - 1;
      GridMatchesAreTotal(cfg, start, end, j);
      GridHoursStep(start, end, j);
      TotalMatchesAppend(cfg, GridHours(start, end, j), HoursOf(start, end, DayStart(start, j)));
    }
  }

  /** After `k` days the task count is the number of matches over the hours visited so far. */
  lemma {:induction false} ScanDaysCount(h: Host, cfg: Config, start: Hour, end: Hour, k: nat)
    ensures ScanDays(h, cfg, start, end, k).taskCount == GridMatches(cfg, start, end, k)
  {
    if k > 0 {
      var j: nat := k - 1;
      ScanDaysCount(h, cfg, start, end, j);
      var g := ScanDays(h, cfg, start, end, j);
      assert ScanDays(h, cfg, start, end, k) == ScanDay(g, cfg, start, end, j);
      DayStepCount(g, cfg, start, end, j);
    }
  }

  /** The driver's whole scan, from the start hour to the end hour. */
  lemma ScanGridEffect(h: Host, cfg: Config, start: Hour, end: Hour)
    requires WellBehaved(cfg)
    ensures var g := ScanDays(h, cfg, start, end, NumDays(start, end));
      && |g.days| == NumDays(start, end) && |g.outputFiles| == |g.days|
      && AllDayFacts(cfg, start, end, g.days)
      && AllDaysComplete(g.days)
      && (forall j :: 0 <= j < |g.days| ==> g.outputFiles[j] == cfg.dayFile(DayStart(start, j)))
      && (forall i, j :: 0 <= i < j < |g.days| ==> g.days[i].day < g.days[j].day)
      && g.allAdded == g.allDone == |g.days|
      && g.taskCount == TotalMatches(cfg, Range(start, end + 1))
  {
    ScanDaysEffect(h, cfg, start, end, NumDays(start, end));
    ScanDaysComplete(h, cfg, start, end, NumDays(start, end));
    ScanDaysCount(h, cfg, start, end, NumDays(start, end));
    GridMatchesAreTotal(cfg, start, end, NumDays(start, end));
    GridVisitsEachHourOnce(start, end);
  }

  /** Every match of every hour gets its temp name in the day's list. */
  lemma {:induction false} HoursTempsHas(cfg: Config, hs: seq<Hour>, h: Hour, f: Path)
    requires h in hs && f in Matches(cfg, h)
    ensures cfg.tempName(h, f) in HoursTemps(cfg, hs)
    decreases |hs|
  {
    var last := hs[|hs| - 1];
    if h == last {
      var ms := Matches(cfg, h);
      var k :| 0 <= k < |ms| && ms[k] == f;
      assert TempsOf(cfg, h, ms)[k] == cfg.tempName(h, f);
    } else {
      assert h in hs[..|hs| - 1] by {
        var k :| 0 <= k < |hs| && hs[k] == h;
        assert k < |hs| - 1 && hs[..|hs| - 1][k] == h;
      }
      HoursTempsHas(cfg, hs[..|hs| - 1], h, f);
    }
  }

  /**
   * Once the day's temp list is sorted, every temp of an earlier hour comes
   * before every temp of a later hour, when the temp names carry a stamp that
   * sorts as the hours do: the day file's lines are in hour order.
   */
  lemma SortedTempsFollowHours(cfg: Config, logDir: Path, logType: string, outDir: Path, stamp: Hour -> string,
                               hs: seq<Hour>, h1: Hour, f1: Path, h2: Hour, f2: Path)
    requires NamedAs(cfg, logDir, logType, outDir, stamp) && StampsSortByTime(stamp)
    requires h1 in hs && f1 in Matches(cfg, h1) && h2 in hs && f2 in Matches(cfg, h2) && h1 < h2
    ensures cfg.tempName(h1, f1) in SortSpec(HoursTemps(cfg, hs))
    ensures cfg.tempName(h2, f2) in SortSpec(HoursTemps(cfg, hs))
    ensures forall i, j ::
              (0 <= i < |SortSpec(HoursTemps(cfg, hs))| && 0 <= j < |SortSpec(HoursTemps(cfg, hs))|
               && SortSpec(HoursTemps(cfg, hs))[i] == cfg.tempName(h1, f1)
               && SortSpec(HoursTemps(cfg, hs))[j] == cfg.tempName(h2, f2)) ==> i < j
  {
    var t := HoursTemps(cfg, hs);
    HoursTempsHas(cfg, hs, h1, f1);
    HoursTempsHas(cfg, hs, h2, f2);
    SortSpecKeeps(t, cfg.tempName(h1, f1));
    SortSpecKeeps(t, cfg.tempName(h2, f2));
    NamedTempsSortByHour(cfg, logDir, logType, outDir, stamp, h1, f1, h2, f2);
    SortSpecSortsAndPermutes(t);
    SortedKeepsLessFirst(SortSpec(t), cfg.tempName(h1, f1), cfg.tempName(h2, f2));
  }

  /** The driver's temp names of an earlier hour sort first. */
  lemma NamedTempsSortByHour(cfg: Config, logDir: Path, logType: string, outDir: Path, stamp: Hour -> string,
                             h1: Hour, f1: Path, h2: Hour, f2: Path)
    requires NamedAs(cfg, logDir, logType, outDir, stamp) && StampsSortByTime(stamp) && h1 < h2
    ensures LexLess(cfg.tempName(h1, f1), cfg.tempName(h2, f2))
  {
    assert cfg.tempName(h1, f1) == TempName(outDir, stamp(h1), f1);
    assert cfg.tempName(h2, f2) == TempName(outDir, stamp(h2), f2);
    TempNamesSortByHour(outDir, stamp, h1, h2, f1, f2);
  }

  /** Sorting loses no element. */
  lemma SortSpecKeeps(t: seq<string>, x: string)
    requires x in t
    ensures x in SortSpec(t)
  {
    SortSpecSortsAndPermutes(t);
    assert x in multiset(t);
  }

  /** In a sorted list, whatever sorts strictly first stands first. */
  lemma SortedKeepsLessFirst(s: seq<string>, a: string, b: string)
    requires Sorted(s) && LexLess(a, b)
    ensures forall i, j :: 0 <= i < |s| && 0 <= j < |s| && s[i] == a && s[j] == b ==> i < j
  {
    forall i, j | 0 <= i < |s| && 0 <= j < |s| && s[i] == a && s[j] == b ensures i < j {
      if j < i {
        assert LexLe(s[j], s[i]);
        LexLeAntisymmetric(a, b);
      }
    }
  }
}
