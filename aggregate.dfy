/**
 * The per-day aggregator: once every task of a day has completed, it folds
 * the day's temp files into the day's output file, deleting them, and logs
 * whether that worked. `ConcatFilesParallelByDate` is given the output name;
 * the legacy `outputDateParallel` builds it from the output directory.
 */
module Aggregate {
  import opened Wrappers
  import opened FileSystem
  import opened Concat
  import opened TimeGrid

  /** What aggregating a day does to the filesystem and the log, and whether it failed. */
  function AggregateSpec(h: Host, temps: seq<Path>, out: Path, day: Hour, closeOk: bool): (r: (Host, bool))
    // No temp files: a warning, no concatenation, no file created or removed.
    ensures temps == [] ==>
      && !r.1
      && r.0 == h.(log := h.log + [NoMatches(day), DaySucceeded(day)])
    // Otherwise the temp files are concatenated and deleted, missing ones reported;
    // the day fails exactly when that concatenation returned an error.
    ensures temps != [] ==>
      var (c, err) := ConcatFilesSpec(h, temps, out, true, false, closeOk);
      && (r.1 <==> err.Some?)
      && r.0.files == c.files && r.0.dirs == c.dirs && r.0.stdout == c.stdout
    // Either way exactly one verdict is logged, last.
    ensures |r.0.log| > 0 && r.0.log[|r.0.log| - 1] == (if r.1 then DayFailed(day) else DaySucceeded(day))
  {
    if temps == [] then
      (Report(Report(h, NoMatches(day)), DaySucceeded(day)), false)
    else
      var (c, err) := ConcatFilesSpec(h, temps, out, true, false, closeOk);
      if err.Some? then (Report(Report(c, Reported(err.value)), DayFailed(day)), true)
      else (Report(c, DaySucceeded(day)), false)
  }

  /** Copies a slice into a fresh array, as passing it to a callee that sorts it. */
  method ToArray(s: seq<Path>) returns (a: array<Path>)
    ensures fresh(a) && a[..] == s
  {
    a := new Path[|s|](i requires 0 <= i < |s| => s[i]);
  }

  /**
   * `ConcatFilesParallelByDate`, from the point where the day's wait group has
   * been waited for (every task of the day has completed by then).
   */
  method ConcatFilesParallelByDate(h: Host, temps: seq<Path>, out: Path, day: Hour, closeOk: bool)
    returns (h': Host, failed: bool)
    ensures (h', failed) == AggregateSpec(h, temps, out, day, closeOk)
  {
    h' := h;
    failed := false;
    if |temps| == 0 {
      h' := Report(h', NoMatches(day));
    } else {
      var inputs := ToArray(temps);
      var e;
      h', e := ConcatFiles(h', inputs, out, true, false, closeOk);
      if e.Some? {
        h' := Report(h', Reported(e.value));
        failed := true;
      }
    }
    if failed {
      h' := Report(h', DayFailed(day));
    } else {
      h' := Report(h', DaySucceeded(day));
    }
  }

  /**
   * `outputDateParallel`: the same, with the output named
   * `<outputDir>/<logType>-YYYY-MM-DD.json` after the day.
   */
  method OutputDateParallel(h: Host, logType: string, temps: seq<Path>, outputDir: Path, day: Hour, closeOk: bool)
    returns (h': Host, failed: bool)
    ensures (h', failed) == AggregateSpec(h, temps, DayFileName(outputDir, logType, day), day, closeOk)
  {
    var out := DayFileName(outputDir, logType, day);
    h', failed := ConcatFilesParallelByDate(h, temps, out, day, closeOk);
  }
}
