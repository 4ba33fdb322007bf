# nagini log pull, modelled in Dafny

nagini pulls Zeek logs for a span of hours. For every hour from the start to
the end it globs the hour's compressed log files and starts one task per
file. The task is the `run` command's filter program or the legacy
`parallel` command's script, and it writes one temp file.

Once every task of a day has finished, that day's temp files are
concatenated (sorted, then deleted) into one output file per day. At the
end, `ParseLogs` either streams all day files to standard output and removes
the output directory, or folds them into one file, or leaves them as they
are.

The model is sequential and works on a filesystem value:

- **Filesystem.** A `Host` holds a map from paths to lines, a set of
  directories, what was written to standard output, and the messages
  reported.
- **Time.** Times are whole hours since Go's zero time.
- **Tasks.** A task runs to completion when it is dispatched.
- **Aggregators.** A day's aggregator runs once that day's tasks are all done.

Modules and files:

- `LexOrder` (`lexorder.dfy`): Go's string order.
- `Sorting` (`sorting.dfy`): `sort.Strings`, an in-place sort of an `array`,
  specified by the unique sorted permutation.
- `FileSystem` (`filesystem.dfy`): paths, `filepath.Dir`/`Base`/`Join`,
  `os.Remove`, and how lines are written out.
- `Concat` (`concat.dfy`): `concatFilesToFd`, `ConcatFiles` and
  `ConcatToStdout`, as methods over an array of paths. They are proved equal
  to a reference fold `ReadInputs`, and that fold is characterised by
  `Gather` (the lines read) and `Kept` (the files left).
- `DirCheck` (`dircheck.dfy`): `TryCreateDir` as its doc comment intends it, and
  `TryCreateDirAsWritten`, the code as written with `os.Stat` and `os.OpenFile`
  as a POSIX system answers them.
- `TimeGrid` (`timegrid.dfy`): several parts of the hour grid.
  - The day arithmetic (`Truncate`/`Round` to 24 h), and the hours each day
    of the date loop visits.
  - The proleptic Gregorian date of an hour.
  - Zero padding.
  - The glob pattern, temp and day-file names.
- `Tasks` (`tasks.dfy`): `runCommand` and `runScript`, as step traces with
  Go's deferred calls.
- `Aggregate` (`aggregate.dfy`): `ConcatFilesParallelByDate` and `outputDateParallel`.
- `Grid` (`grid.dfy`): the nested date and hour loops shared by the three
  drivers, as methods proved equal to reference functions `ScanHours` and
  `ScanDays`.
  - The names, the glob, the per-file task and the day's aggregator are
    fields of a `Config`.
  - The task is constrained only by `WellBehaved`: it does not touch the
    bookkeeping, and it writes its temp file only if the file could be created.
  - The wait groups become counters.
- `Drivers` (`drivers.dfy`): `ParseLogs`, the `run` command and the
  `parallel` command. Each builds its `Config`, prepares the output
  directory, scans, and finalizes the day files.

One behaviour of the code, as written, is proved rather than corrected:

- **Glob errors.** A glob error `continue`s before `curTime` advances, so the
  same hour is retried forever (`TimeGrid.GlobErrorRetriesForever`). The
  loops therefore take the glob as a function that does not fail.

The `run` and `parallel` commands name their files after the `-o` flag as
given, and prepare its absolute form. The OS resolves a relative name against
the working directory, so the model gives these commands the working
directory `cwd` and hands the filesystem each name resolved against it
(`Drivers.DriverNamesResolve`).

## Model

| member | source | states |
|---|---|---|
| LexOrder.LexLeTotal | lib/files.go:117-118 | any two strings are ordered one way or the other |
| LexOrder.LexLeAntisymmetric | lib/files.go:117-118 | strings ordered both ways are equal |
| LexOrder.LexLeTransitive | lib/files.go:117-118 | the string order is transitive |
| Sorting.SortStrings | lib/files.go:118 | `sort.Strings` sorts the caller's array in place: afterwards it is sorted, a permutation of the old contents, and equal to `SortSpec` of them |
| Sorting.SortSpecSortsAndPermutes | lib/files.go:118 | the reference sort yields a sorted permutation of its input |
| Sorting.SortedUnique | lib/files.go:118 | two sorted sequences with the same elements are equal, so every correct sort agrees with `sort.Strings` |
| Sorting.SortedPermutationIsSortSpec | lib/files.go:118 | any sorted permutation of a sequence is its `SortSpec` |
| Sorting.SortSpecForgetsOrder | lib/files.go:118 | permutations of one another sort to the same sequence |
| Sorting.SortSpecOfSorted | lib/files.go:118 | an already sorted sequence is left as it is |
| FileSystem.ResolveJoin | cmd/run.go:118-121 | a name joined onto a directory and resolved against the working directory is the name joined onto the resolved directory |
| FileSystem.JoinSplits | lib/files.go:201-204 | joining a plain name onto a clean directory is undone by `Dir` and `Base` |
| FileSystem.FramedShape | lib/files.go:133-135 | one output string per line, each the line followed by `"\n"` |
| FileSystem.Remove | lib/files.go:244-247 | `os.Remove` succeeds exactly on a file or an empty directory; it removes only that path; on failure nothing changes |
| Concat.CopyLines | lib/files.go:132-135 | the scanner loop appends every line of the input, framed, to the sink |
| Concat.WriteAppend | lib/files.go:133-135 | writing two runs of lines one after the other is writing them together |
| Concat.ConcatFilesToFd | lib/files.go:115-150 | leaves the caller's array sorted; the filesystem is the fold `ReadInputs` over the sorted inputs; the error is that of closing the output |
| Concat.ConcatFiles | lib/files.go:104-111 | when the output cannot be created, the create error is returned and nothing is read, sorted or removed; otherwise the output is truncated and `concatFilesToFd` runs on it |
| Concat.ConcatToStdout | lib/files.go:99-101 | `concatFilesToFd` onto standard output |
| Concat.Kept | lib/files.go:141-146 | the files left after deleting inputs: exactly those not among the inputs (all when not deleting), contents unchanged |
| Concat.ReadInputsToStdout | lib/files.go:121-146 | standard output grows by the framed lines of every existing input, in input order; the files left are `Kept` (with delete, for distinct inputs) |
| Concat.ReadInputsToFile | lib/files.go:121-146 | an existing output file that is not an input gains the lines of every existing input, in order; the other files are `Kept`; standard output is untouched |
| Concat.ReadInputsDirs | lib/files.go:121-146 | the loop removes no directory except an input, and that only when deleting |
| Concat.DirectoryInput | lib/files.go:122-146 | a directory input opens: it is logged as concatenated, contributes no lines and changes no file; with delete it is removed exactly when it is empty, and otherwise "could not remove" is logged |
| Concat.IgnoreMissingOnlySilences | lib/files.go:122-128 | `ignoreMissing` changes only the messages: files, directories and output are the same either way |
| Concat.IgnoreMissingIsSilent | lib/files.go:122-128 | with `ignoreMissing` no "could not read" message is added, and earlier messages are kept |
| Concat.MissingAreReported | lib/files.go:122-128 | without `ignoreMissing` the "could not read" messages added are exactly the inputs that are neither file nor directory, in order, and earlier messages are kept |
| Concat.Unopenable | lib/files.go:122-127 | the inputs the model cannot open, in order: exactly those that are neither file nor directory (permission and descriptor failures are not modelled) |
| Concat.ConcatFilesIgnoresInputOrder | lib/files.go:117-118 | the caller's order of the inputs does not matter, since they are sorted first |
| Concat.SortedInputs | lib/files.go:118 | sorting keeps the same paths, and keeps them distinct |
| Concat.ConcatFilesContent | lib/files.go:104-150 | `ConcatFiles` into a creatable output that is not an input: the output holds exactly the lines of the existing inputs in sorted order; deleted inputs are gone; standard output is unchanged; no directory goes except a deleted input; an error exactly when closing fails. Not creatable: nothing changes and the create error is returned |
| Concat.ConcatToStdoutContent | lib/files.go:99-150 | `ConcatToStdout`: standard output gains the framed lines of the existing inputs in sorted order; deleted inputs are gone; no directory goes except a deleted input |
| DirCheck.TryCreateDir | lib/files.go:25-65 | unresolvable path: error. Absent target: a missing parent gives its error, and a parent that is a regular file the "exists but is not a directory" error (the intended outcome; the code as written panics there, see Findings); otherwise it is created exactly when mkdir succeeds. Existing non-directory: error. Existing directory: refused when it may not be written to, and otherwise exactly when `empty` is set and it has entries (the intended checks; the code as written accepts every existing directory, see Findings). Only the target directory is ever added; a failure changes nothing |
| DirCheck.PosixStat | lib/files.go:30-31 | `os.Stat` finds exactly what exists, and reports a directory exactly for a directory; it fails with "not a directory", not "does not exist", exactly for an absent path under a regular file |
| DirCheck.TryCreateDirAsWritten | lib/files.go:25-65 | the code as written on POSIX, where the read-write open of a directory always fails: it dereferences a nil `FileInfo` only for an absent target under a regular file; when it returns without error, no directory has gone |
| DirCheck.AsWrittenPanicsUnderFile | lib/files.go:30-46 | on a well-formed filesystem and an absolute path, the code as written panics exactly when the target lies under a regular file, and then at line 44, never at line 37; it accepts every existing directory; for any other target it returns what `TryCreateDir` returns |
| DirCheck.FileParentDereferencesNil | lib/files.go:33-46 | a parent that is a regular file: the code as written panics at line 44, while `TryCreateDir` returns the "exists but is not a directory" error for that parent and changes nothing |
| DirCheck.AsWrittenNeverParentNotDir | lib/files.go:37-39 | on a well-formed filesystem and an absolute path, the code as written never returns the "exists but is not a directory" error |
| DirCheck.ExistingNotUnderFile | lib/files.go:30 | in a well-formed filesystem nothing that exists lies under a regular file |
| DirCheck.TryCreateDirKeepsValid | lib/files.go:42 | creating the directory keeps the filesystem well formed |
| DirCheck.CreatedDirIsEmpty | lib/files.go:31-42 | a directory just created has no entries |
| DirCheck.ExistingDirRefusals | lib/files.go:20-24 | an existing non-empty directory is refused when it may not be written to, refused when `empty` is set, and accepted otherwise |
| DirCheck.AsWrittenNeverRefusesDir | lib/files.go:47-61 | the code as written never returns the "non-empty" refusal, nor any write-permission refusal |
| DirCheck.NonEmptyDirAccepted | lib/files.go:49-52 | a non-empty existing directory with `empty` set: the code as written accepts it and changes nothing, while `TryCreateDir` refuses it when it may be written to |
| TimeGrid.Day | lib/files.go:171 | `Truncate(24h)`: a midnight, at most 23 hours before the hour |
| TimeGrid.HourOfDay | lib/files.go:189 | `Hour()`: below 24, and the midnight plus it is the hour |
| TimeGrid.Round24 | cmd/parallel.go:97 | `Round(24h)`: a midnight within 12 hours, rounding half up |
| TimeGrid.Round24IsUnique | cmd/parallel.go:97 | that nearest midnight is unique |
| TimeGrid.NumDays | lib/files.go:182 | the date loop runs for the `k`-th midnight exactly when that midnight is not after the end |
| TimeGrid.DayCountMatchesOnlyAfterNoon | cmd/parallel.go:97-104 | `dayCount` equals the number of days aggregated exactly when the end hour is 12 or later; otherwise it is one less |
| TimeGrid.Range | lib/files.go:187-212 | the hours `a .. b-1`, in order |
| TimeGrid.GridHoursSoFar | lib/files.go:172-212 | the first `k` days visit exactly the hours from the start up to where `curTime` then stands |
| TimeGrid.CurTimeStep | lib/files.go:171-212 | `curTime` is not reset at midnight: each day's hours run from where the previous day left it |
| TimeGrid.GridVisitsEachHourOnce | lib/files.go:171-213 | all days together visit exactly the hours start, start+1, …, end, each once and in order |
| TimeGrid.HoursLieInTheirDay | lib/files.go:187 | every hour visited on a day lies in that day |
| TimeGrid.SingleHourRange | lib/files.go:182-187 | start = end gives one day with one hour |
| TimeGrid.GlobErrorRetriesForever | lib/files.go:191-194 | after a glob error the loop stays on the same hour however often it iterates |
| TimeGrid.NoGlobErrorAdvances | lib/files.go:212 | without glob errors, each iteration advances one hour |
| TimeGrid.MonthsMakeYear | lib/files.go:189 | the twelve months' days add up to the year's |
| TimeGrid.MonthAndDayNumber | lib/files.go:189 | counting days on from the first of a month stays within the year's months and lands that many days on |
| TimeGrid.YearAndDayNumber | lib/files.go:189 | counting days on from January 1 lands on a real date that many days on |
| TimeGrid.Civil | lib/files.go:189 | `Year()`, `Month()`, `Day()`: a real date (a day within its month's length) whose day number is the whole days since the zero time |
| TimeGrid.CivilSameDay | lib/files.go:189 | two hours have the same date exactly when they lie in the same day |
| TimeGrid.CivilOfDay | lib/files.go:189-221 | all hours of a day have the date of its midnight |
| TimeGrid.Pad | lib/files.go:189 | `%0wd`: digits only, at least `w` of them |
| TimeGrid.ValueOfDigits | lib/files.go:189 | `%d` reads back as the number |
| TimeGrid.PadRoundTrip | lib/files.go:189 | zero padding reads back as the number |
| TimeGrid.PadInjective | lib/files.go:189 | distinct numbers print differently at any width |
| TimeGrid.TwoDigitPad | lib/files.go:189 | numbers below 100 take exactly two characters in `%02d` |
| TimeGrid.DateStringParts | lib/files.go:219-222 | `%04d-%02d-%02d` is the year's digits, then two digits for the month and two for the day, dash-separated |
| TimeGrid.DateStringSameDay | lib/files.go:219-222 | two hours print the same date exactly when they lie in the same day |
| TimeGrid.DayFileNameSameDay | lib/files.go:219-222 | two days' output names agree exactly when they are the same day |
| TimeGrid.ShortNameIsNoDayFile | lib/files.go:219-222 | a name shorter than the log type plus 16 characters never joins into a day's output name |
| TimeGrid.JoinCancel | lib/files.go:201-204 | joining onto one directory is injective in the name |
| TimeGrid.GlobPatternHourField | lib/files.go:189 | the glob pattern ends in the two-digit hour followed by `*` |
| TimeGrid.JoinKeepsOrder | lib/files.go:201-204 | joining onto one directory keeps the order of names |
| TimeGrid.TempNamesFollowStamps | lib/files.go:201-204 | temp names built from stamps of one length compare as the stamps do |
| TimeGrid.TempNamesSortByHour | lib/files.go:117-204 | with a fixed-width stamp that sorts as time, every temp file of an earlier hour sorts before every one of a later hour, whatever the log files are called |
| Tasks.TraceCompletesOnce | cmd/run.go:234-240 | a task that leaves the bookkeeping alone registers first and signals the bar and completion last, once each |
| Tasks.CompletesOnceCounts | cmd/run.go:234-240 | in such a trace, registration, increment and completion each occur exactly once |
| Tasks.RunCommand | cmd/run.go:238-276 | leaves the bookkeeping alone; the temp file exists exactly when open, gzip and create succeeded, and holds the command's output |
| Tasks.RunCommandRunsOnlyAfterSetup | cmd/run.go:245-273 | the command runs exactly when open, gzip and create have all succeeded |
| Tasks.RunCommandReportsFirstFailure | cmd/run.go:245-276 | an error is printed for a stage exactly when it is the first stage that fails |
| Tasks.RunCommandClosesWhatItOpened | cmd/run.go:250-266 | each of input, gzip reader and output is closed exactly when it was opened |
| Tasks.RunCommandClosesInReverse | cmd/run.go:250-276 | after the command, the three are closed in reverse order of opening |
| Tasks.RunScript | cmd/parallel.go:284-294 | leaves the bookkeeping alone; always runs the script; an error is printed exactly when it fails; a temp file is left exactly when the script writes one and the path can be created, holding what the script wrote |
| Aggregate.AggregateSpec | lib/files.go:70-95 | no temp files: a warning, no concatenation, nothing created. Otherwise: concatenation with delete and without ignoreMissing, and the day fails exactly when it errs. One verdict, logged last |
| Aggregate.ConcatFilesParallelByDate | lib/files.go:68-96 | computes `AggregateSpec` with the given output name |
| Aggregate.OutputDateParallel | cmd/parallel.go:243-276 | computes `AggregateSpec` with the output named `<outputDir>/<logType>-YYYY-MM-DD.json` |
| Grid.HoursTempsHas | lib/files.go:185-205 | every glob match of every hour of the day has its temp name in the day's temp list |
| Grid.SortedTempsFollowHours | lib/files.go:118 | once `sort.Strings` has sorted the day's temp list, both temps are in it, and every temp of an earlier hour stands before every temp of a later hour, given a stamp that sorts as time |
| Grid.SortedKeepsLessFirst | lib/files.go:118 | in a sorted list, a name that sorts strictly before another stands before it |
| Grid.NamedTempsSortByHour | lib/files.go:200-204 | the driver's temp names of an earlier hour sort strictly before those of a later hour |
| Grid.SortSpecKeeps | lib/files.go:118 | sorting loses no element |
| Grid.TempsOf | lib/files.go:200-205 | one temp name per match, in match order, each built from the hour and the match |
| Grid.RunHour | cmd/run.go:112-124 | the loop over one hour's matches computes `ScanHour`: count the matches, then dispatch them in order |
| Grid.ScanDayHours | lib/files.go:187-213 | the hour loop of a day computes `ScanHours` over that day's hours and leaves `curTime` where the next day begins |
| Grid.ScanGrid | lib/files.go:182-228 | the nested loops compute `ScanDays` for exactly `NumDays` days |
| Grid.RunAllEffect | cmd/run.go:117-124 | dispatching an hour's matches appends their temp names, one task each, with one registration and one completion each on the day's counters |
| Grid.ScanHoursEffect | cmd/run.go:104-126 | over a day's hours: temp names in hour order then match order, one task and one registration and completion per name, the task count grown by the matches |
| Grid.Produced | cmd/run.go:117-124 | the temp files a day's tasks wrote, named only by their temp names |
| Grid.ProducedAt | cmd/run.go:117-124 | with distinct temp names, a task's temp file exists exactly when that task wrote it, holding what it wrote |
| Grid.RunOneHost | cmd/run.go:117-124 | one task changes the filesystem only by the temp file it writes |
| Grid.RunAllHost | cmd/run.go:117-124 | the same for an hour's matches |
| Grid.ScanHoursHost | cmd/run.go:104-126 | a day's hours change only the temp files written: the starting files plus what the tasks produced, directories, output and log as they were |
| Grid.OverlayUndone | lib/files.go:83 | concatenating fresh temp files with delete reads just what the tasks wrote and leaves the files as they were before |
| Grid.RunAllCompletes | cmd/run.go:123-240 | for well-behaved tasks, every task dispatched registers once and completes once |
| Grid.ScanHoursCompletes | cmd/run.go:104-126 | the same over a day's hours |
| Grid.DayStep | lib/files.go:216-224 | one day appends one record with that day's facts and its output name, and counts once on the global counters |
| Grid.ScanDaysEffect | lib/files.go:182-228 | after `k` days: `k` records, each with its day's facts, the output names in the same order, `k` global additions and completions |
| Grid.ScanDaysComplete | cmd/run.go:99-141 | for well-behaved tasks, every task of every day registered once and completed once |
| Grid.GridMatchesAreTotal | cmd/run.go:112 | counting matches day by day is counting them over all the hours visited |
| Grid.ScanDaysCount | cmd/run.go:112 | after `k` days the task count is the number of matches over the hours visited so far |
| Grid.ScanGridEffect | lib/files.go:182-228 | the whole scan: one record per day in ascending order, the `j`-th output named after the `j`-th midnight, when its aggregator starts each day's counters equal its number of temp files, every task completes once, and the task count equals the matches over start..end |
| Drivers.DriverConfig | lib/files.go:189-224 | the drivers' names are the `fmt.Sprintf` formats; the aggregator is `AggregateSpec` on the day's file; a handler that leaves the bookkeeping alone makes the configuration well behaved |
| Drivers.CommandTask | cmd/run.go:233-278 | `runCommand` satisfies the handler contract of the grid |
| Drivers.ScriptTask | cmd/parallel.go:279-295 | `runScript` satisfies the handler contract of the grid |
| Drivers.CommandTaskLeavesNoTemp | cmd/run.go:245-265 | when opening or gzip fails, no temp file is written, so the day's concatenation skips it |
| Drivers.ScanDayFiles | lib/files.go:68-96 | a day without temp files changes no file and does not fail; otherwise, for distinct fresh temp names and a creatable day file that is not a temp, the day file holds the lines its tasks wrote in sorted order, no temp file remains, nothing else changes, and the day fails exactly when closing fails |
| Drivers.PrepareOutDir | lib/files.go:157-163 | a `TryCreateDir` failure is only printed: nothing else changes and the run goes on |
| Drivers.FoldIntoFile | lib/files.go:248-255 | folding the day files into one file, its error printed |
| Drivers.StreamToStdout | lib/files.go:236-247 | streaming the day files to standard output, then removing the output directory, errors printed |
| Drivers.Finalize | lib/files.go:236-255 | the final branch computes `FinalizeSpec` |
| Drivers.FoldIntoEffect | lib/files.go:248-255 | the target holds every existing day file's lines in sorted order, the day files are gone, no directory but a day path can go, nothing else changes; an uncreatable target only prints the error |
| Drivers.RemoveOutDir | lib/files.go:244-247 | `os.Remove` of the output path deletes a file there; a directory goes exactly when it is empty; nothing else changes |
| Drivers.StreamOutEffect | lib/files.go:236-247 | standard output gets every existing day file's lines in sorted order; the day files are gone, and so is any file at the output path; the output directory is removed exactly when nothing is left in it |
| Drivers.StreamOutDeletesFileAtOutDir | lib/files.go:44-46 | an output path that is an existing file is refused by `TryCreateDir`, the run goes on, and stdout mode then deletes that file |
| Drivers.StreamOutDirOnlyEffect | lib/files.go:236-247 | removing the output path only when it is a directory streams the same lines and keeps every file but the day files |
| Drivers.FinalizeEffect | lib/files.go:236-255 | `writeStdout` wins whatever `singleFile` says; otherwise `singleFile` folds into `<outDir>/<logType>.json`; otherwise the day files are left as they are |
| Drivers.DayNamesDistinct | lib/files.go:219-223 | successive days' output names are distinct and are neither `<outDir>/<logType>.json` nor `<outDir>/output.json` |
| Drivers.DriverOutputsDistinct | lib/files.go:219-223 | any driver's day files are distinct and never a finalize target |
| Drivers.ParseLogs | lib/files.go:154-258 | prepare the resolved directory (asking for an empty one), scan with the handler, then finalize: the day files are distinct and not the single file, and each mode does what `FinalizeEffect` says |
| Drivers.RunCmd | cmd/run.go:75-154 | the same with `runCommand`: the absolute form of the `outputDir` flag is prepared, and the files named after the flag land in it; with `singleFile` the day files are folded into its `output.json`, which is never one of them |
| Drivers.ParallelCmd | cmd/parallel.go:82-146 | the same with `runScript` and `outputDateParallel`, on the absolute form of the flag; the day files are distinct; no final step |
| Drivers.DriverNamesResolve | cmd/run.go:118-150 | a temp file, a day file and `output.json` named after the flag, resolved against the working directory, are the same names built on the resolved directory |
| Drivers.PreparedDirTakesNames | cmd/run.go:75 | once the resolved directory has been prepared, a file named after the flag can be created there |
| Drivers.DriverScanEffect | lib/files.go:182-228 | with any handler that leaves the bookkeeping alone: one day per midnight in ascending order, the `j`-th output is `<outDir>/<logType>-YYYY-MM-DD.json` of the `j`-th midnight, every task completes once, one task per glob match over start..end |

## Left out

- Goroutines, wait-group interleavings and `runtime.GOMAXPROCS` are left out.
  - The model runs a sequential schedule: each task completes when dispatched, and each day's aggregator runs before the next day starts.
  - The wait groups are counters.
- The gzip reader, `exec.Command` and the filter program or script are not modelled. Their outcomes are inputs (`CommandIO`, `ScriptIO`), including the lines the program writes.
- `filepath.Glob` is a given function and never fails inside the loops.
  - The retry-forever behaviour of a glob error is shown separately, on the hour step.
  - `Grid.ScanGrid`: does not model glob errors, because the code then loops forever on that hour.
- `filepath.Abs` is `Resolve` against the working directory in `run` and `parallel`. A `Getwd` failure exits before the run and is left out. `ParseLogs` is given its resolved directory. `lib`'s `ParseSharedArgs` is not part of this model: `run` is taken to resolve `-o` as `parallel` does (cmd/parallel.go:198).
- `os.Mkdir` is a given outcome, and so is whether an existing output directory may be written to.
- `Drivers.RunCmd`: its messages name files by their resolved paths, where Go prints the paths built on the flag.
- `Drivers.ParallelCmd`: the same for its messages.
- `DirCheck.TryCreateDir`: returns the "exists but is not a directory" error for a parent that is a regular file, which is what the code evidently intends. On POSIX, `os.Stat` of such a target fails with "not a directory", for which `os.IsNotExist` is false, so line 44 calls `IsDir` on a nil `FileInfo` and the program panics. `DirCheck.TryCreateDirAsWritten` models that; see Findings. It also accepts every existing directory, as the code does on POSIX, where opening a directory with `O_RDWR` always fails (EISDIR): the write-permission and emptiness checks the doc comment promises never run. The drivers use the corrected member, so for a non-empty or unwritable existing directory they print an error that Go does not.
- `os.Stat` errors other than "does not exist" and "not a directory" (permissions, I/O) are not modelled.
- `bufio.Scanner` details are left out:
  - the 64 KiB line limit with no `scanner.Err()` check;
  - `\r` stripping;
  - ignored `WriteString` errors.

  File contents are already split into lines.
- `Concat.Unopenable`: `os.Open`, `os.Create` and `os.Remove` fail in the model only for reasons the filesystem value shows. Open fails on a missing path; create (`FileSystem.CanCreate`) fails when the parent is missing or the path is a directory; remove fails on a non-empty directory. Permission errors (EACCES), descriptor exhaustion (EMFILE) and I/O errors are not modelled.
- `Concat.ConcatFiles`: an output listed among its own inputs is read as it stood when the loop reaches it. In Go that input is opened through a second descriptor on the unbuffered output, so copying it re-reads the lines just appended and goes on until a write fails. `Concat.ConcatFilesContent` states the content only for an output that is not an input.
- `Concat.ConcatFilesToFd`: the same for an output file that is also an input.
- Paths are taken as clean; `filepath.Join` and `Dir` are modelled only for clean paths and plain names.
- Left out of the messages:
  - Progress bars, `WaitForConfirm`, and the messages' wording.
  - `runCommand`'s gzip error message, which prints the (nil) open error rather than the gzip error (cmd/run.go:255).
- Flag parsing, configuration files, `parseRunParams`/`parseParams` and time zones are left out: times are UTC hours.
- The temp-name prefix `TimeFormatDateNum` is not defined in lib/const.go. It is an abstract `stamp` function; the "sorted, therefore in time order" lemma assumes it is fixed-width and order-preserving.
- cmd/parallel.go calls `TryCreateDir` with one argument and `ConcatFiles` with four, an older signature of lib/files.go.
  - `Drivers.ParallelCmd` takes the `empty` flag as a parameter.
  - `Aggregate.OutputDateParallel` concatenates without `ignoreMissing`.
- `Drivers.ScanDayFiles`: assumes the day's temp names are distinct, absent before the day, and not the day file. These follow from the stamp format, the glob results and the disk, which the model takes as given.
- `Drivers.DriverScanEffect`: constrains tasks only by the handler contract, not by a particular task's outcome.
- `Grid.ScanGridEffect`: constrains tasks only by the handler contract, not by a particular task's outcome.

## Findings

For the first two rows the drivers keep the code's behaviour, and each
corrected member stands beside them with its property proved. For the last two, the
drivers use the corrected `TryCreateDir`, which does what the code's doc
comment promises; the code as written is modelled beside it.

| source | as written | input that shows it | evidently intended | confidence | as-written member | corrected member |
|---|---|---|---|---|---|---|
| lib/files.go:244 | in stdout mode `os.Remove(resolvedOutDir)` removes whatever is at the output path; `TryCreateDir`'s "file of same name" error (lib/files.go:44-46) is only printed (lib/files.go:158-160), so the run reaches it | `--stdout` with the output path naming an existing regular file: that file is deleted | remove the output directory only if it is one | not executed | Drivers.StreamOutDeletesFileAtOutDir | Drivers.StreamOutDirOnlyEffect |
| cmd/parallel.go:97 | `dayCount` rounds the end to the nearest midnight | start 00:00 and end 05:00 of the same day: `dayCount` is 0, but one day is aggregated | the "total number of days" the date loop visits | not executed | TimeGrid.DayCountMatchesOnlyAfterNoon | TimeGrid.NumDays |
| lib/files.go:44 | after a failed `os.Stat` whose error is not "does not exist", `dirInfo` is nil and `dirInfo.IsDir()` is called on it; on POSIX a target whose parent is a regular file gives such an error ("not a directory"), so the "exists but is not a directory" branch (lib/files.go:37-39) is never reached | output directory `/tmp/f/out` where `/tmp/f` is a regular file: nil pointer dereference | return "cannot use parent directory … exists but is not a directory" | not executed | DirCheck.FileParentDereferencesNil | DirCheck.TryCreateDir |
| lib/files.go:49 | `os.OpenFile(dir, os.O_RDWR, 0)` on a directory always fails on POSIX (EISDIR), and line 52 then returns the nil error of the earlier stat, so lines 56-61 never run and every existing directory is accepted | `TryCreateDir("/tmp", true)` with a non-empty `/tmp`: nil is returned | refuse a directory that may not be written to, and a non-empty one when `empty` is set, as the doc comment (lib/files.go:20-24) says | not executed | DirCheck.NonEmptyDirAccepted | DirCheck.TryCreateDir |
