/**
 * The line concatenator: `concatFilesToFd`, `ConcatFiles` and
 * `ConcatToStdout`. The inputs are sorted in the caller's slice, then every
 * input that can be opened is copied line by line to the output, each line
 * followed by a newline, and removed afterwards when asked.
 */
module Concat {
  import opened Wrappers
  import opened FileSystem
  import opened Sorting

  /** Appends lines to the sink. A file sink that was removed meanwhile keeps nothing visible. */
  function Write(h: Host, sink: Sink, lines: seq<Line>): Host
  {
    match sink
    case ToStdout => h.(stdout := h.stdout + Framed(lines))
    case ToFile(o) => if o in h.files then h.(files := h.files[o := h.files[o] + lines]) else h
  }

  /**
   * What reading an input that opened yields: a file's lines. `os.Open`
   * also opens a directory, from which the scanner reads nothing.
   */
  function Contents(h: Host, p: Path): seq<Line>
  {
    if p in h.files then h.files[p] else []
  }

  /** `os.Remove` of an input once read, its failure logged. */
  function RemoveInput(h: Host, p: Path): Host
  {
    var (r, e) := Remove(h, p);
    if e.Some? then Report(r, CouldNotRemove(p)) else r
  }

  /**
   * One iteration of the loop over the inputs: an input that cannot be
   * opened is reported (unless `ignoreMissing`) and skipped; otherwise its
   * lines are copied and, when `delete` is set, it is removed.
   */
  function ReadInput(h: Host, p: Path, sink: Sink, delete: bool, ignoreMissing: bool): Host
  {
    if !Exists(h, p) then
      if ignoreMissing then h else Report(h, CouldNotRead(p))
    else
      var copied := Write(Report(h, Concatting(p)), sink, Contents(h, p));
      if delete then RemoveInput(copied, p) else copied
  }

  /** The whole loop, over the inputs in the order given. */
  function ReadInputs(h: Host, ps: seq<Path>, sink: Sink, delete: bool, ignoreMissing: bool): Host
    decreases |ps|
  {
    if ps == [] then h
    else ReadInput(ReadInputs(h, ps[..|ps| - 1], sink, delete, ignoreMissing), ps[|ps| - 1], sink, delete, ignoreMissing)
  }

  /** `os.Create(out)` when it succeeds: the file exists and is empty. */
  function Created(h: Host, out: Path): Host
  {
    h.(files := h.files[out := []])
  }

  function CloseResult(sink: Sink, closeOk: bool): Option<IoError>
  {
    if closeOk then None else Some(CloseFailed(sink))
  }

  /** What `ConcatFiles` does to the filesystem and returns. */
  function ConcatFilesSpec(h: Host, inputs: seq<Path>, out: Path, delete: bool, ignoreMissing: bool, closeOk: bool): (Host, Option<IoError>)
  {
    if !CanCreate(h, out) then (h, Some(CreateFailed(out)))
    else (ReadInputs(Created(h, out), SortSpec(inputs), ToFile(out), delete, ignoreMissing), CloseResult(ToFile(out), closeOk))
  }

  /** What `ConcatToStdout` does to the filesystem and returns. */
  function ConcatToStdoutSpec(h: Host, inputs: seq<Path>, delete: bool, ignoreMissing: bool, closeOk: bool): (Host, Option<IoError>)
  {
    (ReadInputs(h, SortSpec(inputs), ToStdout, delete, ignoreMissing), CloseResult(ToStdout, closeOk))
  }

  /** Writing in two steps is writing once. */
  lemma WriteAppend(h: Host, sink: Sink, a: seq<Line>, b: seq<Line>)
    ensures Write(Write(h, sink, a), sink, b) == Write(h, sink, a + b)
  {
    FramedAppend(a, b);
    match sink
    case ToStdout =>
      assert h.stdout + Framed(a) + Framed(b) == h.stdout + (Framed(a) + Framed(b));
    case ToFile(o) =>
      if o in h.files {
        assert h.files[o] + a + b == h.files[o] + (a + b);
      }
  }

  lemma WriteNothing(h: Host, sink: Sink)
    ensures Write(h, sink, []) == h
  {
    assert Framed([]) == [];
    assert h.stdout + [] == h.stdout;
    if sink.ToFile? && sink.path in h.files {
      assert h.files[sink.path] + [] == h.files[sink.path];
      assert h.files[sink.path := h.files[sink.path]] == h.files;
    }
  }

  /** The scanner loop: copies an input's lines to the output one at a time. */
  method CopyLines(h: Host, sink: Sink, lines: seq<Line>) returns (h': Host)
    ensures h' == Write(h, sink, lines)
  {
    h' := h;
    WriteNothing(h, sink);
    for k := 0 to |lines|
      invariant h' == Write(h, sink, lines[..k])
    {
      assert lines[..k + 1] == lines[..k] + [lines[k]];
      WriteAppend(h, sink, lines[..k], [lines[k]]);
      h' := Write(h', sink, [lines[k]]);
    }
    assert lines[..|lines|] == lines;
  }

  /**
   * `concatFilesToFd`: sorts `inputs` in place, copies every input that can be
   * opened, removes it when `delete` is set, and returns the result of
   * closing the output.
   */
  method ConcatFilesToFd(h: Host, inputs: array<Path>, sink: Sink, delete: bool, ignoreMissing: bool, closeOk: bool)
    returns (h': Host, err: Option<IoError>)
    modifies inputs
    ensures inputs[..] == SortSpec(old(inputs[..]))
    ensures h' == ReadInputs(h, inputs[..], sink, delete, ignoreMissing)
    ensures err == CloseResult(sink, closeOk)
  {
    SortStrings(inputs);
    h' := h;
    for i := 0 to inputs.Length
      invariant inputs[..] == SortSpec(old(inputs[..]))
      invariant h' == ReadInputs(h, inputs[..i], sink, delete, ignoreMissing)
    {
      assert inputs[..i + 1][..i] == inputs[..i];
      var p := inputs[i];
      if !Exists(h', p) {
        if !ignoreMissing {
          h' := Report(h', CouldNotRead(p));
        }
        continue;
      }
      var lines := Contents(h', p);
      h' := Report(h', Concatting(p));
      h' := CopyLines(h', sink, lines);
      if delete {
        var removed := Remove(h', p);
        h' := removed.0;
        if removed.1.Some? {
          h' := Report(h', CouldNotRemove(p));
        }
      }
    }
    assert inputs[..inputs.Length] == inputs[..];
    err := CloseResult(sink, closeOk);
  }

  /**
   * `ConcatFiles`: creates (or truncates) `out`, then concatenates into it.
   * When the create fails the error is returned before anything is read,
   * sorted or removed.
   */
  method ConcatFiles(h: Host, inputs: array<Path>, out: Path, delete: bool, ignoreMissing: bool, closeOk: bool)
    returns (h': Host, err: Option<IoError>)
    modifies inputs
    ensures !CanCreate(h, out) ==> h' == h && err == Some(CreateFailed(out)) && inputs[..] == old(inputs[..])
    ensures CanCreate(h, out) ==> inputs[..] == SortSpec(old(inputs[..]))
    ensures CanCreate(h, out) ==> h' == ReadInputs(Created(h, out), inputs[..], ToFile(out), delete, ignoreMissing)
    ensures CanCreate(h, out) ==> err == CloseResult(ToFile(out), closeOk)
    ensures (h', err) == ConcatFilesSpec(h, old(inputs[..]), out, delete, ignoreMissing, closeOk)
  {
    if !CanCreate(h, out) {
      return h, Some(CreateFailed(out));
    }
    h', err := ConcatFilesToFd(Created(h, out), inputs, ToFile(out), delete, ignoreMissing, closeOk);
  }

  /** `ConcatToStdout`: concatenates onto standard output, then closes it. */
  method ConcatToStdout(h: Host, inputs: array<Path>, delete: bool, ignoreMissing: bool, closeOk: bool)
    returns (h': Host, err: Option<IoError>)
    modifies inputs
    ensures inputs[..] == SortSpec(old(inputs[..]))
    ensures h' == ReadInputs(h, inputs[..], ToStdout, delete, ignoreMissing)
    ensures err == CloseResult(ToStdout, closeOk)
    ensures (h', err) == ConcatToStdoutSpec(h, old(inputs[..]), delete, ignoreMissing, closeOk)
  {
    h', err := ConcatFilesToFd(h, inputs, ToStdout, delete, ignoreMissing, closeOk);
  }

  // ---------------------------------------------------------------------------
  // What the loop computes, stated without the loop.

  predicate NoDuplicates(ps: seq<Path>)
  {
    forall i, j :: 0 <= i < j < |ps| ==> ps[i] != ps[j]
  }

  /** The lines of every input that exists, in order. */
  function Gather(files: map<Path, seq<Line>>, ps: seq<Path>): seq<Line>
    decreases |ps|
  {
    if ps == [] then []
    else
      var last := ps[|ps| - 1];
      Gather(files, ps[..|ps| - 1]) + (if last in files then files[last] else [])
  }

  /**
   * The files left once the inputs are removed, when `delete` is set: those
   * not named among the inputs, with their contents unchanged.
   */
  function Kept(files: map<Path, seq<Line>>, ps: seq<Path>, delete: bool): (r: map<Path, seq<Line>>)
    ensures forall q :: q in r <==> q in files && !(delete && q in ps)
    ensures forall q :: q in r ==> r[q] == files[q]
    decreases |ps|
  {
    if !delete || ps == [] then files
    else Kept(files, ps[..|ps| - 1], delete) - {ps[|ps| - 1]}
  }

  /** Splitting off the last input of a list without duplicates. */
  lemma LastIsNew(ps: seq<Path>)
    requires ps != [] && NoDuplicates(ps)
    ensures ps[|ps| - 1] !in ps[..|ps| - 1] && NoDuplicates(ps[..|ps| - 1])
  {
  }

  /**
   * A directory among the inputs opens: it is reported as concatenated,
   * contributes no line, and with `delete` it is removed when it has no
   * entries; otherwise the failure to remove it is logged.
   */
  lemma DirectoryInput(h: Host, p: Path, sink: Sink, delete: bool, ignoreMissing: bool)
    requires p in h.dirs && p !in h.files
    ensures var r := ReadInput(h, p, sink, delete, ignoreMissing);
      && |r.log| > |h.log| && r.log[|h.log|] == Concatting(p)
      && r.stdout == h.stdout && r.files == h.files
      && (!delete ==> r.dirs == h.dirs)
      && (delete ==> r.dirs - {p} == h.dirs - {p} && (p in r.dirs <==> HasEntries(h, p)))
      && (delete && HasEntries(h, p) ==> r.log[|r.log| - 1] == CouldNotRemove(p))
  {
    var c := Report(h, Concatting(p));
    WriteNothing(c, sink);
    assert Contents(h, p) == [];
    assert HasEntries(c, p) == HasEntries(h, p);
  }

  /**
   * The loop removes no directory but an input, and only when deleting:
   * every other directory is kept.
   */
  lemma {:induction false} ReadInputsDirs(h: Host, ps: seq<Path>, sink: Sink, delete: bool, ignoreMissing: bool)
    ensures var r := ReadInputs(h, ps, sink, delete, ignoreMissing);
      && r.dirs <= h.dirs
      && (forall d :: d in h.dirs && !(delete && d in ps) ==> d in r.dirs)
    decreases |ps|
  {
    if ps != [] {
      var qs, p := ps[..|ps| - 1], ps[|ps| - 1];
      ReadInputsDirs(h, qs, sink, delete, ignoreMissing);
      ReadInputDirs(ReadInputs(h, qs, sink, delete, ignoreMissing), p, sink, delete, ignoreMissing);
      assert forall d :: d in qs ==> d in ps;
    }
  }

  /** One iteration removes at most its own input, and only when deleting. */
  lemma ReadInputDirs(h: Host, p: Path, sink: Sink, delete: bool, ignoreMissing: bool)
    ensures var r := ReadInput(h, p, sink, delete, ignoreMissing);
      && r.dirs <= h.dirs
      && (forall d :: d in h.dirs && !(delete && d == p) ==> d in r.dirs)
  {
    if Exists(h, p) {
      var c := Write(Report(h, Concatting(p)), sink, Contents(h, p));
      assert c.dirs == h.dirs;
    }
  }

  /**
   * Concatenating distinct inputs (any inputs when nothing is deleted) onto
   * standard output: it receives the lines of every input that exists, in
   * input order, each followed by a newline; with `delete` exactly the inputs
   * are gone afterwards and no other file changes. A missing input contributes
   * nothing and does not stop the loop.
   */
  lemma {:induction false} ReadInputsToStdout(h: Host, ps: seq<Path>, delete: bool, ignoreMissing: bool)
    requires delete ==> NoDuplicates(ps)
    ensures ReadInputs(h, ps, ToStdout, delete, ignoreMissing).stdout == h.stdout + Framed(Gather(h.files, ps))
    ensures ReadInputs(h, ps, ToStdout, delete, ignoreMissing).files == Kept(h.files, ps, delete)
    decreases |ps|
  {
    if ps == [] {
      assert h.stdout + Framed([]) == h.stdout;
    } else {
      var qs, p := ps[..|ps| - 1], ps[|ps| - 1];
      if delete {
        LastIsNew(ps);
      }
      ReadInputsToStdout(h, qs, delete, ignoreMissing);
      assert ps == qs + [p];
      ToStdoutStep(h, ReadInputs(h, qs, ToStdout, delete, ignoreMissing), qs, p, delete, ignoreMissing);
    }
  }

  lemma ToStdoutStep(h: Host, r0: Host, qs: seq<Path>, p: Path, delete: bool, ignoreMissing: bool)
    requires delete ==> p !in qs
    requires r0.stdout == h.stdout + Framed(Gather(h.files, qs))
    requires r0.files == Kept(h.files, qs, delete)
    ensures ReadInput(r0, p, ToStdout, delete, ignoreMissing).stdout == h.stdout + Framed(Gather(h.files, qs + [p]))
    ensures ReadInput(r0, p, ToStdout, delete, ignoreMissing).files == Kept(h.files, qs + [p], delete)
  {
    ToStdoutStepOutput(h, r0, qs, p, delete, ignoreMissing);
    KeptStep(h.files, qs, p, delete);
    ReadInputToStdoutFiles(r0, p, delete, ignoreMissing);
  }

  /** Reading one input onto standard output removes it when deleting, and changes no other file. */
  lemma ReadInputToStdoutFiles(r0: Host, p: Path, delete: bool, ignoreMissing: bool)
    ensures ReadInput(r0, p, ToStdout, delete, ignoreMissing).files == if delete then r0.files - {p} else r0.files
  {
    if p !in r0.files {
      assert r0.files - {p} == r0.files;
    }
  }

  lemma ToStdoutStepOutput(h: Host, r0: Host, qs: seq<Path>, p: Path, delete: bool, ignoreMissing: bool)
    requires delete ==> p !in qs
    requires r0.stdout == h.stdout + Framed(Gather(h.files, qs))
    requires r0.files == Kept(h.files, qs, delete)
    ensures ReadInput(r0, p, ToStdout, delete, ignoreMissing).stdout == h.stdout + Framed(Gather(h.files, qs + [p]))
  {
    ReadInputStdout(r0, p, delete, ignoreMissing);
    KeptKeeps(h.files, qs, p, delete);
    GatherStep(h.files, qs, p);
    FramedAfter(h.stdout, Gather(h.files, qs), Contents(r0, p));
  }

  /** An input the loop has not deleted keeps its contents. */
  lemma KeptKeeps(files: map<Path, seq<Line>>, qs: seq<Path>, p: Path, delete: bool)
    requires delete ==> p !in qs
    ensures p in Kept(files, qs, delete) <==> p in files
    ensures p in files ==> Kept(files, qs, delete)[p] == files[p]
  {
  }

  /** Two runs of lines written after some output, framed, are the framed concatenation. */
  lemma FramedAfter(s: seq<string>, a: seq<Line>, b: seq<Line>)
    ensures s + Framed(a) + Framed(b) == s + Framed(a + b)
  {
    FramedAppend(a, b);
    assert s + Framed(a) + Framed(b) == s + (Framed(a) + Framed(b));
  }

  /** Reading one input onto standard output appends exactly that input's lines, framed. */
  lemma ReadInputStdout(r0: Host, p: Path, delete: bool, ignoreMissing: bool)
    ensures ReadInput(r0, p, ToStdout, delete, ignoreMissing).stdout == r0.stdout + Framed(Contents(r0, p))
  {
    if !Exists(r0, p) {
      assert Contents(r0, p) == [];
      assert r0.stdout + Framed([]) == r0.stdout;
    }
  }

  /** Keeping the files after one more input: that input is gone too, when deleting. */
  lemma KeptStep(files: map<Path, seq<Line>>, qs: seq<Path>, p: Path, delete: bool)
    ensures Kept(files, qs + [p], delete) == if delete then Kept(files, qs, delete) - {p} else files
  {
    var ps := qs + [p];
    assert ps[..|ps| - 1] == qs;
  }

  lemma GatherStep(files: map<Path, seq<Line>>, qs: seq<Path>, p: Path)
    ensures Gather(files, qs + [p]) == Gather(files, qs) + (if p in files then files[p] else [])
    ensures p !in files ==> Gather(files, qs + [p]) == Gather(files, qs)
  {
    var ps := qs + [p];
    assert ps[..|ps| - 1] == qs;
    assert Gather(files, qs) + [] == Gather(files, qs);
  }

  /**
   * Concatenating distinct inputs (any inputs when nothing is deleted) into an
   * existing output file that is not one of them: the file ends with the lines
   * of every input that exists, in input order; with `delete` exactly the
   * inputs are gone afterwards; no other file and not standard output change.
   */
  lemma {:induction false} ReadInputsToFile(h: Host, ps: seq<Path>, out: Path, delete: bool, ignoreMissing: bool)
    requires delete ==> NoDuplicates(ps)
    requires out in h.files && out !in ps
    ensures ReadInputs(h, ps, ToFile(out), delete, ignoreMissing).stdout == h.stdout
    ensures ReadInputs(h, ps, ToFile(out), delete, ignoreMissing).files
         == Kept(h.files, ps, delete)[out := h.files[out] + Gather(h.files, ps)]
    decreases |ps|
  {
    if ps == [] {
      assert h.files[out] + [] == h.files[out];
      assert h.files[out := h.files[out]] == h.files;
    } else {
      var qs, p := ps[..|ps| - 1], ps[|ps| - 1];
      if delete {
        LastIsNew(ps);
      }
      assert out !in qs;
      ReadInputsToFile(h, qs, out, delete, ignoreMissing);
      assert ps == qs + [p];
      ToFileStep(h, ReadInputs(h, qs, ToFile(out), delete, ignoreMissing), qs, p, out, delete, ignoreMissing);
    }
  }

  lemma ToFileStep(h: Host, r0: Host, qs: seq<Path>, p: Path, out: Path, delete: bool, ignoreMissing: bool)
    requires out in h.files && out !in qs && out != p && (delete ==> p !in qs)
    requires r0.stdout == h.stdout
    requires r0.files == Kept(h.files, qs, delete)[out := h.files[out] + Gather(h.files, qs)]
    ensures ReadInput(r0, p, ToFile(out), delete, ignoreMissing).stdout == h.stdout
    ensures ReadInput(r0, p, ToFile(out), delete, ignoreMissing).files
         == Kept(h.files, qs + [p], delete)[out := h.files[out] + Gather(h.files, qs + [p])]
  {
    KeptStep(h.files, qs, p, delete);
    GatherStep(h.files, qs, p);
    ReadInputToFile(r0, p, out, delete, ignoreMissing);
    var k0 := Kept(h.files, qs, delete);
    var g0 := Gather(h.files, qs);
    if p in h.files {
      assert p in k0 && k0[p] == h.files[p];
      ToFileStepPresent(k0, h.files[out], g0, h.files[p], p, out, delete);
    } else {
      assert p !in k0;
      assert k0 - {p} == k0;
    }
  }

  /** Reading one input into the output file appends it there and, when deleting, removes it. */
  lemma ReadInputToFile(r0: Host, p: Path, out: Path, delete: bool, ignoreMissing: bool)
    requires out in r0.files && out != p
    ensures ReadInput(r0, p, ToFile(out), delete, ignoreMissing).stdout == r0.stdout
    ensures ReadInput(r0, p, ToFile(out), delete, ignoreMissing).files
         == if p !in r0.files then r0.files
            else if delete then r0.files[out := r0.files[out] + r0.files[p]] - {p}
            else r0.files[out := r0.files[out] + r0.files[p]]
  {
    if Exists(r0, p) && p !in r0.files {
      WriteNothing(Report(r0, Concatting(p)), ToFile(out));
    }
  }

  /** The map algebra of one step that finds its input. */
  lemma ToFileStepPresent(k0: map<Path, seq<Line>>, base: seq<Line>, g0: seq<Line>, lines: seq<Line>, p: Path, out: Path, delete: bool)
    requires p != out && p in k0 && k0[p] == lines
    ensures var r0 := k0[out := base + g0];
      (if delete then r0[out := r0[out] + r0[p]] - {p} else r0[out := r0[out] + r0[p]])
      == (if delete then k0 - {p} else k0)[out := base + (g0 + lines)]
  {
    var r0 := k0[out := base + g0];
    assert r0[p] == lines;
    assert r0[out] + r0[p] == base + (g0 + lines);
    assert r0[out := base + (g0 + lines)] == k0[out := base + (g0 + lines)];
    if delete {
      assert k0[out := base + (g0 + lines)] - {p} == (k0 - {p})[out := base + (g0 + lines)];
    }
  }

  /** The messages dropped, the state of the filesystem. */
  function Unlogged(h: Host): Host
  {
    h.(log := [])
  }

  /**
   * `ignoreMissing` only silences the message about an input that cannot be
   * read: both settings leave the same files, directories and output.
   */
  lemma {:induction false} IgnoreMissingOnlySilences(h: Host, ps: seq<Path>, sink: Sink, delete: bool)
    ensures Unlogged(ReadInputs(h, ps, sink, delete, true)) == Unlogged(ReadInputs(h, ps, sink, delete, false))
    decreases |ps|
  {
    if ps != [] {
      IgnoreMissingOnlySilences(h, ps[..|ps| - 1], sink, delete);
      ReadInputUnlogged(ReadInputs(h, ps[..|ps| - 1], sink, delete, true), ReadInputs(h, ps[..|ps| - 1], sink, delete, false),
        ps[|ps| - 1], sink, delete);
    }
  }

  /** One iteration on two filesystems that differ only in their messages. */
  lemma ReadInputUnlogged(a: Host, b: Host, p: Path, sink: Sink, delete: bool)
    requires Unlogged(a) == Unlogged(b)
    ensures Unlogged(ReadInput(a, p, sink, delete, true)) == Unlogged(ReadInput(b, p, sink, delete, false))
  {
    assert a.files == b.files && a.dirs == b.dirs && a.stdout == b.stdout;
    if Exists(a, p) {
      var ca := Write(Report(a, Concatting(p)), sink, Contents(a, p));
      var cb := Write(Report(b, Concatting(p)), sink, Contents(b, p));
      assert ca.files == cb.files && ca.dirs == cb.dirs && ca.stdout == cb.stdout;
      assert HasEntries(ca, p) == HasEntries(cb, p);
    }
  }

  /** With `ignoreMissing` no "could not read" message is added. */
  lemma {:induction false} IgnoreMissingIsSilent(h: Host, ps: seq<Path>, sink: Sink, delete: bool)
    ensures var r := ReadInputs(h, ps, sink, delete, true);
      |r.log| >= |h.log| && r.log[..|h.log|] == h.log &&
      forall i :: |h.log| <= i < |r.log| ==> !r.log[i].CouldNotRead?
    decreases |ps|
  {
    if ps != [] {
      IgnoreMissingIsSilent(h, ps[..|ps| - 1], sink, delete);
    }
  }

  /** The paths of the "could not read" messages in a log, in order. */
  function ReadFailures(log: seq<Event>): seq<Path>
    decreases |log|
  {
    if log == [] then []
    else ReadFailures(log[..|log| - 1]) + (if log[|log| - 1].CouldNotRead? then [log[|log| - 1].path] else [])
  }

  /** The inputs that cannot be opened: neither a file nor a directory. */
  function Unopenable(h: Host, ps: seq<Path>): (r: seq<Path>)
    ensures forall q :: q in r <==> q in ps && !Exists(h, q)
    decreases |ps|
  {
    if ps == [] then []
    else Unopenable(h, ps[..|ps| - 1]) + (if Exists(h, ps[|ps| - 1]) then [] else [ps[|ps| - 1]])
  }

  lemma {:induction false} ReadFailuresAppend(a: seq<Event>, b: seq<Event>)
    ensures ReadFailures(a + b) == ReadFailures(a) + ReadFailures(b)
    decreases |b|
  {
    if b == [] {
      assert a + b == a;
    } else {
      assert (a + b)[..|a + b| - 1] == a + b[..|b| - 1];
      ReadFailuresAppend(a, b[..|b| - 1]);
    }
  }

  /**
   * Without `ignoreMissing`, on distinct inputs (any inputs when nothing is
   * deleted), the earlier messages are kept and the "could not read" messages
   * added name exactly the inputs that cannot be opened, in input order.
   */
  lemma {:induction false} MissingAreReported(h: Host, ps: seq<Path>, sink: Sink, delete: bool)
    requires delete ==> NoDuplicates(ps)
    ensures var r := ReadInputs(h, ps, sink, delete, false);
      && |r.log| >= |h.log| && r.log[..|h.log|] == h.log
      && ReadFailures(r.log[|h.log|..]) == Unopenable(h, ps)
      && forall q :: (!delete || q !in ps) ==> Exists(r, q) == Exists(h, q)
    decreases |ps|
  {
    if ps == [] {
      assert h.log[|h.log|..] == [];
    } else {
      var qs, p := ps[..|ps| - 1], ps[|ps| - 1];
      if delete {
        LastIsNew(ps);
      }
      MissingAreReported(h, qs, sink, delete);
      assert ps == qs + [p];
      MissingStep(h, ReadInputs(h, qs, sink, delete, false), qs, p, sink, delete);
    }
  }

  lemma MissingStep(h: Host, r0: Host, qs: seq<Path>, p: Path, sink: Sink, delete: bool)
    requires delete ==> p !in qs
    requires |r0.log| >= |h.log| && r0.log[..|h.log|] == h.log
    requires ReadFailures(r0.log[|h.log|..]) == Unopenable(h, qs)
    requires forall q :: (!delete || q !in qs) ==> Exists(r0, q) == Exists(h, q)
    ensures var r := ReadInput(r0, p, sink, delete, false);
      && |r.log| >= |h.log| && r.log[..|h.log|] == h.log
      && ReadFailures(r.log[|h.log|..]) == Unopenable(h, qs + [p])
      && forall q :: (!delete || q !in qs + [p]) ==> Exists(r, q) == Exists(h, q)
  {
    var r := ReadInput(r0, p, sink, delete, false);
    assert Exists(r0, p) == Exists(h, p);
    ReadInputFailures(r0, p, sink, delete);
    MissingLogStep(h.log, r0.log, r.log, Unopenable(h, qs), if Exists(h, p) then [] else [p]);
    assert (qs + [p])[..|qs|] == qs;
    assert Unopenable(h, qs + [p]) == Unopenable(h, qs) + (if Exists(h, p) then [] else [p]);
    forall q | !delete || q !in qs + [p] ensures Exists(r, q) == Exists(h, q) {
      assert !delete || (q !in qs && q != p);
    }
  }

  /** The log algebra of one step: a log that extends one that extends the original. */
  lemma MissingLogStep(l0: seq<Event>, l1: seq<Event>, l2: seq<Event>, f: seq<Path>, g: seq<Path>)
    requires |l1| >= |l0| && l1[..|l0|] == l0 && ReadFailures(l1[|l0|..]) == f
    requires |l2| >= |l1| && l2[..|l1|] == l1 && ReadFailures(l2[|l1|..]) == g
    ensures |l2| >= |l0| && l2[..|l0|] == l0 && ReadFailures(l2[|l0|..]) == f + g
  {
    assert l2[|l0|..] == l1[|l0|..] + l2[|l1|..];
    ReadFailuresAppend(l1[|l0|..], l2[|l1|..]);
  }

  /** One iteration without `ignoreMissing`: one "could not read" message exactly when the input cannot be opened. */
  lemma ReadInputFailures(h: Host, p: Path, sink: Sink, delete: bool)
    ensures var r := ReadInput(h, p, sink, delete, false);
      && |r.log| >= |h.log| && r.log[..|h.log|] == h.log
      && ReadFailures(r.log[|h.log|..]) == (if Exists(h, p) then [] else [p])
      && forall q :: (!delete || q != p) ==> Exists(r, q) == Exists(h, q)
  {
    var r := ReadInput(h, p, sink, delete, false);
    if Exists(h, p) {
      var c := Write(Report(h, Concatting(p)), sink, Contents(h, p));
      assert c.log == h.log + [Concatting(p)];
      var added := r.log[|h.log|..];
      assert added == [Concatting(p)] || added == [Concatting(p), CouldNotRemove(p)];
      assert ReadFailures([Concatting(p)]) == [] by {
        assert [Concatting(p)][..0] == [];
      }
      if added == [Concatting(p), CouldNotRemove(p)] {
        assert added[..1] == [Concatting(p)];
      }
    } else {
      assert r.log[|h.log|..] == [CouldNotRead(p)];
      assert [CouldNotRead(p)][..0] == [];
    }
  }

  /**
   * The concatenation does not depend on the order the caller lists the
   * inputs in: it sorts them first (`[b, a]` and `[a, b]` give the same output).
   */
  lemma ConcatFilesIgnoresInputOrder(h: Host, s: seq<Path>, t: seq<Path>, out: Path, delete: bool, ignoreMissing: bool, closeOk: bool)
    requires multiset(s) == multiset(t)
    ensures ConcatFilesSpec(h, s, out, delete, ignoreMissing, closeOk) == ConcatFilesSpec(h, t, out, delete, ignoreMissing, closeOk)
    ensures ConcatToStdoutSpec(h, s, delete, ignoreMissing, closeOk) == ConcatToStdoutSpec(h, t, delete, ignoreMissing, closeOk)
  {
    SortSpecForgetsOrder(s, t);
  }

  // ---------------------------------------------------------------------------
  // The same, for the concatenations as called: inputs sorted first.

  /** A list without duplicates holds each element once. */
  lemma {:induction false} DistinctCountsOnce(s: seq<Path>, x: Path)
    requires NoDuplicates(s)
    ensures multiset(s)[x] <= 1
    decreases |s|
  {
    if s != [] {
      var n := |s| - 1;
      LastIsNew(s);
      DistinctCountsOnce(s[..n], x);
      assert s == s[..n] + [s[n]];
    }
  }

  /** An element at two positions is counted at least twice. */
  lemma CountsTwice(t: seq<Path>, i: nat, j: nat)
    requires i < j < |t| && t[i] == t[j]
    ensures multiset(t)[t[i]] >= 2
  {
    assert t == t[..i] + [t[i]] + t[i + 1..j] + [t[j]] + t[j + 1..];
  }

  /** Reordering a list without duplicates leaves none. */
  lemma PermutedDistinct(s: seq<Path>, t: seq<Path>)
    requires NoDuplicates(s) && multiset(s) == multiset(t)
    ensures NoDuplicates(t)
  {
    forall i, j | 0 <= i < j < |t| ensures t[i] != t[j] {
      if t[i] == t[j] {
        CountsTwice(t, i, j);
        DistinctCountsOnce(s, t[i]);
      }
    }
  }

  /** The sorted inputs: a reordering, so the same paths, still without duplicates when they had none. */
  lemma SortedInputs(inputs: seq<Path>)
    ensures forall p :: p in SortSpec(inputs) <==> p in inputs
    ensures NoDuplicates(inputs) ==> NoDuplicates(SortSpec(inputs))
  {
    SortSpecSortsAndPermutes(inputs);
    forall p ensures p in SortSpec(inputs) <==> p in inputs {
      assert p in SortSpec(inputs) <==> p in multiset(SortSpec(inputs));
      assert p in inputs <==> p in multiset(inputs);
    }
    if NoDuplicates(inputs) {
      PermutedDistinct(inputs, SortSpec(inputs));
    }
  }

  /** The lines gathered do not depend on a file that is not among the inputs. */
  lemma {:induction false} GatherIgnores(files: map<Path, seq<Line>>, ps: seq<Path>, out: Path, v: seq<Line>)
    requires out !in ps
    ensures Gather(files[out := v], ps) == Gather(files, ps)
    decreases |ps|
  {
    if ps != [] {
      GatherIgnores(files, ps[..|ps| - 1], out, v);
    }
  }

  /** Gathering reads only the inputs: two maps that agree on them gather the same lines. */
  lemma {:induction false} GatherAgrees(f1: map<Path, seq<Line>>, f2: map<Path, seq<Line>>, ps: seq<Path>)
    requires forall p :: p in ps ==> (p in f1 <==> p in f2) && (p in f1 ==> f1[p] == f2[p])
    ensures Gather(f1, ps) == Gather(f2, ps)
    decreases |ps|
  {
    if ps != [] {
      GatherAgrees(f1, f2, ps[..|ps| - 1]);
    }
  }

  /** What is kept of the other files does not depend on the output file's contents. */
  lemma KeptIgnores(files: map<Path, seq<Line>>, ps: seq<Path>, out: Path, v: seq<Line>, w: seq<Line>, delete: bool)
    requires out !in ps
    ensures Kept(files[out := v], ps, delete)[out := w] == Kept(files, ps, delete)[out := w]
  {
    var a := Kept(files[out := v], ps, delete)[out := w];
    var b := Kept(files, ps, delete)[out := w];
    forall q ensures (q in a <==> q in b) && (q in a ==> a[q] == b[q]) {
    }
  }

  /**
   * `ConcatFiles` as called: when the output can be created and is not an
   * input, it ends up holding exactly the lines of the inputs that exist, in
   * sorted order; with `delete` (and no input listed twice) exactly the
   * inputs are gone; no other file and not standard output change, and the
   * only directories that can go are inputs, when deleting. When it cannot
   * be created, nothing changes and the create error is returned.
   */
  lemma ConcatFilesContent(h: Host, inputs: seq<Path>, out: Path, delete: bool, ignoreMissing: bool, closeOk: bool)
    requires out !in inputs && (delete ==> NoDuplicates(inputs))
    ensures var (r, e) := ConcatFilesSpec(h, inputs, out, delete, ignoreMissing, closeOk);
      if CanCreate(h, out) then
        && r.files == Kept(h.files, SortSpec(inputs), delete)[out := Gather(h.files, SortSpec(inputs))]
        && r.stdout == h.stdout
        && r.dirs <= h.dirs && (forall d :: d in h.dirs && !(delete && d in inputs) ==> d in r.dirs)
        && (e.Some? <==> !closeOk)
      else r == h && e == Some(CreateFailed(out))
  {
    if CanCreate(h, out) {
      var s := SortSpec(inputs);
      SortedInputs(inputs);
      var c := Created(h, out);
      ReadInputsToFile(c, s, out, delete, ignoreMissing);
      ReadInputsDirs(c, s, ToFile(out), delete, ignoreMissing);
      GatherIgnores(h.files, s, out, []);
      assert [] + Gather(h.files, s) == Gather(h.files, s);
      KeptIgnores(h.files, s, out, [], Gather(h.files, s), delete);
    }
  }

  /**
   * `ConcatToStdout` as called: standard output receives the lines of the
   * inputs that exist, in sorted order, each with its newline; with `delete`
   * (and no input listed twice) exactly the inputs are gone; the only
   * directories that can go are inputs, when deleting.
   */
  lemma ConcatToStdoutContent(h: Host, inputs: seq<Path>, delete: bool, ignoreMissing: bool, closeOk: bool)
    requires delete ==> NoDuplicates(inputs)
    ensures var (r, e) := ConcatToStdoutSpec(h, inputs, delete, ignoreMissing, closeOk);
      && r.stdout == h.stdout + Framed(Gather(h.files, SortSpec(inputs)))
      && r.files == Kept(h.files, SortSpec(inputs), delete)
      && r.dirs <= h.dirs && (forall d :: d in h.dirs && !(delete && d in inputs) ==> d in r.dirs)
      && (e.Some? <==> !closeOk)
  {
    SortedInputs(inputs);
    ReadInputsToStdout(h, SortSpec(inputs), delete, ignoreMissing);
    ReadInputsDirs(h, SortSpec(inputs), ToStdout, delete, ignoreMissing);
  }
}
