/**
 * `TryCreateDir`: makes sure the output directory is usable, creating it when
 * it is absent and its parent is an existing directory.
 *
 * The outcomes the model cannot derive from the filesystem value are inputs:
 * `abs` is what resolving the path to an absolute one gave (`None` when that
 * failed), `mkdirOk` whether `os.Mkdir` succeeds once its parent is known to be
 * a directory, and `writable` whether the process may write to an existing
 * directory.
 *
 * `TryCreateDir` is the behaviour the code and its doc comment intend, which
 * the drivers use. `TryCreateDirAsWritten` below is the code as written on a
 * POSIX system, which differs for a parent that is a regular file and for an
 * existing directory.
 */
module DirCheck {
  import opened Wrappers
  import opened FileSystem

  datatype DirResult = DirResult(err: Option<IoError>, host: Host)

  function TryCreateDir(h: Host, abs: Option<Path>, empty: bool, mkdirOk: bool, writable: bool): (r: DirResult)
    // Only a directory is ever added, and then only the absent target itself.
    ensures r.host.files == h.files && r.host.stdout == h.stdout && r.host.log == h.log
    ensures r.host.dirs == h.dirs
         || (r.err.None? && abs.Some? && !Exists(h, abs.value) && r.host.dirs == h.dirs + {abs.value})
    // A failure changes nothing.
    ensures r.err.Some? ==> r.host == h
    // On success the target is a directory.
    ensures r.err.None? ==> abs.Some? && abs.value in r.host.dirs
    // An absent target: created exactly when its parent is a directory and mkdir succeeds.
    ensures abs.Some? && !Exists(h, abs.value) ==>
      && (r.err == Some(ParentMissing(Dir(abs.value))) <==> !Exists(h, Dir(abs.value)))
      && (r.err == Some(ParentNotDir(Dir(abs.value))) <==> Dir(abs.value) in h.files && Dir(abs.value) !in h.dirs)
      && (r.err.None? <==> Dir(abs.value) in h.dirs && mkdirOk)
    // A target that exists but is not a directory is refused.
    ensures abs.Some? && abs.value in h.files && abs.value !in h.dirs ==> r.err == Some(NotADirectory(abs.value))
    // An existing directory: refused when it may not be written to, and
    // otherwise when it must be empty and is not.
    ensures abs.Some? && abs.value in h.dirs ==>
      && r.host == h
      && (r.err == Some(NotWritable(abs.value)) <==> !writable)
      && (r.err == Some(NotEmpty(abs.value)) <==> writable && empty && HasEntries(h, abs.value))
      && (r.err.None? <==> writable && !(empty && HasEntries(h, abs.value)))
  {
    match abs
    case None => DirResult(Some(AbsFailed), h)
    case Some(d) =>
      if !Exists(h, d) then
        var parent := Dir(d);
        if !Exists(h, parent) then DirResult(Some(ParentMissing(parent)), h)
        else if parent !in h.dirs then DirResult(Some(ParentNotDir(parent)), h)
        else if !mkdirOk then DirResult(Some(MkdirFailed(d)), h)
        else DirResult(None, h.(dirs := h.dirs + {d}))
      else if d !in h.dirs then DirResult(Some(NotADirectory(d)), h)
      else if !writable then DirResult(Some(NotWritable(d)), h)
      else if empty && HasEntries(h, d) then DirResult(Some(NotEmpty(d)), h)
      else DirResult(None, h)
  }

  /** Creating the directory keeps the filesystem well formed. */
  lemma TryCreateDirKeepsValid(h: Host, abs: Option<Path>, empty: bool, mkdirOk: bool, writable: bool)
    requires Valid(h)
    ensures Valid(TryCreateDir(h, abs, empty, mkdirOk, writable).host)
  {
  }

  /**
   * A directory that was just created has no entries: in a well-formed
   * filesystem nothing can sit inside a directory that did not exist.
   */
  lemma CreatedDirIsEmpty(h: Host, d: Path, empty: bool, mkdirOk: bool, writable: bool)
    requires Valid(h) && !Exists(h, d)
    requires TryCreateDir(h, Some(d), empty, mkdirOk, writable).err.None?
    ensures !HasEntries(TryCreateDir(h, Some(d), empty, mkdirOk, writable).host, d)
  {
  }

  /**
   * The refusals the doc comment promises for an existing, non-empty
   * directory: one that may not be written to, and, when `empty` is set, one
   * that has entries.
   */
  lemma ExistingDirRefusals(h: Host, d: Path, empty: bool, mkdirOk: bool)
    requires d in h.dirs && HasEntries(h, d)
    ensures TryCreateDir(h, Some(d), empty, mkdirOk, false) == DirResult(Some(NotWritable(d)), h)
    ensures TryCreateDir(h, Some(d), true, mkdirOk, true) == DirResult(Some(NotEmpty(d)), h)
    ensures TryCreateDir(h, Some(d), false, mkdirOk, true) == DirResult(None, h)
  {
  }


  // The code as written, with `os.Stat` as a POSIX system answers it.

  /** What `os.Stat` reports: the entry found, "does not exist", or "not a directory". */
  datatype StatResult = StatFound(isDir: bool) | StatNotExist | StatNotDir

  /** Some proper ancestor of `p` is a regular file. */
  predicate UnderFile(h: Host, p: Path)
    decreases |p|
  {
    var q := Dir(p);
    |q| < |p| && (q in h.files || UnderFile(h, q))
  }

  /**
   * `os.Stat` on a POSIX system: resolving a path through a regular file fails
   * with ENOTDIR, for which `os.IsNotExist` is false.
   */
  function PosixStat(h: Host, p: Path): (r: StatResult)
    ensures r.StatFound? <==> Exists(h, p)
    ensures r.StatFound? ==> (r.isDir <==> p in h.dirs)
    ensures r == StatNotDir <==> !Exists(h, p) && UnderFile(h, p)
  {
    if p in h.dirs then StatFound(true)
    else if p in h.files then StatFound(false)
    else if UnderFile(h, p) then StatNotDir
    else StatNotExist
  }

  /** What a call does: return an error and a filesystem, or dereference a nil `FileInfo` at a line. */
  datatype GoOutcome = Returns(result: DirResult) | NilDereference(line: nat)

  /**
   * `TryCreateDir` as written. A failed stat whose error is not "does not
   * exist" leaves its `FileInfo` nil, and the next branch calls `IsDir` on it:
   * the parent's at line 37, the target's at line 44. Opening a directory
   * with `O_RDWR` always fails on POSIX (EISDIR), so for an existing directory
   * line 52 returns the nil error of the stat and the emptiness check never
   * runs.
   */
  function TryCreateDirAsWritten(h: Host, abs: Option<Path>, empty: bool, mkdirOk: bool): (r: GoOutcome)
    ensures r.NilDereference? ==> abs.Some? && !Exists(h, abs.value) && UnderFile(h, abs.value)
    ensures r.Returns? ==> r.result.err.Some? || r.result.host.dirs >= h.dirs
  {
    match abs
    case None => Returns(DirResult(Some(AbsFailed), h))
    case Some(d) =>
      match PosixStat(h, d)
      case StatNotExist =>
        var parent := Dir(d);
        (match PosixStat(h, parent)
         case StatNotExist => Returns(DirResult(Some(ParentMissing(parent)), h))
         case StatNotDir => NilDereference(37)
         case StatFound(isDir) =>
           if !isDir then Returns(DirResult(Some(ParentNotDir(parent)), h))
           else if !mkdirOk then Returns(DirResult(Some(MkdirFailed(d)), h))
           else Returns(DirResult(None, h.(dirs := h.dirs + {d}))))
      case StatNotDir => NilDereference(44)
      case StatFound(isDir) =>
        if !isDir then Returns(DirResult(Some(NotADirectory(d)), h))
        else Returns(DirResult(None, h))
  }

  /** The directory of an absolute path other than the root is shorter. */
  lemma DirShorter(d: Path)
    requires IsAbs(d) && d != "/"
    ensures |Dir(d)| < |d|
  {
  }

  /** In a well-formed filesystem nothing that exists lies under a regular file. */
  lemma {:induction false} ExistingNotUnderFile(h: Host, p: Path)
    requires Valid(h) && Exists(h, p)
    ensures !UnderFile(h, p)
    decreases |p|
  {
    var q := Dir(p);
    if |q| < |p| {
      assert q in h.dirs;
      ExistingNotUnderFile(h, q);
    }
  }

  /**
   * On a well-formed filesystem and an absolute path, the code as written
   * dereferences nil exactly when the target lies under a regular file, and
   * then at line 44; line 37 is never the one. It accepts every existing
   * directory. Everywhere else it does what `TryCreateDir` does.
   */
  lemma AsWrittenPanicsUnderFile(h: Host, d: Path, empty: bool, mkdirOk: bool, writable: bool)
    requires Valid(h) && IsAbs(d)
    ensures TryCreateDirAsWritten(h, Some(d), empty, mkdirOk).NilDereference?
        <==> UnderFile(h, d)
    ensures UnderFile(h, d) ==> TryCreateDirAsWritten(h, Some(d), empty, mkdirOk) == NilDereference(44)
    ensures d in h.dirs ==> TryCreateDirAsWritten(h, Some(d), empty, mkdirOk) == Returns(DirResult(None, h))
    ensures !UnderFile(h, d) && d !in h.dirs ==>
      TryCreateDirAsWritten(h, Some(d), empty, mkdirOk) == Returns(TryCreateDir(h, Some(d), empty, mkdirOk, writable))
  {
    if Exists(h, d) {
      ExistingNotUnderFile(h, d);
    } else if !UnderFile(h, d) {
      DirShorter(d);
      var parent := Dir(d);
      assert parent !in h.files && !UnderFile(h, parent);
    }
  }

  /**
   * The finding at line 44: on POSIX a regular file as the parent of an
   * absent target makes the code as written dereference nil, where the
   * evident intent (and `TryCreateDir`) is the "exists but is not a
   * directory" error.
   */
  lemma FileParentDereferencesNil(h: Host, d: Path, empty: bool, mkdirOk: bool, writable: bool)
    requires Valid(h) && IsAbs(d) && Dir(d) in h.files
    ensures TryCreateDirAsWritten(h, Some(d), empty, mkdirOk) == NilDereference(44)
    ensures TryCreateDir(h, Some(d), empty, mkdirOk, writable) == DirResult(Some(ParentNotDir(Dir(d))), h)
  {
  }

  /** The code as written never reports a non-directory parent. */
  lemma AsWrittenNeverParentNotDir(h: Host, abs: Option<Path>, empty: bool, mkdirOk: bool)
    requires Valid(h) && (abs.Some? ==> IsAbs(abs.value))
    ensures forall p :: TryCreateDirAsWritten(h, abs, empty, mkdirOk) != Returns(DirResult(Some(ParentNotDir(p)), h))
  {
  }

  /**
   * The code as written never refuses an existing directory: it reports
   * neither a non-empty nor an unwritable one, whatever `empty` asks.
   */
  lemma AsWrittenNeverRefusesDir(h: Host, abs: Option<Path>, empty: bool, mkdirOk: bool)
    ensures forall p :: TryCreateDirAsWritten(h, abs, empty, mkdirOk) != Returns(DirResult(Some(NotEmpty(p)), h))
    ensures forall p :: TryCreateDirAsWritten(h, abs, empty, mkdirOk) != Returns(DirResult(Some(NotWritable(p)), h))
  {
  }

  /**
   * The finding at line 49: a non-empty existing directory with `empty` set
   * is accepted by the code as written, and refused by `TryCreateDir` when it
   * may be written to.
   */
  lemma NonEmptyDirAccepted(h: Host, d: Path, mkdirOk: bool)
    requires d in h.dirs && HasEntries(h, d)
    ensures TryCreateDirAsWritten(h, Some(d), true, mkdirOk) == Returns(DirResult(None, h))
    ensures TryCreateDir(h, Some(d), true, mkdirOk, true) == DirResult(Some(NotEmpty(d)), h)
  {
  }
}
