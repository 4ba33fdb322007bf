/**
 * The part of the operating system the pipeline touches, as a value.
 *
 * A regular file is its sequence of lines (what a line scanner reads back from
 * it); a directory is a member of `dirs`. Standard output is the sequence of
 * strings written to it, and `log` holds the messages the pipeline reports,
 * whether through its logger or on the command's error stream.
 */
module FileSystem {
  import opened Wrappers

  type Path = string
  type Line = string

  /** Where a concatenation writes: a named output file or standard output. */
  datatype Sink = ToFile(path: Path) | ToStdout

  datatype IoError =
    | CreateFailed(path: Path)        // os.Create of an output file failed
    | CloseFailed(sink: Sink)         // closing the output failed
    | AbsFailed                       // filepath.Abs could not resolve the path
    | ParentMissing(parent: Path)
    | ParentNotDir(parent: Path)
    | NotADirectory(path: Path)
    | NotEmpty(path: Path)
    | NotWritable(path: Path)         // the directory may not be written to
    | MkdirFailed(path: Path)
    | RemoveFailed(path: Path)        // os.Remove failed

  datatype Event =
    | CouldNotRead(path: Path)        // an input of a concatenation could not be opened
    | Concatting(path: Path)          // an input is being copied to the output
    | CouldNotRemove(path: Path)      // an input read could not be removed afterwards
    | NoMatches(day: nat)             // a day had no temp files to aggregate
    | Reported(error: IoError)        // an error was printed or logged
    | DayFailed(day: nat)             // "FAIL: <date>"
    | DaySucceeded(day: nat)          // "SUCCESS: <date>"

  datatype Host = Host(
    files: map<Path, seq<Line>>,
    dirs: set<Path>,
    stdout: seq<string>,
    log: seq<Event>)

  /** Index of the last '/' in `p`, or -1 when there is none. */
  function LastSlash(p: Path): (r: int)
    ensures -1 <= r < |p|
  {
    if |p| == 0 then -1
    else if p[|p| - 1] == '/' then |p| - 1
    else LastSlash(p[..|p| - 1])
  }

  /** `LastSlash` finds a '/' with none after it, or reports that there is none. */
  lemma {:induction false} LastSlashIsLast(p: Path)
    ensures LastSlash(p) >= 0 ==> p[LastSlash(p)] == '/'
    ensures forall k :: LastSlash(p) < k < |p| ==> p[k] != '/'
    decreases |p|
  {
    if |p| > 0 && p[|p| - 1] != '/' {
      LastSlashIsLast(p[..|p| - 1]);
    }
  }

  /** `filepath.Dir` on a clean path. */
  function Dir(p: Path): Path
  {
    var i := LastSlash(p);
    if i < 0 then "." else if i == 0 then "/" else p[..i]
  }

  /** `filepath.Base` on a clean path that does not end in '/'. */
  function Base(p: Path): Path
  {
    if p == "" then "." else if p == "/" then "/" else p[LastSlash(p) + 1..]
  }

  /** `filepath.Join(dir, name)` for a clean directory and a plain file name. */
  function Join(dir: Path, name: Path): Path
  {
    if dir == "" then name else if dir == "/" then "/" + name else dir + "/" + name
  }

  /** A path that `filepath.Clean` leaves alone, apart from `.` and `..` elements. */
  predicate CleanDir(d: Path)
  {
    d == "/" || (d != "" && d[|d| - 1] != '/')
  }

  /** A file name with no directory part. */
  predicate PlainName(n: Path)
  {
    n != "" && forall k :: 0 <= k < |n| ==> n[k] != '/'
  }

  /** Joining a plain name onto a directory is undone by `Dir` and `Base`. */
  lemma JoinSplits(d: Path, n: Path)
    requires CleanDir(d) && PlainName(n)
    ensures Dir(Join(d, n)) == d && Base(Join(d, n)) == n
  {
    var p := Join(d, n);
    LastSlashIsLast(p);
    if d == "/" {
      assert p == "/" + n;
      assert p[0] == '/';
      assert forall k :: 0 < k < |p| ==> p[k] == n[k - 1];
      assert LastSlash(p) == 0;
      assert p[1..] == n;
    } else {
      assert p == d + "/" + n;
      assert p[|d|] == '/';
      assert forall k :: |d| < k < |p| ==> p[k] == n[k - |d| - 1];
      assert LastSlash(p) == |d|;
      assert p[..|d|] == d;
      assert p[|d| + 1..] == n;
    }
  }

  /** An absolute path. */
  predicate IsAbs(p: Path)
  {
    p != "" && p[0] == '/'
  }

  /**
   * `filepath.Abs(p)` with working directory `cwd`, for a clean `p`. It is
   * also the file the OS opens when a system call is given `p`.
   */
  function Resolve(cwd: Path, p: Path): (r: Path)
    ensures IsAbs(p) ==> r == p
    ensures !IsAbs(p) && p != "" ==> r == Join(cwd, p)
  {
    if IsAbs(p) then p else if p == "" then cwd else Join(cwd, p)
  }

  /**
   * A name joined onto a directory resolves to the name joined onto the
   * resolved directory: naming files after a relative directory and handing
   * them to the OS reaches the files in the resolved directory.
   */
  lemma ResolveJoin(cwd: Path, o: Path, n: Path)
    requires o != "" || (n != "" && !IsAbs(n))
    ensures Resolve(cwd, Join(o, n)) == Join(Resolve(cwd, o), n)
  {
    if o == "" {
    } else if IsAbs(o) {
      assert Join(o, n)[0] == '/';
    } else {
      assert Join(o, n) == o + "/" + n && Join(o, n)[0] == o[0];
      var c := Join(cwd, o);
      assert c != "" && c != "/" by {
        if cwd != "" && cwd != "/" {
          assert |c| > |cwd|;
        }
      }
      if cwd == "" {
      } else if cwd == "/" {
        assert Join(cwd, o + "/" + n) == "/" + o + "/" + n;
      } else {
        assert Join(cwd, o + "/" + n) == cwd + "/" + o + "/" + n;
      }
    }
  }

  /** Whether something, file or directory, sits at `p`. */
  predicate Exists(h: Host, p: Path)
  {
    p in h.files || p in h.dirs
  }

  /** The directory `d` holds at least one entry. */
  predicate HasEntries(h: Host, d: Path)
  {
    exists p :: p in h.files.Keys + h.dirs && p != d && Dir(p) == d
  }

  /**
   * Well-formed filesystems: the root exists, nothing is both a file and a
   * directory, and every entry sits in an existing directory.
   */
  ghost predicate Valid(h: Host)
  {
    && "/" in h.dirs
    && h.files.Keys !! h.dirs
    && (forall p :: p in h.files ==> Dir(p) in h.dirs)
    && (forall p :: p in h.dirs ==> Dir(p) in h.dirs)
  }

  /** `os.Create(p)` succeeds: its directory exists and `p` is not a directory. */
  predicate CanCreate(h: Host, p: Path)
  {
    Dir(p) in h.dirs && p !in h.dirs
  }

  /**
   * `os.Remove(p)`: removes a file, or a directory without entries; anything
   * else (nothing there, a directory that still holds entries) is an error
   * and changes nothing.
   */
  function Remove(h: Host, p: Path): (r: (Host, Option<IoError>))
    ensures r.1.None? <==> p in h.files || (p in h.dirs && !HasEntries(h, p))
    ensures r.1.Some? ==> r.0 == h && r.1 == Some(RemoveFailed(p))
    // A file goes first; otherwise the empty directory.
    ensures r.1.None? ==>
      if p in h.files then p !in r.0.files && r.0.dirs == h.dirs
      else p !in r.0.dirs && r.0.files == h.files
    // Nothing but `p` itself changes.
    ensures r.0.files - {p} == h.files - {p} && r.0.dirs - {p} == h.dirs - {p}
    ensures r.0.stdout == h.stdout && r.0.log == h.log
  {
    if p in h.files then (h.(files := h.files - {p}), None)
    else if p in h.dirs && !HasEntries(h, p) then (h.(dirs := h.dirs - {p}), None)
    else (h, Some(RemoveFailed(p)))
  }

  function Report(h: Host, e: Event): Host
  {
    h.(log := h.log + [e])
  }

  /** Each line written with a terminating newline. */
  function Framed(lines: seq<Line>): seq<string>
  {
    if lines == [] then [] else Framed(lines[..|lines| - 1]) + [lines[|lines| - 1] + "\n"]
  }

  lemma {:induction false} FramedAppend(a: seq<Line>, b: seq<Line>)
    ensures Framed(a + b) == Framed(a) + Framed(b)
    decreases |b|
  {
    if b != [] {
      assert (a + b)[..|a + b| - 1] == a + b[..|b| - 1];
      FramedAppend(a, b[..|b| - 1]);
    } else {
      assert a + b == a;
    }
  }

  lemma {:induction false} FramedShape(lines: seq<Line>)
    ensures |Framed(lines)| == |lines|
    ensures forall i :: 0 <= i < |lines| ==> Framed(lines)[i] == lines[i] + "\n"
    decreases |lines|
  {
    if lines != [] {
      FramedShape(lines[..|lines| - 1]);
    }
  }
}
