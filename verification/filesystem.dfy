/**
 * The part of the operating system the script relies on: a tree of
 * directories and text files below the project directory, and the four
 * calls it makes on it (`os.makedirs(..., exist_ok=True)`, `open(p, "w")`,
 * `open(p, "a")` and `open(p).read()`), together with `os.path.exists`.
 * A failing call raises, which ends the script with what was already on
 * disk left in place.
 */
module FileSystem {
  import opened Basics

  /** Directories and files, named by their path below the project directory. */
  datatype Fs = Fs(dirs: set<Path>, files: map<Path, string>)

  /** The state after a step, and the error that ended the run there, if any. */
  datatype Effect = Effect(fs: Fs, abort: Option<Failure>) {
    predicate IsFailure() { abort.Some? }
    function PropagateFailure(): Effect requires IsFailure() { this }
    function Extract(): Fs requires !IsFailure() { fs }
  }

  /** A step that succeeded and left the given state. */
  function Done(fs: Fs): Effect
  {
    Effect(fs, None)
  }

  function Parent(p: Path): Path
    requires p != []
  {
    p[..|p| - 1]
  }

  /**
   * A well-formed tree: the project directory exists, every directory but it
   * and every file sits in an existing directory, and no path is both.
   */
  predicate Valid(fs: Fs)
  {
    && [] in fs.dirs
    && (forall d :: d in fs.dirs && d != [] ==> Parent(d) in fs.dirs)
    && (forall f :: f in fs.files ==> f != [] && Parent(f) in fs.dirs)
    && (forall f :: f in fs.files ==> f !in fs.dirs)
  }

  /** `os.path.exists`: a directory or a file is there. */
  predicate Exists(fs: Fs, p: Path)
  {
    p in fs.dirs || p in fs.files
  }

  /** The path and every directory above it. */
  function Prefixes(p: Path): (ps: set<Path>)
    ensures [] in ps && p in ps
  {
    assert p[..0] == [] && p[..|p|] == p;
    set i | 0 <= i <= |p| :: p[..i]
  }

  lemma PrefixOf(p: Path, q: Path)
    requires q in Prefixes(p)
    ensures |q| <= |p| && q == p[..|q|]
  {
  }

  /** Every proper prefix of a prefix of `p` is again one of them: the set is a chain of parents. */
  lemma PrefixesParentClosed(p: Path, q: Path)
    requires q in Prefixes(p) && q != []
    ensures Parent(q) in Prefixes(p)
  {
    PrefixOf(p, q);
    assert Parent(q) == p[..|q| - 1];
  }

  /**
   * `os.makedirs(p, exist_ok=True)`: creates `p` and the missing directories
   * above it, and fails when `p` or a directory above it is a file.
   */
  function MakeDirs(fs: Fs, p: Path): (r: Effect)
    ensures r.abort.None? <==> forall i :: 1 <= i <= |p| ==> p[..i] !in fs.files
    ensures r.abort.None? ==> p in r.fs.dirs && fs.dirs <= r.fs.dirs && r.fs.files == fs.files
    ensures r.abort.Some? ==> r.fs == fs
    ensures Valid(fs) ==> Valid(r.fs)
  {
    if exists i | 1 <= i <= |p| :: p[..i] in fs.files then Effect(fs, Some(OsError(p)))
    else
      var r := Done(Fs(fs.dirs + Prefixes(p), fs.files));
      MakeDirsValid(fs, p);
      r
  }

  lemma MakeDirsValid(fs: Fs, p: Path)
    requires forall i :: 1 <= i <= |p| ==> p[..i] !in fs.files
    ensures Valid(fs) ==> Valid(Fs(fs.dirs + Prefixes(p), fs.files))
  {
    if Valid(fs) {
      var dirs := fs.dirs + Prefixes(p);
      forall d | d in dirs && d != []
        ensures Parent(d) in dirs
      {
        if d in Prefixes(p) {
          PrefixesParentClosed(p, d);
        }
      }
      forall f | f in fs.files
        ensures f !in dirs
      {
        if f in Prefixes(p) {
          PrefixOf(p, f);
        }
      }
    }
  }

  /** Opening with `"w"` or `"a"` needs an existing directory above and a path that is not one. */
  predicate Writable(fs: Fs, p: Path)
  {
    p != [] && Parent(p) in fs.dirs && p !in fs.dirs
  }

  /** `open(p, "w").write(text)`: the file now holds exactly `text`. */
  function Write(fs: Fs, p: Path, text: string): (r: Effect)
    ensures r.abort.None? <==> Writable(fs, p)
    ensures r.abort.None? ==> r.fs.dirs == fs.dirs && r.fs.files == fs.files[p := text]
    ensures r.abort.Some? ==> r.fs == fs
    ensures Valid(fs) ==> Valid(r.fs)
  {
    if Writable(fs, p) then Done(Fs(fs.dirs, fs.files[p := text])) else Effect(fs, Some(OsError(p)))
  }

  /** The text of a file, or nothing when there is none. */
  function Contents(fs: Fs, p: Path): string
  {
    if p in fs.files then fs.files[p] else ""
  }

  /** `open(p, "a").write(text)`: the file, created empty if absent, gains `text` at its end. */
  function Append(fs: Fs, p: Path, text: string): (r: Effect)
    ensures r.abort.None? <==> Writable(fs, p)
    ensures r.abort.None? ==> r.fs.dirs == fs.dirs && r.fs.files == fs.files[p := Contents(fs, p) + text]
    ensures r.abort.Some? ==> r.fs == fs
    ensures Valid(fs) ==> Valid(r.fs)
  {
    if Writable(fs, p) then Done(Fs(fs.dirs, fs.files[p := Contents(fs, p) + text]))
    else Effect(fs, Some(OsError(p)))
  }

  /** `open(p).read()`: fails unless `p` is a file. */
  function Read(fs: Fs, p: Path): (r: Result<string>)
    ensures r.Ok? <==> p in fs.files
    ensures r.Ok? ==> r.value == fs.files[p]
  {
    if p in fs.files then Ok(fs.files[p]) else Err(OsError(p))
  }

  /**
   * How a run may have changed the tree: directories only added, and only
   * those in `made`; files never removed; a new file only among `created` or
   * `appended`; an existing file changed only if it is among `appended`.
   */
  predicate Extends(fs: Fs, fs': Fs, made: set<Path>, created: set<Path>, appended: set<Path>)
  {
    && fs.dirs <= fs'.dirs <= fs.dirs + made
    && (forall p :: p in fs'.files ==> p in fs.files || p in created || p in appended)
    && (forall p :: p in fs.files ==> p in fs'.files && (p in appended || fs'.files[p] == fs.files[p]))
  }

  lemma ExtendsTrans(a: Fs, b: Fs, c: Fs, made1: set<Path>, created1: set<Path>, appended1: set<Path>,
                     made2: set<Path>, created2: set<Path>, appended2: set<Path>)
    requires Extends(a, b, made1, created1, appended1) && Extends(b, c, made2, created2, appended2)
    ensures Extends(a, c, made1 + made2, created1 + created2, appended1 + appended2)
  {
  }

  /** Whatever the outcome, `makedirs` only adds the directories on the path. */
  lemma MakeDirsExtends(fs: Fs, p: Path)
    ensures Extends(fs, MakeDirs(fs, p).fs, Prefixes(p), {}, {})
  {
  }

  /** Writing a path that does not exist yet only creates it. */
  lemma WriteExtends(fs: Fs, p: Path, text: string)
    requires !Exists(fs, p)
    ensures Extends(fs, Write(fs, p, text).fs, {}, {p}, {})
  {
  }

  /** Appending only touches the appended file, and keeps what it held. */
  lemma AppendExtends(fs: Fs, p: Path, text: string)
    ensures Extends(fs, Append(fs, p, text).fs, {}, {}, {p})
    ensures Contents(Append(fs, p, text).fs, p)
         == (if Writable(fs, p) then Contents(fs, p) + text else Contents(fs, p))
  {
  }

  /** A tree in which `p` and the directories above it all exist: `makedirs` has nothing to do. */
  lemma MakeDirsIdle(fs: Fs, p: Path)
    requires Valid(fs) && Prefixes(p) <= fs.dirs
    ensures MakeDirs(fs, p) == Done(fs)
  {
    forall i | 1 <= i <= |p|
      ensures p[..i] !in fs.files
    {
      assert p[..i] in Prefixes(p);
    }
    assert fs.dirs + Prefixes(p) == fs.dirs;
  }
}
