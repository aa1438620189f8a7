/** The disk as a mutable object: the script's system calls, one method each. */
module Storage {
  import opened Basics
  import opened FileSystem

  /**
   * The disk the script runs against. Its methods are the system calls, and
   * each changes `dirs` and `files` exactly as the function of the same
   * name describes.
   */
  class Disk {
    var dirs: set<Path>
    var files: map<Path, string>

    function State(): Fs
      reads this
    {
      Fs(dirs, files)
    }

    constructor (fs: Fs)
      ensures State() == fs
    {
      dirs := fs.dirs;
      files := fs.files;
    }

    method PathExists(p: Path) returns (b: bool)
      ensures b == Exists(State(), p)
    {
      b := p in dirs || p in files;
    }

    method MakeDirs(p: Path) returns (err: Option<Failure>)
      modifies this
      ensures Effect(State(), err) == FileSystem.MakeDirs(old(State()), p)
    {
      if exists i | 1 <= i <= |p| :: p[..i] in files {
        err := Some(OsError(p));
      } else {
        dirs := dirs + Prefixes(p);
        err := None;
      }
    }

    method Write(p: Path, text: string) returns (err: Option<Failure>)
      modifies this
      ensures Effect(State(), err) == FileSystem.Write(old(State()), p, text)
    {
      if p != [] && p[..|p| - 1] in dirs && p !in dirs {
        files := files[p := text];
        err := None;
      } else {
        err := Some(OsError(p));
      }
    }

    method Append(p: Path, text: string) returns (err: Option<Failure>)
      modifies this
      ensures Effect(State(), err) == FileSystem.Append(old(State()), p, text)
    {
      if p != [] && p[..|p| - 1] in dirs && p !in dirs {
        var before := if p in files then files[p] else "";
        files := files[p := before + text];
        err := None;
      } else {
        err := Some(OsError(p));
      }
    }

    method Read(p: Path) returns (r: Result<string>)
      ensures r == FileSystem.Read(State(), p)
    {
      if p in files {
        r := Ok(files[p]);
      } else {
        r := Err(OsError(p));
      }
    }
  }
}
