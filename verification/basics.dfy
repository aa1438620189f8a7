/**
 * Values shared by the whole model: optional values, the ways a run of
 * the script can stop with an unhandled exception, and results that
 * either carry a value or one of those failures.
 */
module Basics {

  datatype Option<T> = None | Some(value: T)

  /** A location in the report tree: its path components below the tree's root. */
  type Path = seq<string>

  /** Why a run stops with an unhandled exception. */
  datatype Failure =
    | ConfigNotFound                       // `open("config.txt")` raises FileNotFoundError
    | NameUndefined                        // no `name:` line, so `name` is unbound when the report is rendered
    | ScheduleFieldMissing(line: string)   // a matching schedule line has fewer than three fields (IndexError)
    | OsError(path: Path)                  // `os.makedirs` or `open` on `path` raises an OSError

  datatype Result<T> = Ok(value: T) | Err(failure: Failure) {
    predicate IsFailure() { Err? }
    function PropagateFailure<U>(): Result<U> requires Err? { Err(failure) }
    function Extract(): T requires Ok? { value }
  }
}
