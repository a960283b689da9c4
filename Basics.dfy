/** Shared vocabulary: optional values, results carrying the Python exception that
    the source would raise, and filesystem paths as sequences of components. */
module Basics {

  datatype Option<T> = None | Some(value: T) {
    function GetOr(default: T): T {
      match this
      case Some(v) => v
      case None => default
    }
  }

  /** An absolute path, one string per component; [] is the filesystem root. */
  type Path = seq<string>

  /** The exceptions the modelled code can raise. */
  datatype Error =
    | AssertionError(size: int)   // `assert size in (...)` in path_for_seed
    | OSError(path: Path)         // mkdir on a missing parent or onto a file
    | KeyError(key: string)       // a missing WSGI environ entry
    | ValidationError             // a URL segment that is not a date

  datatype Result<T> = Ok(value: T) | Err(error: Error)

  /** A result without a value, for operations run only for their effect. */
  datatype Outcome = Pass | Fail(error: Error)
}
