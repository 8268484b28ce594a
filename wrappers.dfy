/** Optional values and results, for Python's `None` and for raised exceptions. */
module Wrappers {

  datatype Option<+T> = None | Some(value: T) {
    /** Python's `x or default` for an optional value. */
    function GetOr(default: T): T {
      match this
      case Some(v) => v
      case None => default
    }
  }

  /** The outcome of a step that may raise: `Ok` on normal return, `Err` with the exception text. */
  datatype Result<+T> = Ok(value: T) | Err(error: string)
}
