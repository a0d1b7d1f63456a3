/**
 * The optional value used wherever the source returns `None` or a dict lookup
 * can miss, and the outcome of a step that may raise an exception.
 */
module Wrappers {

  datatype Option<+T> = None | Some(value: T) {

    /** The value, or `default` when there is none (Python's `d.get(k, default)`). */
    function GetOr(default: T): T {
      match this
      case Some(v) => v
      case None => default
    }
  }

  /** A value, or the text of the exception raised instead (`str(e)`). */
  datatype Result<+T> = Ok(value: T) | Err(message: string)
}
