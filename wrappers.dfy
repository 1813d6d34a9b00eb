/**
 * Optional values and results shared by every module of the shop model.
 * `None` stands for Python's `None`; `Result` carries the error of an
 * operation that the source signals by raising or by an error response.
 */
module Wrappers {

  datatype Option<+T> = None | Some(value: T) {
    /** The wrapped value, or `default` when there is none. */
    function GetOr(default: T): T {
      match this
      case Some(v) => v
      case None => default
    }
  }

  datatype Result<+T, +E> = Ok(value: T) | Err(error: E)
}
