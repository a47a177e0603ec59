/** Optional values and results with an error, used wherever the source passes
    `None` or raises an exception that its callers see. */
module Wrappers {

  datatype Option<T> = None | Some(value: T) {
    function GetOr(default: T): T {
      match this
      case Some(v) => v
      case None => default
    }
  }

  datatype Result<T, E> = Ok(value: T) | Err(error: E)
}
