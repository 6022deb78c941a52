/** Optional values and success/failure results shared by every module of the model. */
module Wrappers {

  /** A value that may be absent: JavaScript's `undefined`/`null` is `None`. */
  datatype Option<+T> = None | Some(value: T) {

    /** The carried value, or `default` when absent. */
    function GetOr(default: T): T {
      match this
      case Some(v) => v
      case None => default
    }
  }

  /** The outcome of a controller: a value on success, an error tag otherwise. */
  datatype Result<+T, +E> = Ok(value: T) | Err(error: E)
}
