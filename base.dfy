/** Failure-carrying wrappers shared by every module of the model. */
module Base {

  /** A value that may be absent (Python's `None`). */
  datatype Option<+T> = None | Some(value: T) {
    function GetOr(default: T): (r: T)
      ensures Some? ==> r == value
      ensures None? ==> r == default
    {
      match this
      case Some(v) => v
      case None => default
    }
  }

  /** The result of an operation that may raise or return an error report. */
  datatype Result<+T, +E> = Ok(value: T) | Err(error: E)
}
