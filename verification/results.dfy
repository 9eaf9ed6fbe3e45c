/** Failure-compatible wrappers shared by every module of the model. */
module Results {

  /** A JavaScript value that may be `null`/`undefined`. */
  datatype Option<+T> = None | Some(value: T) {

    function GetOr(default: T): (r: T)
      ensures Some? ==> r == value
      ensures None? ==> r == default
    {
      match this
      case Some(v) => v
      case None => default
    }
  }

  /** The outcome of a remote call or an `async` function: a value or a thrown error. */
  datatype Result<+T, +E> = Ok(value: T) | Err(error: E)
}
