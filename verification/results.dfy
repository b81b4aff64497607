/** Optional values and error-or-value results shared by every module of the model. */
module Results {

  datatype Option<+T> = None | Some(value: T) {
    function GetOr(default: T): T {
      match this
      case Some(v) => v
      case None => default
    }
  }

  /** The outcome of an operation that the source can abandon by raising an error. */
  datatype Result<+T, +E> = Ok(value: T) | Err(error: E)
}
