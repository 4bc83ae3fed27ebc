/** Failure-carrying datatypes shared by every module of the model. */
module Common {

  /** A value that may be missing, such as an optional request field or column. */
  datatype Option<+T> = None | Some(value: T) {

    /** The value, or `default` when it is missing. */
    function GetOr(default: T): T {
      match this
      case Some(v) => v
      case None => default
    }
  }

  /** The outcome of a statement that the database may refuse. */
  datatype Result<+T, +E> = Success(value: T) | Failure(error: E)
}
