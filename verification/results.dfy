/** Failure-carrying values used by every stage of the pipeline model.
    The Python code signals failure by raising; the model returns `Err`
    (or `Fail`) carrying the exception's message instead. */
module Results {

  /** A value that may be absent: a dictionary key that is not set. */
  datatype Option<+T> = None | Some(value: T) {

    /** The wrapped value, or `default` when absent (Python's `dict.get(key, default)`). */
    function GetOr(default: T): T {
      match this
      case Some(v) => v
      case None => default
    }
  }

  /** The outcome of an operation that returns a value or raises. */
  datatype Result<+T> = Ok(value: T) | Err(error: string)

  /** The outcome of a check that returns nothing or raises. */
  datatype Outcome = Pass | Fail(error: string)
}
