/** Optional values and error returns shared by every module of the model. */
module Wrappers {

  /** A value that may be absent: a configuration key that is not set, a file that does not exist. */
  datatype Option<+T> = None | Some(value: T) {

    /** The value, or `default` when absent (Python's `dict.get(key, default)`). */
    function GetOr(default: T): T {
      if Some? then value else default
    }
  }

  /** The outcome of an operation that raises in the source: `Err` stands for the exception. */
  datatype Result<+T, +E> = Ok(value: T) | Err(error: E)
}
