/** Option and Result, the two failure-carrying shapes the model uses for
    Python's `None` and for exceptions that abort a job. */
module Wrappers {

  datatype Option<+T> = None | Some(value: T) {
    /** The value, or `default` when absent (Python's `d.get(k, default)`). */
    function GetOr(default: T): T {
      match this
      case Some(v) => v
      case None => default
    }
  }

  /** `Err` stands for an exception that propagates to the job's caller. */
  datatype Result<+T, +E> = Ok(value: T) | Err(error: E)
}
