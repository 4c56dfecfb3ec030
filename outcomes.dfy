/** Failure-carrying values used in place of the exceptions the original code raises. */
module Outcomes {

  datatype Option<+T> = None | Some(value: T)

  /** The result of a computation that either yields a value or fails with a message. */
  datatype Result<+T> = Ok(value: T) | Err(msg: string) {
    function ToOption(): Option<T>
    {
      match this
      case Ok(v) => Some(v)
      case Err(_) => None
    }
  }

  /** The result of a command that either completes or fails with a message
      (a Python method returning None or raising ValueError(msg)). */
  datatype Outcome = Pass | Fail(msg: string)
}
