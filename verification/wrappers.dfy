/** Optional values, results and pass/fail outcomes: the model's stand-ins
    for absent map entries and for the error paths where the source throws a
    message. */
module Wrappers {

  datatype Option<T> = None | Some(value: T)

  /** A value, or the message of the error the source throws instead. */
  datatype Result<T> = Ok(value: T) | Err(message: string)

  /** The outcome of a check that either returns normally or throws a message. */
  datatype Outcome = Pass | Fail(message: string)
}
