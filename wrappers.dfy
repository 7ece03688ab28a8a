/** Option and Result, the usual failure-carrying wrappers. */
module Wrappers {

  datatype Option<+T> = None | Some(value: T)

  /** The outcome of an operation that either yields a value or throws `error`. */
  datatype Result<+T> = Success(value: T) | Failure(error: string)
}
