/** The failure-carrying datatype used to model parses that may fail. */
module Wrappers {

  /** The outcome of an operation that either yields a value or reports an error. */
  datatype Result<+R, +E> = Success(value: R) | Failure(error: E)
}
