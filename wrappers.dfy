/** Nullable values and the exceptions the registry raises, as plain datatypes. */
module Wrappers {

  /** A Java reference that may be null. */
  datatype Option<+T> = None | Some(value: T)

  /** The exceptions thrown by the registry and its iterator. */
  datatype Error =
    | IllegalArgument       // IllegalArgumentException
    | NoSuchElement         // NoSuchElementException
    | UnsupportedOperation  // UnsupportedOperationException

  /** The outcome of a call that returns nothing: normal return or an exception. */
  datatype Outcome = Pass | Fail(error: Error)

  /** The outcome of a call that returns a value: the value or an exception. */
  datatype Result<+T> = Success(value: T) | Failure(error: Error)
}
