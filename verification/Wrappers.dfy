/** The two failure-carrying values the models share. */
module Wrappers {

  /** A nullable column or an optional request field. */
  datatype Option<+T> = None | Some(value: T)

  /** A computation that either yields a value or throws. */
  datatype Result<+T, +E> = Success(value: T) | Failure(error: E)
}
