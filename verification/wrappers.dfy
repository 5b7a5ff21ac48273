/** Option and result types used across the model. */
module Wrappers {

  /** An optional value: the pitch detector's "no pitch in this window". */
  datatype Option<+T> = None | Some(value: T)

  /** A value or the reason it could not be produced (a thrown exception in the source). */
  datatype Result<+T, +E> = Success(value: T) | Failure(error: E)
}
