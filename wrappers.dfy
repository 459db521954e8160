/** Failure-carrying values shared by the model. */
module Wrappers {

  datatype Option<+T> = None | Some(value: T)

  datatype Result<+T, +E> = Success(value: T) | Failure(error: E)

  /**
   * A Python value as seen by an `isinstance(x, (int, float))` test: either a
   * number or something else (None, a string, ...).
   */
  datatype PyNumber = Num(value: real) | NonNumeric
}
