/** Small failure-carrying datatypes shared by the model. */
module Wrappers {

  datatype Option<+T> = None | Some(value: T)

  datatype Result<+T, +E> = Success(value: T) | Failure(error: E)

  /** The outcome of a computation that divides: Python raises ZeroDivisionError
      where this model returns DivideByZero. */
  datatype Checked<+T> = Ok(value: T) | DivideByZero
}
