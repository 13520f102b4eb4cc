/** Small failure-carrying datatypes shared by the other modules. */
module Wrappers {

  /** An optional value: the model of `std::optional` and of a nullable pointer. */
  datatype Option<+T> = None | Some(value: T)

  /** The outcome of a command that either completes or raises an error. */
  datatype Outcome<+E> = Pass | Fail(error: E)

  /** A value, or the error that prevented producing it. */
  datatype Result<+R, +E> = Success(value: R) | Failure(error: E)
}
