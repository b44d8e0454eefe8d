/** Small failure-carrying datatypes shared by the expense and user modules. */
module Wrappers {

  datatype Option<+T> = None | Some(value: T)

  datatype Result<+T, +E> = Success(value: T) | Failure(error: E)

  /** The `{ valid, message }` objects returned by the two input validators. */
  datatype Validation = Valid | Invalid(message: string)
}
