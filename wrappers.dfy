/** Failure-carrying results: the model's stand-in for Java's `null` and for
    `IllegalArgumentException`. */
module Wrappers {

  datatype Option<+T> = None | Some(value: T)

  /** Why an operation failed fast. */
  datatype Error =
    | IllegalArgument(message: string)
    | NullPointer

  datatype Result<+R> = Success(value: R) | Failure(error: Error)
}
