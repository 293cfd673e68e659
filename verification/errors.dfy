/** Failure-carrying values for the command-line validators.

    The source reports a bad argument by throwing `std::invalid_argument`
    with a fixed message; here that exception is the `Failure` arm of
    `Result`, and a null `const char*` argument is `None`. */
module Errors {

  /** An argument that may be absent (a null C string in the source). */
  datatype Option<+T> = None | Some(value: T)

  /** The one exception kind the validators throw, with its message. */
  datatype Error = InvalidArgument(message: string)

  /** Either the validated value or the exception that would be thrown. */
  datatype Result<+T> = Success(value: T) | Failure(error: Error)
}
