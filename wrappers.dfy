/** Error values standing for the Java exceptions the modelled code lets escape. */
module Wrappers {
  datatype Option<T> = None | Some(value: T)

  /** The exception classes the core can raise. */
  datatype Failure =
    | InputMismatch      // java.util.InputMismatchException
    | IndexOutOfBounds   // ArrayIndexOutOfBoundsException / IndexOutOfBoundsException
    | Arithmetic         // ArithmeticException (integer division by zero)
    | IllegalState       // IllegalStateException
    | ClassCast          // ClassCastException

  /** A computation that either produces a value or throws. */
  datatype Result<T> = Ok(value: T) | Err(error: Failure)

  /** A computation without a value that either completes or throws. */
  datatype Outcome = Pass | Fail(error: Failure)
}
