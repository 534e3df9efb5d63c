/** Small value types shared by every module of the model. */
module Wrappers {

  /** A Java reference that may be null. */
  datatype Option<+T> = None | Some(value: T)

  /** The exceptions that the modelled code lets escape to its caller. */
  datatype Exception =
    | NullPointer      // a method called on a null reference
    | IOFailure        // the transport reported an I/O error while sending
    | StartFailure     // starting the client failed
    | UriSyntax        // the address is not a well-formed URI
    | ConnectFailure   // connecting failed

  /** A value, or the exception thrown instead of returning one. */
  datatype Result<+T> = Ok(value: T) | Thrown(error: Exception)

  /** A step that either completes normally or throws. */
  datatype Outcome = Pass | Fail(error: Exception)

  /** A Java `byte`. */
  newtype byte = b: int | -128 <= b < 128
}
