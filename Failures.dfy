/** Values standing for Java's null references and thrown exceptions. */
module Failures {

  /** A reference that may be null. */
  datatype Option<+T> = None | Some(value: T)

  /** The exceptions the modelled code throws. */
  datatype Error =
    | IllegalArgument(reason: string)
    | NullPointer
    | ClassCast
    | IndexOutOfBounds
    | ServiceFailure(reason: string)

  /** The result of a Java method that returns a value or throws. */
  datatype Result<+T> = Ok(value: T) | Err(error: Error)

  /** The result of a Java method that returns nothing or throws. */
  datatype Outcome = Done | Thrown(error: Error)
}
