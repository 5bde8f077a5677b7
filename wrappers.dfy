/** Failure-carrying results. A Java `null` return or argument is `None`; a Java
    `IllegalArgumentException` is the `Fail`/`Failure` branch carrying its message. */
module Wrappers {

  datatype Option<+T> = None | Some(value: T)

  datatype Result<+R, +E> = Success(value: R) | Failure(error: E)

  datatype Outcome<+E> = Pass | Fail(error: E)
}
