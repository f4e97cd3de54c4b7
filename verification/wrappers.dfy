/** Failure-carrying datatypes used in place of Java's `Optional`, nullable
    references and thrown exceptions. */
module Wrappers {

  /** `java.util.Optional` and nullable references: `None` is empty / null. */
  datatype Option<+T> = None | Some(value: T)

  /** A call that either returns a value or raises an error. */
  datatype Result<+R, +E> = Success(value: R) | Failure(error: E)

  /** A `void` call that either returns normally or raises an error. */
  datatype Outcome<+E> = Pass | Fail(error: E)
}
