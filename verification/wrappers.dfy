/** Failure-compatible wrappers used throughout the model in place of Java's
    null references and exceptions. */
module Wrappers {

  /** An optional value: None stands for a Java null where null means "absent". */
  datatype Option<+T> = None | Some(value: T)

  /** The outcome of an operation that may fail: Failure stands for a thrown exception. */
  datatype Result<+R, +E> = Success(value: R) | Failure(error: E)
}
