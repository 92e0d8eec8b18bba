/** Option and Result values, standing for a nullable reference and for a call that may fail. */
module Wrappers {

  /** A value or its absence; stands for a Java reference that may be null. */
  datatype Option<+T> = None | Some(value: T)

  /** A value or the failure that prevented it; stands for a Java call that may throw. */
  datatype Result<+T, +E> = Success(value: T) | Failure(error: E)
}
