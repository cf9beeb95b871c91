/** Option and Result, used for absent edge labels and for the failures of the dashboard. */
module Wrappers {

  /** An optional value: `None` stands for a missing attribute or key. */
  datatype Option<+T> = None | Some(value: T)

  /** A computation that either yields a value or fails with an error. */
  datatype Result<+R, +E> = Success(value: R) | Failure(error: E)
}
