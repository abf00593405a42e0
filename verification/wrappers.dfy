/**
 The `Option` and `Result` datatypes shared by the escape-time evaluator and
 the grid sampler: `Option` stands for Python's `int | None`, `Result` for a
 value or the exception NumPy raises.
 */
module Wrappers {

  /** A value that may be absent; `None` is the "did not escape" sentinel. */
  datatype Option<+T> = None | Some(value: T)

  /** A computed value, or the reason the computation was refused. */
  datatype Result<+R, +E> = Success(value: R) | Failure(error: E)
}
