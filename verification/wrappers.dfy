/** Failure-carrying result types shared by every module of the model. */
module Wrappers {

  /** A value that may be absent; `None` stands for a null pointer or an unset field. */
  datatype Option<+T> = None | Some(value: T)

  /** The outcome of an operation that can abort: `Failure` stands for an
      `exit(1)`, a failed `assert` or a thrown exception of the source. */
  datatype Result<+R, +E> = Success(value: R) | Failure(error: E)
}
