/** Failure-compatible wrappers: `Option` stands for a Java reference that may be
    `null`, `Result` for a computation that either returns or throws. */
module Wrappers {

  datatype Option<+T> = None | Some(value: T)

  datatype Result<+T, +E> = Success(value: T) | Failure(error: E) {

    /** Forget the error: a caught exception becomes `null`. */
    function ToOption(): Option<T>
    {
      match this
      case Success(v) => Some(v)
      case Failure(_) => None
    }
  }
}
