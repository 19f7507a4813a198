/** Failure-carrying values used in place of Go's `(value, error)` pairs and nil pointers. */
module Results {

  /** A Go pointer that may be nil. */
  datatype Option<+T> = None | Some(value: T)

  /** A Go `(value, error)` return: exactly one of the two is meaningful. */
  datatype Result<+T, +E> = Success(value: T) | Failure(error: E) {

    /** The value half of the pair, `nil` on failure. */
    function ValueOrNil(): Option<T> {
      match this
      case Success(v) => Some(v)
      case Failure(_) => None
    }

    /** The error half of the pair, `nil` on success. */
    function ErrorOrNil(): Option<E> {
      match this
      case Success(_) => None
      case Failure(e) => Some(e)
    }
  }
}
