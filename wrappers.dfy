/** Failure-carrying result types shared by the other modules. */
module Wrappers {

  /** An optional value: a `std::optional`, or a type alias that a struct may omit. */
  datatype Option<+T> = None | Some(value: T) {
    function GetOr(default: T): T {
      match this
      case Some(v) => v
      case None => default
    }
  }

  /** Either a value or the error (an `ERROR`, a failed `ASSERT`, or a
      `static_assert` that rejects the instantiation) that replaces it. */
  datatype Result<+R, +E> = Ok(value: R) | Err(error: E)
}
