/** Python's `X | None` and the "value or raised exception" shape used across the model. */
module Wrappers {

  datatype Option<+T> = None | Some(value: T)

  /** The outcome of a Python call that either returns a value or raises an exception
      whose `str(ex)` is `error`. */
  datatype Outcome<+T> = Returned(value: T) | Raised(error: string)
}
