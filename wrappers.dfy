/**
  Failure-carrying values shared by the other modules.

  A Python call either returns a value or raises an exception that propagates
  to the caller unchanged; `Result` models exactly that, with `Exception`
  standing for the raised object.
 */
module Wrappers {

  /** A value that may be absent: Python's `X | None`. */
  datatype Option<+T> = None | Some(value: T)

  /** A raised Python exception: its class name and its message, which is what
      the front ends print as "Error: <kind>: <message>". */
  datatype Exception = Exception(kind: string, message: string)

  /** The outcome of a call that may raise. */
  datatype Result<+T> = Success(value: T) | Failure(error: Exception)
}
