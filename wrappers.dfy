/** Shared value types: Python's None, the exceptions the modelled code raises,
    and the result of an operation that either returns or raises. */
module Wrappers {

  /** A Python value that may be `None`. */
  datatype Option<+T> = None | Some(value: T)

  /** The exception classes raised by the modelled code. */
  datatype Exception =
    | KeyError        // dict or attribute lookup of a missing key
    | IndexError      // list index out of range, pop from an empty list
    | ValueError      // int() of a malformed string, a too small buffer size
    | RuntimeError    // Cycler() without items
    | AssertionError  // Symbols.ref of an unknown name
    | RequestError    // a failed HTTP fetch (connection error, timeout)
    | StatusError     // the plain Exception raised for a status other than 200
    | UnicodeEncodeError  // a non-ASCII unicode text formatted into a byte string

  /** The outcome of a call that returns a value or raises. */
  datatype Result<+T> = Ok(value: T) | Raised(error: Exception)

  /** The outcome of a call that returns nothing (`None`) or raises. */
  datatype Outcome = Done | Failed(error: Exception)
}
