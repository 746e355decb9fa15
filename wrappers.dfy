/** Small failure-carrying datatypes shared by the other modules. */
module Wrappers {

  /** A value that may be absent (Python's `None`, or an empty `re.findall` result). */
  datatype Option<T> = None | Some(value: T)

  /** The outcome of a call that either returns a value or lets an exception propagate. */
  datatype Result<T> = Ok(value: T) | Raised
}
