/** Java's nullable references and thrown exceptions, as values. */
module Wrappers {

  /** A Java reference that may be null: `None` is null. */
  datatype Option<+T> = None | Some(value: T)

  /** The outcome of a Java call: a returned value or a thrown exception. */
  datatype Result<+T, +E> = Ok(value: T) | Err(error: E)
}
