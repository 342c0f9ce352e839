/** Small value wrappers shared by the ledger and the items store: an optional
    value (the ledger's nullable snapshot) and a result that is either a value
    or a thrown error. */
module Basics {

  /** `None` plays the role of JavaScript's `null`. */
  datatype Option<+T> = None | Some(value: T)

  /** A dispatch either completes with a value or throws `error`. */
  datatype Result<+T, +E> = Ok(value: T) | Err(error: E)
}
