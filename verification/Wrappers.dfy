/** A value that may be absent, and the answer of a call that may raise. */
module Wrappers {
  datatype Option<+T> = None | Some(value: T)

  datatype Reply<+T> = Ok(value: T) | Raised
}
