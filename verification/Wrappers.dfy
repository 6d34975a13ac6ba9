// Small shared datatypes and a count.
module Wrappers {

  /** A value that may be absent: a SQL NULL, a Rust `None`. */
  datatype Option<+T> = None | Some(value: T)

  /** The reply of an HTTP handler: a body or an error status. */
  datatype Reply<+T> = Ok(value: T) | BadRequest | NotFound

  /** A condition as a count. */
  function One(b: bool): nat {
    if b then 1 else 0
  }
}
