// Option and Result, the two wrappers the Rust crates use for absent values
// and for failures that are reported to the caller.
module Wrappers {

  datatype Option<T> = None | Some(value: T) {
    function UnwrapOr(default: T): T {
      match this
      case Some(v) => v
      case None => default
    }
  }

  datatype Result<T, E> = Ok(value: T) | Err(error: E)
}
