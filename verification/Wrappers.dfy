/** The two carrier types used throughout: an optional value, and a value or an error. */
module Wrappers {
  datatype Option<+T> = None | Some(value: T) {
    function GetOr(fallback: T): T { if None? then fallback else value }
  }

  datatype Result<+T, +E> = Ok(value: T) | Err(error: E)
}
