/** The optional value used for Rust's `Option` and for fallible parses. */
module Wrappers {

  datatype Option<+T> = None | Some(value: T)

}
