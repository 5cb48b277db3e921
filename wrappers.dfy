/** Rust's `Option<T>`, as used for the optional fields of the CUE records. */
module Wrappers {

  datatype Option<+T> = None | Some(value: T)
}
