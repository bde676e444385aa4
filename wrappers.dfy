/** Optional values, standing in for Rust's `Option` and for `Result`s whose error is dropped. */
module Wrappers {

  datatype Option<+T> = None | Some(value: T)
}
