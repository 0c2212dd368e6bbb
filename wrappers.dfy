/** The optional value the original expresses with Rust's `Option`. */
module Wrappers {

  datatype Option<+T> = None | Some(value: T)
}
