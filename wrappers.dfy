/** The optional value used wherever the JavaScript source has a value that may be undefined. */
module Wrappers {
  datatype Option<+T> = None | Some(value: T)
}
