/** The optional value used throughout the model: a Go nil pointer or a missing entry is `None`. */
module Wrappers {

  datatype Option<+T> = None | Some(value: T)
}
