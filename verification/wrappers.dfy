/** The optional value used throughout the model: Go's `nil` error is `None`. */
module Wrappers {

  datatype Option<+T> = None | Some(value: T)
}
