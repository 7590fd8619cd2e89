/** The optional-value datatype used for Go's `(value, ok)` returns. */
module Wrappers {

  datatype Option<+T> = None | Some(value: T)
}
