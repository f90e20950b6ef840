/** The optional value used for an operation that may produce nothing. */
module Wrappers {

  datatype Option<+T> = None | Some(value: T)
}
