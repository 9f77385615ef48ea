/** An optional value: the result of an operation that may produce nothing. */
module Wrappers {

  datatype Option<+T> = None | Some(value: T)
}
