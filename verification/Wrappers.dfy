/** A value or nothing: the model's form of an operation that may refuse. */
module Wrappers {
  datatype Option<+T> = None | Some(value: T)
}
