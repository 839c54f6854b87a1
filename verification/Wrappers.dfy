/** An absent or present value, for every module that has one. */
module Wrappers {
  datatype Option<T> = None | Some(value: T)
}
