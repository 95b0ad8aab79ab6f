/** An optional value: a reference to a box or a direction that may be absent. */
module Wrappers {
  datatype Option<T> = None | Some(value: T)
}
