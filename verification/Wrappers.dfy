/** Option values, used where the source returns a nil pointer or a missing map entry. */
module Wrappers {
  datatype Option<+T> = None | Some(value: T)
}
