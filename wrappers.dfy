/** An optional value, used for PHP calls that can fail or values that may be absent. */
module Wrappers {
  datatype Option<+T> = None | Some(value: T)
}
