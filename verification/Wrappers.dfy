/** A value that may be absent: `undefined` and `null` in the source. */
module Wrappers {
  datatype Option<+T> = None | Some(value: T)
}
