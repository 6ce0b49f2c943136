/** A value that may be absent: JavaScript's `null` / `undefined` for an object-valued field. */
module Wrappers {
  datatype Option<+T> = None | Some(value: T)
}
