/** A value that may be absent: JavaScript's `T | undefined` (or `T | null`). */
module Wrappers {

  datatype Option<+T> = None | Some(value: T)

}
