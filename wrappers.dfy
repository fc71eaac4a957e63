/** A value that may be absent: the model's reading of TypeScript's `T | null`
    and of an optional record field (`priority?:`). */
module Wrappers {
  datatype Option<+T> = None | Some(value: T)
}
