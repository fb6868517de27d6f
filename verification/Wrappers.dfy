/** Values that may be absent: a nil Go map, slice or pointer, or a lookup that failed. */
module Wrappers {

  datatype Option<+T> = None | Some(value: T)
}
