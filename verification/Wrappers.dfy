/**
 A value that may be absent: a NULL column, or Python's None.
 */
module Wrappers {

  datatype Option<+T> = None | Some(value: T)
}
