/** A value that may be absent: Python's `None`, or JavaScript's `null`. */
module Wrappers {

  datatype Option<+T> = None | Some(value: T)
}
