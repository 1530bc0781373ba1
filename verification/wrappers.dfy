/** A value that may be absent: the result of a partial reading. */
module Wrappers {

  datatype Option<+T> = None | Some(value: T)
}
