/** The source's "value or undefined". */
module Wrappers {
  datatype Option<+T> = None | Some(value: T)
}
