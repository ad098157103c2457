/** Option, the usual stand-in for a value that may be absent (JavaScript `null`). */
module Wrappers {

  datatype Option<+T> = None | Some(value: T)
}
