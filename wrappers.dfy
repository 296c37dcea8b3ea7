/** The optional value used wherever the interpreter works with a Swift optional (`T?`). */
module Wrappers {

  datatype Option<+T> = None | Some(value: T)
}
