/** Kotlin's nullable values, written out. */
module Wrappers {

  datatype Option<+T> = None | Some(value: T)
}
