/** The optional value returned by a non-blocking channel poll or a fallible call. */
module Wrappers {

  datatype Option<+T> = None | Some(value: T)
}
