/** The nullable-reference idiom of the source (`string?`, `object?`), as a datatype. */
module Wrappers {

  datatype Option<+T> = None | Some(value: T)
}
