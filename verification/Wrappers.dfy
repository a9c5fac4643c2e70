/** The optional value used throughout, for the code's `T | null`. */
module Wrappers {
  datatype Option<+T> = None | Some(value: T)
}
