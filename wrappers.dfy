/** Python's `None`-or-value results, as used throughout the reader. */
module Wrappers {

  datatype Option<+T> = None | Some(value: T)
}
