/** The Some/None datatype used for "a block, or Python's None". */
module Wrappers {
  datatype Option<+T> = None | Some(value: T)
}
