/** An optional value, used for the failures the tool lets propagate. */
module Wrappers {
  datatype Option<+T> = None | Some(value: T)
}
