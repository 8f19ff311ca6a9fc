/** The Some/None datatype used for optional token fields and for `parseInt`'s NaN. */
module Wrappers {
  datatype Option<+T> = None | Some(value: T)
}
