/** The usual optional-value wrapper; the sketch uses `null` for "no value". */
module Wrappers {
  datatype Option<+T> = None | Some(value: T)
}
