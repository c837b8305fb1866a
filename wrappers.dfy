/** Option, standing for the source's `null` / missing values. */
module Wrappers {
  datatype Option<+T> = None | Some(value: T)
}
