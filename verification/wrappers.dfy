/** The optional value used for "no such section" and "no direction" results. */
module Wrappers {
  datatype Option<+T> = None | Some(value: T)
}
