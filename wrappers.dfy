/** The optional value used for device answers and switch results. */
module Wrappers {
  datatype Option<+T> = None | Some(value: T)
}
