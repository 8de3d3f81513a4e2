/** The optional value used for lookups and conversions that can fail. */
module Wrappers {

  datatype Option<+T> = None | Some(value: T)
}
