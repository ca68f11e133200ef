/** The optional value used for the source's `None` results and absent dictionary keys. */
module Wrappers {
  datatype Option<+T> = None | Some(value: T)
}
