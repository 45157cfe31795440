/** A value that may be missing: a storage slot with nothing in it, an index
    that was not found, a status slot that is not on the page. */
module Wrappers {
  datatype Option<+T> = None | Some(value: T)
}
