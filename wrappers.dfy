/** A value that may be absent: a missing record, a role not yet stored, a
    key with no template. */
module Wrappers {
  datatype Option<T> = None | Some(value: T)
}
