/** The optional value used wherever the source reads something that may be absent
    (a missing object key, a null from storage, an unparseable time). */
module Wrappers {
  datatype Option<+T> = None | Some(value: T)
}
