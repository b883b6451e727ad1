/** Results that may be absent. */
module Wrappers {
  /** A Python value that may be `None`. */
  datatype Option<T> = None | Some(value: T)
}
