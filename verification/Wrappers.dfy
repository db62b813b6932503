/** The optional value used where the source returns a second "ok" or "err" result. */
module Wrappers {
  datatype Option<+T> = None | Some(value: T)
}
