/** What several modules share: an optional value. */
module Wrappers {
  datatype Option<+T> = None | Some(value: T)
}
