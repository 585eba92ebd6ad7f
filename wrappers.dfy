/** The optional value used for every `T | null` of the page. */
module Wrappers {
  datatype Option<+T> = None | Some(value: T)
}
