/** The optional value used for every `Option<…>` field of the portal library. */
module Wrappers {
  datatype Option<+T> = None | Some(value: T)
}
