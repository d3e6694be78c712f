/** The optional value used for JavaScript's `null` fields and for lookups that can miss. */
module Wrappers {

  datatype Option<+T> = None | Some(value: T)
}
