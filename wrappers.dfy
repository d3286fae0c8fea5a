/** The Option datatype used for lookups that may fail and for abstracted parsers. */
module Wrappers {

  datatype Option<+T> = None | Some(value: T)
}
