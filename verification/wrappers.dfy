/** A small optional-value type used for transitions that the interface does not offer. */
module Wrappers {

  /** Either no value, or exactly one value. */
  datatype Option<+T> = None | Some(value: T)
}
