/** The optional value used for the stored timestamp, which starts out unset. */
module Wrappers {

  datatype Option<+T> = None | Some(value: T)
}
