/** The optional value used for a record's summary. */
module Wrappers {

  datatype Option<+T> = None | Some(value: T)
}
