/** The optional value used throughout the model. */
module Wrappers {

  /** An optional value: a nullable foreign key, a lookup that may find nothing. */
  datatype Option<+T> = None | Some(value: T)
}
