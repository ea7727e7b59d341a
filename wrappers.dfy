/** An optional value: Java's nullable references in this model. */
module Wrappers {
  datatype Option<T> = None | Some(value: T)
}
