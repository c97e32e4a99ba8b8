/** A value that may be absent. */
module Option {
  datatype Maybe<T> = None | Some(value: T)
}
