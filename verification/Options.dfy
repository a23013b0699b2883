/** A value that may be missing, for what may be null and for entries that are not found. */
module Options {

  datatype Option<T> = None | Some(value: T)
}
