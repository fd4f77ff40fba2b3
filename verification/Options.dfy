module Options {
  /** A value that may be missing: a nil pointer, or an error return. */
  datatype Option<T> = None | Some(value: T)
}
