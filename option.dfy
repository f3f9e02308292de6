module Optional {

  /** A value that may be absent (Ruby's nil). */
  datatype Option<T> = None | Some(value: T)
}
