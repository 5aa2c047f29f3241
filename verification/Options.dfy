/** A value that may be missing, for the source's `None`. */
module Options {
  datatype Option<+T> = None | Some(value: T)
}
