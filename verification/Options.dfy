/** A value that may be missing, shared by all models. */
module Options {
  datatype Option<+T> = None | Some(value: T)
}
