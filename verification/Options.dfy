/** A value that may be missing: the sources' null pointers and failed reads. */
module Options {
  datatype Option<+T> = None | Some(value: T)
}
