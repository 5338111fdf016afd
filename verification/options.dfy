/** An optional value, for the readers and searches that may find nothing. */
module Options {
  datatype Option<+T> = None | Some(value: T)
}
