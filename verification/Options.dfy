/** A value that may be absent: Python's None, Go's nil. */
module Options {
  datatype Option<+T> = None | Some(value: T)
}
