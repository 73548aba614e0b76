/** A value that may be absent: Go's nil values and second results. */
module Optional {
  datatype Option<+T> = None | Some(value: T)
}
