/** The optional value used wherever the Go source has a nillable pointer. */
module Options {
  datatype Option<+T> = None | Some(value: T)
}
