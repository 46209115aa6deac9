/** The optional value used wherever the Go code has a nil-or-value result. */
module Options {

  datatype Option<+T> = None | Some(value: T)
}
