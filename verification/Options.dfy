/** The usual present-or-absent value: Go's comma-ok results and Python's Optional. */
module Options {
  datatype Option<+T> = None | Some(value: T)
}
