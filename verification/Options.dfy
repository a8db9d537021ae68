/** The optional value shared by the other modules (Python's `Optional`). */
module Options {
  datatype Option<+T> = None | Some(value: T)
}
