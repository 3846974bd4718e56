/** The conventional optional value: Python's `None` or something. */
module Options {
  datatype Option<+T> = None | Some(value: T)
}
