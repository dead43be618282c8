/** An optional value: how the model writes Python's `None` and C's `NULL` pointers. */
module Options {
  datatype Option<+T> = None | Some(value: T)
}
