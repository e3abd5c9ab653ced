/** std::optional, None in Python, and null pointers. */
module Options {
  datatype Option<T> = None | Some(value: T)
}
