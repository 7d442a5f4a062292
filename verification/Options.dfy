module Options {
  /** `std::optional`, and a result that an exception takes the place of. */
  datatype Option<+T> = None | Some(value: T)
}
