/** The optional value used across the models in place of null and undefined. */
module Options {
  datatype Option<+T> = None | Some(value: T)
}
