/** The optional value used wherever the modelled programs use None, null or a missing entry. */
module Options {
  datatype Option<+T> = None | Some(value: T)
}
