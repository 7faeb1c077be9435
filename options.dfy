/** The optional value used wherever the modelled code raises, or hands back `None`. */
module Options {
  datatype Option<+T> = None | Some(value: T)
}
