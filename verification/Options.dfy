/** The value a lookup or a partial operation may or may not have. */
module Options {

  datatype Option<+T> = None | Some(value: T)
}
