/** An optional value: None when a lookup finds nothing, Some otherwise. */
module Options {

  datatype Option<+T> = None | Some(value: T)
}
