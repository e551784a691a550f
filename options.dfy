/** An optional value: the model's stand-in for "nothing was produced". */
module Options {

  datatype Option<+T> = None | Some(value: T)
}
