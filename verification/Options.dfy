/** The conventional optional value, used for absent keys, nil pointers and failed look-ups. */
module Options {
  datatype Option<+T> = None | Some(value: T)
}
