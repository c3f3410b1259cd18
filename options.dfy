/** The usual Some/None wrapper; None plays the part of JavaScript's `null`. */
module Options {
  datatype Option<+T> = None | Some(value: T)
}
