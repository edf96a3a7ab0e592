/** An optional value: JavaScript's `null` (or an absent argument) is `None`. */
module Options {
  datatype Option<+T> = None | Some(value: T)
}
