/** An optional value: `undefined` in the JavaScript source becomes None. */
module Options {

  datatype Option<+T> = None | Some(value: T)
}
