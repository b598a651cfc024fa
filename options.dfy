/** An optional value: JavaScript's `undefined`/falsy lookups and failed parses. */
module Options {
  datatype Option<+T> = None | Some(value: T)
}
