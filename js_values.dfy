/** JavaScript values the form controller handles that may be missing. */
module JsValues {

  /** An optional value: `None` stands for JavaScript's `null` or `undefined`. */
  datatype Option<+T> = None | Some(value: T)

  /** JavaScript truthiness of a string that may be missing:
      `null`, `undefined` and the empty string are falsy, every other string is truthy. */
  predicate Truthy(s: Option<string>) {
    s.Some? && s.value != ""
  }
}
