/** A value that may be missing: a null column, a key a document leaves out, a lookup that finds nothing. */
module Options {
  datatype Option<+T> = None | Some(value: T)

  /** An optional string counts as given only when it is present and not empty. */
  predicate Given(text: Option<string>) {
    text.Some? && text.value != ""
  }
}
