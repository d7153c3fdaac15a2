/** Values that may be missing. */
module Options {

  datatype Option<+T> = None | Some(value: T)

  function OrElse<T>(o: Option<T>, d: T): T {
    if o.Some? then o.value else d
  }

  /** A string that is there and not empty. */
  predicate Truthy(s: Option<string>) {
    s.Some? && s.value != ""
  }
}
