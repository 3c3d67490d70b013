/** JavaScript values as the front end's components see them: a possibly
    missing field, and the truthiness tests and `||` defaults applied to it. */
module JsValues {

  /** A field that may be `null`/`undefined` (None) or hold a value. */
  datatype Option<+T> = None | Some(value: T)

  /** A string is truthy exactly when it is not empty. */
  predicate Truthy(s: string) {
    |s| > 0
  }

  /** `field || ''` on a string field that may be missing. */
  function OrEmptyString(o: Option<string>): (s: string)
    ensures o.Some? ==> s == o.value
    ensures o.None? ==> !Truthy(s)
  {
    if o.Some? then o.value else ""
  }

  /** `field || []` on an array field that may be missing; an array, even an
      empty one, is truthy, so a present array is kept as it is. */
  function OrEmptyList<T>(o: Option<seq<T>>): (s: seq<T>)
    ensures o.Some? ==> s == o.value
    ensures o.None? ==> s == []
  {
    if o.Some? then o.value else []
  }
}
