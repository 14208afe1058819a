/** Optional values, error results and the JavaScript "falsy means default" rule
    (`x || d`) that the application uses for every optional field. */
module Wrappers {

  datatype Option<+T> = None | Some(value: T)

  datatype Result<+R, +E> = Success(value: R) | Failure(error: E)

  /** A JavaScript number field is truthy when it is present and not 0. */
  predicate IsTruthyNumber(o: Option<real>) {
    o.Some? && o.value != 0.0
  }

  /** A JavaScript string field is truthy when it is present and not empty. */
  predicate IsTruthyText(o: Option<string>) {
    o.Some? && o.value != ""
  }

  /** `field || d` for an optional number. */
  function NumberOr(o: Option<real>, d: real): (r: real)
  {
    if IsTruthyNumber(o) then o.value else d
  }

  /** `field || d` for an optional string. */
  function TextOr(o: Option<string>, d: string): (r: string)
  {
    if IsTruthyText(o) then o.value else d
  }

  /** `s || d` for a string that is always present. */
  function NonEmptyOr(s: string, d: string): (r: string)
  {
    if s != "" then s else d
  }
}
