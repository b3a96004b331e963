/** Small shared vocabulary: an optional value, the JavaScript "falsy or missing"
    reading of an optional string, and the ASCII character classes the model needs. */
module Basics {

  /** A value that may be missing (`null` / `undefined` in the program). */
  datatype Option<+T> = None | Some(value: T) {

    /** The carried value, or `default` when there is none (the `x || d` idiom
        for values that are never falsy when present). */
    function GetOr(default: T): T {
      match this
      case Some(v) => v
      case None => default
    }
  }

  /** `s || d` on an optional string: both a missing string and the empty string
      are falsy in JavaScript, so both fall back to `d`. */
  function OrElse(s: Option<string>, d: string): (r: string)
    ensures r == d <==> (s.None? || s.value == "" || s.value == d)
    ensures r != d ==> s == Some(r)
  {
    if s.Some? && s.value != "" then s.value else d
  }

  predicate IsDigit(c: char) {
    '0' <= c <= '9'
  }

  predicate IsUpper(c: char) {
    'A' <= c <= 'Z'
  }
}
