/** Small value types shared by the rest of the model: optional values, the result of an
    awaited call that may throw, and JavaScript's `||` on strings. */
module Outcomes {

  /** A value that may be absent (`undefined` / `null` in the page). */
  datatype Option<+T> = None | Some(value: T)

  /** A thrown error, reduced to the two fields the page reads from it.
      A missing or empty field is the empty string. */
  datatype Thrown = Thrown(reason: string, message: string)

  /** The outcome of one awaited chain read or write: a value, or a thrown error. */
  datatype Outcome<+T> = Ok(value: T) | Throw(error: Thrown)

  /** JavaScript's `a || b` where both operands are strings: the empty string is falsy. */
  function OrElse(a: string, b: string): string
  {
    if a != "" then a else b
  }

  /** The last element of a non-empty sequence. */
  function Last<T>(s: seq<T>): T
    requires |s| > 0
  {
    s[|s| - 1]
  }
}
