/**
 * PHP's default `trim` and the blank test Laravel builds on it: the
 * validator's `required` rule, its skipping of non-implicit rules on blank
 * input, and the request's `filled`.
 */
module PhpStrings {
  /** Characters PHP's `trim` strips by default. */
  predicate IsTrimmed(c: char) {
    c in {' ', '\t', '\n', '\r', '\0', '\U{B}'}
  }

  /** `trim(s) !== ''`: `s` holds a character outside the trim set. */
  predicate NotBlank(s: string)
    ensures NotBlank(s) ==> s != []
    ensures s != [] && !IsTrimmed(s[0]) ==> NotBlank(s)
  {
    exists i | 0 <= i < |s| :: !IsTrimmed(s[i])
  }
}
