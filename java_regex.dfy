/** What the widgets use of `java.util.regex`: a compiled pattern asked
    whether it matches a whole input (`Pattern.compile(regex).matcher(text).matches()`),
    and the two metacharacters the password pattern depends on, `.` and `$`,
    with their default (no DOTALL, no MULTILINE, no UNIX_LINES) meaning. */
module JavaRegex {

  /** A compiled pattern: its source text and the set of inputs it matches
      as a whole. The regex engine itself is not part of this model, so for
      an arbitrary strategy the match is left uninterpreted; a pattern whose
      meaning is written out supplies its own predicate. */
  datatype Pattern = Pattern(source: string, wholeMatch: string -> bool)

  /** `matcher(text).matches()`: the pattern matches all of `text`. */
  predicate Matches(p: Pattern, text: string) {
    p.wholeMatch(text)
  }

  /** The line terminators `.` refuses and `$` may stand before:
      `\n`, `\r`, NEXT LINE, LINE SEPARATOR and PARAGRAPH SEPARATOR. */
  predicate IsLineTerminator(c: char) {
    c == '\n' || c == '\r' || c == '\U{85}' || c == '\U{2028}' || c == '\U{2029}'
  }

  /** `.`: any character but a line terminator. */
  predicate IsDot(c: char) {
    !IsLineTerminator(c)
  }

  /** `.*` over all of `s`. */
  predicate AllDots(s: string) {
    forall i :: 0 <= i < |s| ==> IsDot(s[i])
  }

  /** `$` at position `i` of `s`: at the end of the input, or before a line
      terminator that ends the input (but not between `\r` and `\n`), or
      before a final `\r\n`. */
  predicate DollarAt(s: string, i: int) {
    || i == |s|
    || (0 <= i && i == |s| - 1 && IsLineTerminator(s[i]) && !(s[i] == '\n' && i > 0 && s[i - 1] == '\r'))
    || (0 <= i && i == |s| - 2 && s[i] == '\r' && s[i + 1] == '\n')
  }
}
