/** The password pattern both demo strategies install,
    `^(?=^.{8,}$)((?=.*[A-Za-z0-9])(?=.*[^A-Za-z0-9])(?=.*[A-Z]))^.*$`,
    transcribed piece by piece as `java.util.regex` reads it under
    `matches()`, and the plain description of what it accepts. */
module PasswordRegex {
  import opened JavaRegex
  import KotlinStd

  const Source: string := "^(?=^.{8,}$)((?=.*[A-Za-z0-9])(?=.*[^A-Za-z0-9])(?=.*[A-Z]))^.*$"

  /** `[A-Z]` */
  predicate IsUpper(c: char) {
    'A' <= c <= 'Z'
  }

  /** `[A-Za-z0-9]` */
  predicate IsAlnum(c: char) {
    'A' <= c <= 'Z' || 'a' <= c <= 'z' || '0' <= c <= '9'
  }

  /** `(?=^.{8,}$)`: from the start, eight or more non-terminators and then `$`. */
  predicate LengthLookahead(s: string) {
    exists k :: 8 <= k <= |s| && AllDots(s[..k]) && DollarAt(s, k)
  }

  /** `(?=.*[A-Za-z0-9])` at the start. */
  predicate AlnumLookahead(s: string) {
    exists i :: 0 <= i < |s| && AllDots(s[..i]) && IsAlnum(s[i])
  }

  /** `(?=.*[^A-Za-z0-9])` at the start; the negated class also accepts line terminators. */
  predicate NonAlnumLookahead(s: string) {
    exists i :: 0 <= i < |s| && AllDots(s[..i]) && !IsAlnum(s[i])
  }

  /** `(?=.*[A-Z])` at the start. */
  predicate UpperLookahead(s: string) {
    exists i :: 0 <= i < |s| && AllDots(s[..i]) && IsUpper(s[i])
  }

  /** The whole pattern under `matches()`: the lookaheads all succeed at
      position 0, and `^.*$` must then consume the entire input, which `.`
      only can when no character is a line terminator. */
  predicate RegexMatches(s: string) {
    && LengthLookahead(s)
    && AlnumLookahead(s)
    && NonAlnumLookahead(s)
    && UpperLookahead(s)
    && AllDots(s)
  }

  /** The pattern as a compiled `Pattern` value. */
  const PasswordPattern: Pattern := Pattern(Source, RegexMatches)

  /** What the pattern accepts, said plainly. */
  predicate Acceptable(s: string) {
    && |s| >= 8
    && (forall i :: 0 <= i < |s| ==> !IsLineTerminator(s[i]))
    && (exists i :: 0 <= i < |s| && IsUpper(s[i]))
    && (exists i :: 0 <= i < |s| && IsAlnum(s[i]))
    && (exists i :: 0 <= i < |s| && !IsAlnum(s[i]))
  }

  /** A prefix of a string of non-terminators has no terminator either. */
  lemma AllDotsPrefix(s: string, k: nat)
    requires AllDots(s) && k <= |s|
    ensures AllDots(s[..k])
  {
    forall i | 0 <= i < k ensures IsDot(s[..k][i]) {
      assert s[..k][i] == s[i];
    }
  }

  /** The transcription of the pattern accepts exactly the strings described by `Acceptable`. */
  lemma {:induction false} RegexMatchesCharacterization(s: string)
    ensures RegexMatches(s) <==> Acceptable(s)
  {
    if RegexMatches(s) {
      var k :| 8 <= k <= |s| && AllDots(s[..k]) && DollarAt(s, k);
      var u :| 0 <= u < |s| && AllDots(s[..u]) && IsUpper(s[u]);
      var a :| 0 <= a < |s| && AllDots(s[..a]) && IsAlnum(s[a]);
      var n :| 0 <= n < |s| && AllDots(s[..n]) && !IsAlnum(s[n]);
      assert forall i :: 0 <= i < |s| ==> !IsLineTerminator(s[i]);
    }
    if Acceptable(s) {
      assert AllDots(s);
      assert s[..|s|] == s;
      assert LengthLookahead(s);
      var u :| 0 <= u < |s| && IsUpper(s[u]);
      var a :| 0 <= a < |s| && IsAlnum(s[a]);
      var n :| 0 <= n < |s| && !IsAlnum(s[n]);
      AllDotsPrefix(s, u);
      AllDotsPrefix(s, a);
      AllDotsPrefix(s, n);
    }
  }

  /** Every accepted password has at least eight characters, an upper-case
      letter, a character outside `[A-Za-z0-9]` and no line terminator. */
  lemma AcceptedPasswordShape(s: string)
    requires RegexMatches(s)
    ensures |s| >= 8
    ensures exists i :: 0 <= i < |s| && IsUpper(s[i])
    ensures exists i :: 0 <= i < |s| && !IsAlnum(s[i])
    ensures forall i :: 0 <= i < |s| ==> !IsLineTerminator(s[i])
  {
    RegexMatchesCharacterization(s);
  }

  /** Despite the comment above both strategies, neither a lower-case
      letter nor a digit is required: `ABCDEFG!` is accepted. */
  lemma NoLowercaseOrDigitRequired()
    ensures RegexMatches("ABCDEFG!")
    ensures forall i :: 0 <= i < |"ABCDEFG!"| ==> !('a' <= "ABCDEFG!"[i] <= 'z') && !('0' <= "ABCDEFG!"[i] <= '9')
  {
    var s := "ABCDEFG!";
    assert IsUpper(s[0]) && IsAlnum(s[0]) && !IsAlnum(s[7]);
    RegexMatchesCharacterization(s);
  }

  /** The length lookahead's `$` also matches before a final line
      terminator, but the trailing `^.*$` still refuses that input. */
  lemma TrailingNewlineRejected()
    ensures LengthLookahead("ABCDEFG!\n")
    ensures !RegexMatches("ABCDEFG!\n")
  {
    var s := "ABCDEFG!\n";
    assert DollarAt(s, 8);
    assert AllDots(s[..8]);
    assert !IsDot(s[8]);
  }

  /** An upper-case letter is never whitespace, so an accepted password is never blank. */
  lemma AcceptedIsNotBlank(s: string)
    requires RegexMatches(s)
    ensures !KotlinStd.IsBlank(s)
  {
    RegexMatchesCharacterization(s);
    var u :| 0 <= u < |s| && IsUpper(s[u]);
    assert !KotlinStd.IsWhitespace(s[u]);
  }
}
