/** The character-level string tests the user service relies on, restricted
    to the ASCII range. */
module Text {

  /** `Character.isWhitespace` on ASCII: space, the controls from tab to
      carriage return, and the four separator controls 0x1C-0x1F. */
  predicate IsWhitespace(c: char) {
    c == ' ' || ('\t' <= c <= '\r') || (28 <= c as int <= 31)
  }

  /** `String.isBlank`: empty, or whitespace only. */
  predicate IsBlank(s: string) {
    forall i :: 0 <= i < |s| ==> IsWhitespace(s[i])
  }

  /** The character class `[a-zA-Z]`. */
  predicate IsAsciiLetter(c: char) {
    'a' <= c <= 'z' || 'A' <= c <= 'Z'
  }

  /** `s.matches("^[a-zA-Z]*$")`, written the way the pattern consumes its
      input: one letter at a time until the whole string is used up. */
  function MatchesLetters(s: string): (r: bool)
    ensures r <==> forall i :: 0 <= i < |s| ==> IsAsciiLetter(s[i])
  {
    if s == [] then true
    else IsAsciiLetter(s[0]) && MatchesLetters(s[1..])
  }
}
