/**
 * Character classes used by the regular expressions and by String.prototype.trim
 * in the three client forms (login, signup, add-employee).
 *
 * JavaScript's `\s` and the set of code points `trim()` removes are the same set:
 * the ECMAScript WhiteSpace code points together with the LineTerminator code points.
 * `.` (without the `s` flag) matches every code point except a LineTerminator.
 * `\d`, `[a-z]` and `[A-Z]` (without the `u`/`i` flags) are ASCII only.
 */
module Chars {

  /** ECMAScript LineTerminator: LF, CR, LINE SEPARATOR, PARAGRAPH SEPARATOR. */
  predicate IsLineTerminator(c: char) {
    c == '\n' || c == '\r' || c == '\U{2028}' || c == '\U{2029}'
  }

  /** ECMAScript WhiteSpace or LineTerminator: what `\s` matches and `trim()` strips. */
  predicate IsWs(c: char) {
    || IsLineTerminator(c)
    || c == '\t' || c == '\U{000B}' || c == '\U{000C}' || c == ' '
    || c == '\U{00A0}' || c == '\U{FEFF}'
    || c == '\U{1680}' || ('\U{2000}' <= c <= '\U{200A}')
    || c == '\U{202F}' || c == '\U{205F}' || c == '\U{3000}'
  }

  predicate IsLower(c: char) { 'a' <= c <= 'z' }

  predicate IsUpper(c: char) { 'A' <= c <= 'Z' }

  predicate IsDigit(c: char) { '0' <= c <= '9' }

  /** The literal special characters of the class `[@$!%*?&]`. */
  predicate IsSpecial(c: char) {
    c == '@' || c == '$' || c == '!' || c == '%' || c == '*' || c == '?' || c == '&'
  }

  /** The class `[^\s@]` of the email pattern. */
  predicate EmailChar(c: char) { !IsWs(c) && c != '@' }

  /** `/[a-z]/.test(s)`: some character of `s` is a lowercase ASCII letter. */
  predicate HasLower(s: string) { exists i | 0 <= i < |s| :: IsLower(s[i]) }

  /** `/[A-Z]/.test(s)` */
  predicate HasUpper(s: string) { exists i | 0 <= i < |s| :: IsUpper(s[i]) }

  /** `/\d/.test(s)` */
  predicate HasDigit(s: string) { exists i | 0 <= i < |s| :: IsDigit(s[i]) }

  /** `/[@$!%*?&]/.test(s)` */
  predicate HasSpecial(s: string) { exists i | 0 <= i < |s| :: IsSpecial(s[i]) }

  predicate AllWs(s: string) { forall i | 0 <= i < |s| :: IsWs(s[i]) }

  predicate AllEmailChars(s: string) { forall i | 0 <= i < |s| :: EmailChar(s[i]) }

}
