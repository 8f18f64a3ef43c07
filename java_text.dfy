/** The character classes of java.util.regex used by the field-query patterns,
    and Spring's StringUtils.hasText. Java strings are modelled as `string`
    (a sequence of Unicode scalar values); every class below only looks at
    single characters, so the UTF-16 encoding of Java makes no difference. */
module JavaText {

  /** A line terminator, i.e. a character that `.` does not match when neither
      DOTALL nor UNIX_LINES is set: \n, \r, U+0085, U+2028 and U+2029. */
  predicate IsLineTerminator(c: char) {
    c == '\n' || c == '\r' || c == '\U{85}' || c == '\U{2028}' || c == '\U{2029}'
  }

  /** `.*` at the end of a whole-string match: no line terminator in s[from..]. */
  predicate NoLineTerminatorFrom(s: string, from: nat) {
    forall k :: from <= k < |s| ==> !IsLineTerminator(s[k])
  }

  /** The predefined class `\s` without UNICODE_CHARACTER_CLASS: [ \t\n\x0B\f\r]. */
  predicate IsRegexSpace(c: char) {
    c == ' ' || c == '\t' || c == '\n' || c == '\U{B}' || c == '\U{C}' || c == '\r'
  }

  /** The predefined class `\w` without UNICODE_CHARACTER_CLASS: [a-zA-Z_0-9]. */
  predicate IsWordChar(c: char) {
    ('a' <= c <= 'z') || ('A' <= c <= 'Z') || ('0' <= c <= '9') || c == '_'
  }

  /** Upper case as `(?i)` sees it without UNICODE_CASE: only the 26 ASCII
      letters fold, so e.g. U+017F (long s) does not match `S`. */
  function AsciiUpper(c: char): char {
    if 'a' <= c <= 'z' then (c as int - 32) as char else c
  }

  /** java.lang.Character.isWhitespace for a character: the Unicode space,
      line and paragraph separators except the non-breaking ones (U+00A0,
      U+2007, U+202F), plus \t, \n, U+000B, \f, \r and U+001C..U+001F. */
  predicate IsJavaWhitespace(c: char) {
    || c == ' ' || c == '\U{1680}'
    || ('\U{2000}' <= c <= '\U{200A}' && c != '\U{2007}')
    || c == '\U{2028}' || c == '\U{2029}' || c == '\U{205F}' || c == '\U{3000}'
    || ('\U{9}' <= c <= '\U{D}') || ('\U{1C}' <= c <= '\U{1F}')
  }

  /** Spring's StringUtils.hasText: non-empty and holding a character that is
      not whitespace. (A Java annotation element is never null.) */
  predicate HasText(s: string) {
    exists k :: 0 <= k < |s| && !IsJavaWhitespace(s[k])
  }
}
