/**
 * Character classes shared by the patterns of hw.js.
 *
 * The patterns are compiled without the `u` and `i` flags, so a bracket
 * class such as `[a-zA-Z]` matches exactly the ASCII characters listed, and
 * an unbracketed `.` matches any single UTF-16 code unit except a line
 * terminator (section 22.2.2.9 of ECMA-262).
 */
module Chars {

  predicate IsDigit(c: char) { '0' <= c <= '9' }

  predicate IsUpper(c: char) { 'A' <= c <= 'Z' }

  predicate IsLower(c: char) { 'a' <= c <= 'z' }

  /** `[a-zA-Z]` */
  predicate IsLetter(c: char) { IsUpper(c) || IsLower(c) }

  /** `[a-zA-Z0-9]` */
  predicate IsAlnum(c: char) { IsLetter(c) || IsDigit(c) }

  /** The line terminators of ECMA-262 section 12.3: LF, CR, LS and PS. */
  predicate IsLineTerminator(c: char) {
    c == '\n' || c == '\r' || c == '\U{2028}' || c == '\U{2029}'
  }

  /**
   * An unbracketed `.`. A `char` here is a Unicode scalar value, while the
   * pattern sees UTF-16 code units; a character outside the Basic
   * Multilingual Plane is two code units, and no pattern of hw.js has two
   * adjacent `.` positions, so such a character never matches a `.`.
   */
  predicate IsWildcard(c: char) { !IsLineTerminator(c) && (c as int) < 0x1_0000 }
}
