/** ASCII letters and equality up to their case. */
module AsciiCase {

  predicate IsLower(c: char) { 'a' <= c <= 'z' }

  predicate IsUpper(c: char) { 'A' <= c <= 'Z' }

  /** The same character, or the same letter in the other case. */
  predicate SameLetter(a: char, b: char) {
    || a == b
    || (IsLower(a) && IsUpper(b) && a as int == b as int + 32)
    || (IsUpper(a) && IsLower(b) && b as int == a as int + 32)
  }

  predicate SameUpToCase(a: seq<char>, b: seq<char>) {
    |a| == |b| && forall i :: 0 <= i < |a| ==> SameLetter(a[i], b[i])
  }
}
