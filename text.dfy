/**
 * Whitespace and `String.prototype.trim` as the form's validators use them.
 *
 * JavaScript's `trim` and the regular-expression class `\s` share one
 * character set: the WhiteSpace and LineTerminator code points of
 * ECMAScript. `IsWhitespace` is that set, written out once, and `\S` in the
 * regular-expression model is its complement.
 */
module Text {

  /**
   * The ECMAScript WhiteSpace and LineTerminator code points. U+0009 to
   * U+000D are tab, line feed, vertical tab, form feed and carriage return.
   */
  predicate IsWhitespace(c: char) {
    c == ' ' || ('\t' <= c <= '\r') || c == '\U{00A0}' || c == '\U{1680}'
    || ('\U{2000}' <= c <= '\U{200A}') || c == '\U{2028}' || c == '\U{2029}'
    || c == '\U{202F}' || c == '\U{205F}' || c == '\U{3000}' || c == '\U{FEFF}'
  }

  predicate AllWhitespace(s: string) {
    forall i | 0 <= i < |s| :: IsWhitespace(s[i])
  }

  predicate NoWhitespace(s: string) {
    forall i | 0 <= i < |s| :: !IsWhitespace(s[i])
  }

  /** The length of the run of whitespace that starts `s`. */
  function LeadingWhitespace(s: string): (n: nat)
    ensures n <= |s|
    ensures forall i | 0 <= i < n :: IsWhitespace(s[i])
    ensures n < |s| ==> !IsWhitespace(s[n])
  {
    if s != [] && IsWhitespace(s[0]) then 1 + LeadingWhitespace(s[1..]) else 0
  }

  /** Where the run of whitespace that ends `s` begins. */
  function TrailingWhitespace(s: string): (n: nat)
    ensures n <= |s|
    ensures forall i | n <= i < |s| :: IsWhitespace(s[i])
    ensures 0 < n ==> !IsWhitespace(s[n - 1])
  {
    if s != [] && IsWhitespace(s[|s| - 1]) then TrailingWhitespace(s[..|s| - 1]) else |s|
  }

  /**
   * `s.trim()`: leading and trailing whitespace removed. What the
   * validators test, `s.trim() === ''`, holds exactly when every character
   * of `s` is whitespace.
   */
  function Trim(s: string): (r: string)
    ensures r == [] <==> AllWhitespace(s)
    ensures r != [] ==> !IsWhitespace(r[0]) && !IsWhitespace(r[|r| - 1])
    ensures exists a, b | 0 <= a <= b <= |s| ::
              r == s[a..b] && AllWhitespace(s[..a]) && AllWhitespace(s[b..])
  {
    var a := LeadingWhitespace(s);
    if a == |s| then
      assert s[a..a] == [] && s[..a] == s && s[a..] == [];
      []
    else
      var b := TrailingWhitespace(s);
      assert a < b;
      assert forall i | 0 <= i < |s[b..]| :: s[b..][i] == s[b + i];
      s[a..b]
  }
}
