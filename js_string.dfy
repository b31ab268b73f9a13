/** The two JavaScript string operations the login form relies on:
    `String.prototype.trim` and the `length` property.  Dafny's `char` is a
    Unicode scalar value, while a JavaScript string is a sequence of UTF-16
    code units, so `length` is modelled by counting the code units each
    scalar value takes. */
module JsString {

  /** The characters `trim` removes: ECMAScript's WhiteSpace (TAB, VT, FF,
      SPACE, NO-BREAK SPACE, ZERO WIDTH NO-BREAK SPACE and every other
      character of category Zs) and LineTerminator (LF, CR, LINE SEPARATOR,
      PARAGRAPH SEPARATOR).  All of them lie in the Basic Multilingual Plane,
      and no printable ASCII character is among them. */
  predicate IsWhitespace(c: char)
    ensures IsWhitespace(c) ==> CodeUnits(c) == 1
    ensures 0x21 <= c as int <= 0x7E ==> !IsWhitespace(c)
    ensures c == ' ' || c == '\t' || c == '\n' || c == '\r' ==> IsWhitespace(c)
  {
    var n := c as int;
    || 0x09 <= n <= 0x0D          // TAB, LF, VT, FF, CR
    || n == 0x20 || n == 0xA0
    || n == 0x1680
    || 0x2000 <= n <= 0x200A
    || n == 0x2028 || n == 0x2029
    || n == 0x202F || n == 0x205F
    || n == 0x3000 || n == 0xFEFF
  }

  /** The reference meaning of "empty after trimming". */
  predicate AllWhitespace(s: string) {
    forall i :: 0 <= i < |s| ==> IsWhitespace(s[i])
  }

  /** The number of whitespace characters `s` starts with. */
  function LeadingBlanks(s: string): (k: nat)
    ensures k <= |s|
    ensures forall i :: 0 <= i < k ==> IsWhitespace(s[i])
    ensures k < |s| ==> !IsWhitespace(s[k])
    decreases |s|
  {
    if |s| > 0 && IsWhitespace(s[0]) then 1 + LeadingBlanks(s[1..]) else 0
  }

  /** The number of whitespace characters `s` ends with. */
  function TrailingBlanks(s: string): (k: nat)
    ensures k <= |s|
    ensures forall i :: |s| - k <= i < |s| ==> IsWhitespace(s[i])
    ensures k < |s| ==> !IsWhitespace(s[|s| - 1 - k])
    decreases |s|
  {
    if |s| > 0 && IsWhitespace(s[|s| - 1]) then 1 + TrailingBlanks(s[..|s| - 1]) else 0
  }

  /** `s.trim()`: `s` with its leading and its trailing whitespace removed;
      empty exactly when `s` is all whitespace. */
  function Trim(s: string): (r: string)
    ensures r == [] <==> AllWhitespace(s)
  {
    var front := LeadingBlanks(s);
    if front == |s| then []
    else
      s[front..|s| - TrailingBlanks(s)]
  }

  /** What is left after trimming is an infix of `s` that neither starts nor
      ends with whitespace, and everything trimmed away is whitespace. */
  lemma TrimShape(s: string)
    ensures var r, k := Trim(s), LeadingBlanks(s);
      && k + |r| <= |s| && r == s[k..k + |r|]
      && (forall i :: 0 <= i < k ==> IsWhitespace(s[i]))
      && (forall i :: k + |r| <= i < |s| ==> IsWhitespace(s[i]))
      && (r == [] || (!IsWhitespace(r[0]) && !IsWhitespace(r[|r| - 1])))
  {
    var r, k := Trim(s), LeadingBlanks(s);
    if k < |s| {
      var back := TrailingBlanks(s);
      assert r == s[k..|s| - back];
    }
  }

  /** Number of UTF-16 code units of `c`: two for a scalar value outside the
      Basic Multilingual Plane (a surrogate pair), one otherwise. */
  function CodeUnits(c: char): (n: nat)
    ensures n == 1 || n == 2
    ensures n == 2 <==> c as int > 0xFFFF
  {
    if c as int > 0xFFFF then 2 else 1
  }

  /** True when every character of `s` is in the Basic Multilingual Plane. */
  predicate IsBmp(s: string) {
    forall i :: 0 <= i < |s| ==> s[i] as int <= 0xFFFF
  }

  /** JavaScript's `s.length`: the number of UTF-16 code units of `s`. */
  function Utf16Length(s: string): (n: nat)
    ensures |s| <= n <= 2 * |s|
    decreases |s|
  {
    if s == [] then 0 else CodeUnits(s[0]) + Utf16Length(s[1..])
  }

  /** The code-unit length equals the character count exactly when no
      character needs a surrogate pair. */
  lemma {:induction false} Utf16LengthOfBmp(s: string)
    ensures Utf16Length(s) == |s| <==> IsBmp(s)
    decreases |s|
  {
    if s != [] {
      Utf16LengthOfBmp(s[1..]);
      assert IsBmp(s) <==> s[0] as int <= 0xFFFF && IsBmp(s[1..]) by {
        assert forall i :: 1 <= i < |s| ==> s[i] == s[1..][i - 1];
      }
    }
  }
}
