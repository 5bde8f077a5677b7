/** The string operations the inventory relies on: Java's `String.isBlank` and
    `String.equalsIgnoreCase`. */
module Text {

  /** `Character.isWhitespace`: the ASCII controls TAB, LF, VT, FF, CR, FS, GS, RS, US,
      and the Unicode space, line and paragraph separators except the non-breaking ones
      (U+00A0, U+2007, U+202F). */
  predicate IsWhitespace(c: char): (r: bool)
    ensures c == ' ' || ('\U{0009}' <= c <= '\U{000D}') || ('\U{001C}' <= c <= '\U{001F}') ==> r
    ensures c == '\U{00A0}' || c == '\U{2007}' || c == '\U{202F}' ==> !r
    ensures ('a' <= c <= 'z') || ('A' <= c <= 'Z') || ('0' <= c <= '9') ==> !r
    ensures c as int < 0x1C && !('\U{0009}' <= c <= '\U{000D}') ==> !r
  {
    || c == ' '
    || ('\U{0009}' <= c <= '\U{000D}')
    || ('\U{001C}' <= c <= '\U{001F}')
    || c == '\U{1680}'
    || ('\U{2000}' <= c <= '\U{2006}')
    || ('\U{2008}' <= c <= '\U{200A}')
    || c == '\U{2028}' || c == '\U{2029}' || c == '\U{205F}' || c == '\U{3000}'
  }

  /** `String.isBlank`: empty, or whitespace only. */
  predicate IsBlank(s: string): (r: bool)
    ensures s == [] ==> r
    ensures !r <==> exists i :: 0 <= i < |s| && !IsWhitespace(s[i])
  {
    forall i :: 0 <= i < |s| ==> IsWhitespace(s[i])
  }

  /** ASCII case folding of one character: upper-case letters map to lower case. */
  function FoldChar(c: char): (d: char)
    ensures 'A' <= c <= 'Z' ==> 'a' <= d <= 'z' && d as int - c as int == 32
    ensures !('A' <= c <= 'Z') ==> d == c
  {
    if 'A' <= c <= 'Z' then (c as int + 32) as char else c
  }

  function Fold(s: string): (r: string)
    ensures |r| == |s|
    ensures forall i :: 0 <= i < |s| ==> r[i] == FoldChar(s[i])
  {
    seq(|s|, i requires 0 <= i < |s| => FoldChar(s[i]))
  }

  /** `a.equalsIgnoreCase(b)`: equal after case folding, so matching strings have the
      same length. */
  predicate EqualsIgnoreCase(a: string, b: string): (r: bool)
    ensures r ==> |a| == |b|
  {
    Fold(a) == Fold(b)
  }

  /** Case-insensitive equality is an equivalence, so "the entry matching a name"
      is a well-defined notion of identity. */
  lemma EqualsIgnoreCaseEquivalence(a: string, b: string, c: string)
    ensures EqualsIgnoreCase(a, a)
    ensures EqualsIgnoreCase(a, b) ==> EqualsIgnoreCase(b, a)
    ensures EqualsIgnoreCase(a, b) && EqualsIgnoreCase(b, c) ==> EqualsIgnoreCase(a, c)
  {
  }

  /** Two strings match ignoring case exactly when they have the same length and agree
      character by character after folding, which is how Java compares them. */
  lemma {:induction false} EqualsIgnoreCaseCharwise(a: string, b: string)
    ensures EqualsIgnoreCase(a, b) <==>
      |a| == |b| && forall i :: 0 <= i < |a| ==> FoldChar(a[i]) == FoldChar(b[i])
  {
    if |a| == |b| && forall i :: 0 <= i < |a| ==> FoldChar(a[i]) == FoldChar(b[i]) {
      assert forall i :: 0 <= i < |a| ==> Fold(a)[i] == Fold(b)[i];
    }
  }
}
