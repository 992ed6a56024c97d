/** String helpers the handlers rely on: JavaScript's `String.prototype.trim`. */
module Text {

  /** The characters `trim` removes: ECMAScript's WhiteSpace and LineTerminator code points. */
  predicate IsWhiteSpace(c: char) {
    || c == '\t' || c == '\n' || c == '\U{000B}' || c == '\U{000C}' || c == '\r' || c == ' '
    || c == '\U{00A0}' || c == '\U{1680}' || ('\U{2000}' <= c <= '\U{200A}')
    || c == '\U{2028}' || c == '\U{2029}' || c == '\U{202F}' || c == '\U{205F}'
    || c == '\U{3000}' || c == '\U{FEFF}'
  }

  /** The number of whitespace characters at the front of `s`. */
  function LeadingSpace(s: string): (n: nat)
    ensures n <= |s|
    ensures forall k :: 0 <= k < n ==> IsWhiteSpace(s[k])
    ensures n < |s| ==> !IsWhiteSpace(s[n])
  {
    if s == [] || !IsWhiteSpace(s[0]) then 0 else 1 + LeadingSpace(s[1..])
  }

  /** The number of whitespace characters at the back of `s`. */
  function TrailingSpace(s: string): (n: nat)
    ensures n <= |s|
    ensures forall k :: |s| - n <= k < |s| ==> IsWhiteSpace(s[k])
    ensures n < |s| ==> !IsWhiteSpace(s[|s| - 1 - n])
  {
    if s == [] || !IsWhiteSpace(s[|s| - 1]) then 0 else 1 + TrailingSpace(s[..|s| - 1])
  }

  /** `s.trim()`: `s` without its leading and trailing whitespace. */
  function Trim(s: string): (r: string)
    // r is the slice of s that starts after the leading whitespace ...
    ensures LeadingSpace(s) + |r| <= |s| && r == s[LeadingSpace(s)..LeadingSpace(s) + |r|]
    // ... and everything after it is whitespace too
    ensures forall k :: LeadingSpace(s) + |r| <= k < |s| ==> IsWhiteSpace(s[k])
    // nothing more could be removed
    ensures r != [] ==> !IsWhiteSpace(r[0]) && !IsWhiteSpace(r[|r| - 1])
    // the result is empty exactly when s is all whitespace
    ensures r == [] <==> forall k :: 0 <= k < |s| ==> IsWhiteSpace(s[k])
  {
    var rest := s[LeadingSpace(s)..];
    rest[..|rest| - TrailingSpace(rest)]
  }

  /** Whitespace put in front of `s` adds exactly its own length to the leading whitespace. */
  lemma {:induction false} LeadingSpaceAfterPad(pad: string, s: string)
    requires forall k :: 0 <= k < |pad| ==> IsWhiteSpace(pad[k])
    ensures LeadingSpace(pad + s) == |pad| + LeadingSpace(s)
  {
    if pad != [] {
      assert (pad + s)[1..] == pad[1..] + s;
      LeadingSpaceAfterPad(pad[1..], s);
    } else {
      assert pad + s == s;
    }
  }

  /** Trimming a trimmed string after putting whitespace in front of it gives the string back. */
  lemma TrimAfterPad(pad: string, s: string)
    requires forall k :: 0 <= k < |pad| ==> IsWhiteSpace(pad[k])
    requires Trim(s) == s
    ensures Trim(pad + s) == s
  {
    LeadingSpaceAfterPad(pad, s);
    assert LeadingSpace(s) == 0;
    assert (pad + s)[|pad|..] == s;
    assert s[LeadingSpace(s)..] == s;
  }
}
