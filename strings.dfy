/** The two pieces of Go's `strings` package that the crawler's link
    normalisation relies on: `strings.Split(s, sep)[0]` for a one-character
    separator, and `strings.TrimSpace` with the white space of
    `unicode.IsSpace`. Strings are sequences of code points. */
module Strings {

  /** The part of `s` before its first `c`, which is what
      `strings.Split(s, string(c))[0]` yields; `s` itself when `c` does not
      occur. */
  function BeforeFirst(s: string, c: char): (r: string)
    ensures r <= s
    ensures c !in r
    ensures |r| < |s| ==> s[|r|] == c
  {
    if s == [] then []
    else if s[0] == c then []
    else [s[0]] + BeforeFirst(s[1..], c)
  }

  /** The three facts of `BeforeFirst`'s contract pin the result down: any
      prefix without `c` that stops at the end or at a `c` is that result. */
  lemma BeforeFirstUnique(s: string, c: char, p: string)
    requires p <= s && c !in p
    requires |p| == |s| || s[|p|] == c
    ensures p == BeforeFirst(s, c)
  {
  }

  /** Cutting a second time changes nothing. */
  lemma BeforeFirstIdempotent(s: string, c: char)
    ensures BeforeFirst(BeforeFirst(s, c), c) == BeforeFirst(s, c)
  {
  }

  /** Go's `unicode.IsSpace`: tab, line feed, vertical tab, form feed,
      carriage return, space, U+0085 and U+00A0 in Latin-1, and above it the
      other code points with Unicode's White_Space property. */
  predicate IsSpace(c: char) {
    c == '\t' || c == '\n' || c == '\U{000B}' || c == '\U{000C}' || c == '\r'
    || c == ' ' || c == '\U{0085}' || c == '\U{00A0}'
    || c == '\U{1680}' || ('\U{2000}' <= c <= '\U{200A}')
    || c == '\U{2028}' || c == '\U{2029}' || c == '\U{202F}'
    || c == '\U{205F}' || c == '\U{3000}'
  }

  /** The number of white-space characters at the start of `s`. */
  function LeadingSpace(s: string): (n: nat)
    ensures n <= |s|
    ensures forall k :: 0 <= k < n ==> IsSpace(s[k])
    ensures n < |s| ==> !IsSpace(s[n])
  {
    if s == [] || !IsSpace(s[0]) then 0 else 1 + LeadingSpace(s[1..])
  }

  /** The number of white-space characters at the end of `s`. */
  function TrailingSpace(s: string): (n: nat)
    ensures n <= |s|
    ensures forall k :: |s| - n <= k < |s| ==> IsSpace(s[k])
    ensures n < |s| ==> !IsSpace(s[|s| - n - 1])
  {
    if s == [] || !IsSpace(s[|s| - 1]) then 0 else 1 + TrailingSpace(s[..|s| - 1])
  }

  /** `strings.TrimSpace`: `s` without its leading and trailing white space.
      The result is the slice of `s` that starts after the leading white
      space, everything around it is white space, and it neither starts nor
      ends with white space. */
  function TrimSpace(s: string): (r: string)
    ensures LeadingSpace(s) + |r| <= |s|
    ensures r == s[LeadingSpace(s)..LeadingSpace(s) + |r|]
    ensures forall k :: 0 <= k < LeadingSpace(s) ==> IsSpace(s[k])
    ensures forall k :: LeadingSpace(s) + |r| <= k < |s| ==> IsSpace(s[k])
    ensures r == [] || (!IsSpace(r[0]) && !IsSpace(r[|r| - 1]))
  {
    var t := s[LeadingSpace(s)..];
    t[..|t| - TrailingSpace(t)]
  }

  /** Trimming an already trimmed text changes nothing. */
  lemma TrimSpaceIdempotent(s: string)
    ensures TrimSpace(TrimSpace(s)) == TrimSpace(s)
  {
  }
}
