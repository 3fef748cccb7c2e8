/**
  String normalisation that the Mongoose schemas apply to stored fields:
  `trim: true` (JavaScript's String.prototype.trim) and `lowercase: true`
  (String.prototype.toLowerCase, modelled on ASCII letters), plus the
  case-insensitive substring test used for free-text search.
 */
module Text {

  /** White space and line terminators removed by String.prototype.trim. */
  const Spaces: set<char> := {
    ' ', '\t', '\n', '\r', '\U{000B}', '\U{000C}', '\U{00A0}', '\U{1680}',
    '\U{2000}', '\U{2001}', '\U{2002}', '\U{2003}', '\U{2004}', '\U{2005}',
    '\U{2006}', '\U{2007}', '\U{2008}', '\U{2009}', '\U{200A}',
    '\U{2028}', '\U{2029}', '\U{202F}', '\U{205F}', '\U{3000}', '\U{FEFF}'
  }

  predicate IsSpace(c: char) {
    c in Spaces
  }

  /** A string with no white space at either end. */
  predicate IsTrimmed(s: string) {
    s == [] || (!IsSpace(s[0]) && !IsSpace(s[|s| - 1]))
  }

  /** The number of white-space characters `s` starts with. */
  function LeadingSpace(s: string): (n: nat)
    ensures n <= |s|
    ensures forall i :: 0 <= i < n ==> IsSpace(s[i])
    ensures n < |s| ==> !IsSpace(s[n])
  {
    if s != [] && IsSpace(s[0]) then 1 + LeadingSpace(s[1..]) else 0
  }

  /** The number of white-space characters `s` ends with. */
  function TrailingSpace(s: string): (n: nat)
    ensures n <= |s|
    ensures forall i :: |s| - n <= i < |s| ==> IsSpace(s[i])
    ensures n < |s| ==> !IsSpace(s[|s| - n - 1])
  {
    if s != [] && IsSpace(s[|s| - 1]) then 1 + TrailingSpace(s[..|s| - 1]) else 0
  }

  /** `s` is `r` at offset `k` with nothing but white space before and after it. */
  predicate Padded(s: string, k: nat, r: string) {
    && k + |r| <= |s|
    && (forall i :: 0 <= i < |r| ==> r[i] == s[k + i])
    && (forall i :: 0 <= i < k ==> IsSpace(s[i]))
    && (forall i :: k + |r| <= i < |s| ==> IsSpace(s[i]))
  }

  /** String.prototype.trim: `s` is `r` with white space on either side. */
  function Trim(s: string): (r: string)
    ensures IsTrimmed(r)
    ensures exists k :: Padded(s, k, r)
    ensures IsTrimmed(s) ==> r == s
  {
    var k := LeadingSpace(s);
    var j := k + (|s| - k - TrailingSpace(s[k..]));
    assert Padded(s, k, s[k..j]);
    s[k..j]
  }

  predicate IsUpper(c: char) {
    'A' <= c <= 'Z'
  }

  function LowerChar(c: char): (d: char)
    ensures !IsUpper(d)
    ensures IsSpace(d) <==> IsSpace(c)
    ensures !IsUpper(c) ==> d == c
  {
    if IsUpper(c) then (c as int + 32) as char else c
  }

  /** A string without upper-case letters. */
  predicate IsLower(s: string) {
    forall i :: 0 <= i < |s| ==> !IsUpper(s[i])
  }

  /** String.prototype.toLowerCase on ASCII letters. */
  function Lower(s: string): (r: string)
    ensures |r| == |s|
    ensures forall i :: 0 <= i < |s| ==> r[i] == LowerChar(s[i])
    ensures IsLower(r)
    ensures IsLower(s) ==> r == s
  {
    if s == [] then [] else [LowerChar(s[0])] + Lower(s[1..])
  }

  /** Lower-casing keeps a trimmed string trimmed. */
  lemma LowerKeepsTrimmed(s: string)
    requires IsTrimmed(s)
    ensures IsTrimmed(Lower(s))
  {
    if s != [] {
      assert Lower(s)[0] == LowerChar(s[0]);
      assert Lower(s)[|s| - 1] == LowerChar(s[|s| - 1]);
    }
  }

  /** What the `trim: true, lowercase: true` setters make of an email. */
  predicate IsNormalEmail(s: string) {
    IsTrimmed(s) && IsLower(s)
  }

  function NormalizeEmail(s: string): (r: string)
    ensures r == Lower(Trim(s))
    ensures IsNormalEmail(r)
    ensures IsNormalEmail(s) ==> r == s
    ensures r == [] <==> Trim(s) == []
  {
    LowerKeepsTrimmed(Trim(s));
    Lower(Trim(s))
  }

  predicate StartsWith(s: string, prefix: string) {
    |prefix| <= |s| && s[..|prefix|] == prefix
  }

  /** Whether `needle` occurs in `s` as a contiguous substring. */
  predicate Contains(s: string, needle: string)
    decreases |s|
  {
    StartsWith(s, needle) || (s != [] && Contains(s[1..], needle))
  }

  /** `needle` occurs in `s` starting at position `k`. */
  predicate OccursAt(s: string, needle: string, k: int) {
    0 <= k && k + |needle| <= |s| && s[k..k + |needle|] == needle
  }

  /** `needle` occurs somewhere in `s`. */
  ghost predicate Occurs(s: string, needle: string) {
    exists k :: OccursAt(s, needle, k)
  }

  /** `Contains` agrees with the positional definition of a substring occurrence. */
  lemma {:induction false} ContainsAt(s: string, needle: string)
    ensures Contains(s, needle) <==> exists k :: OccursAt(s, needle, k)
  {
    if StartsWith(s, needle) {
      assert OccursAt(s, needle, 0);
    } else if s == [] {
    } else {
      ContainsAt(s[1..], needle);
      if exists k :: OccursAt(s, needle, k) {
        var k :| OccursAt(s, needle, k);
        assert k != 0;
        assert OccursAt(s[1..], needle, k - 1);
      }
      if Contains(s[1..], needle) {
        var k :| OccursAt(s[1..], needle, k);
        assert OccursAt(s, needle, k + 1);
      }
    }
  }

  /** A case-insensitive regular-expression match of a literal `pattern`. */
  predicate MatchesIgnoringCase(field: string, pattern: string): (b: bool)
    ensures b <==> Occurs(Lower(field), Lower(pattern))
    ensures pattern == [] ==> b
  {
    ContainsAt(Lower(field), Lower(pattern));
    assert pattern == [] ==> OccursAt(Lower(field), Lower(pattern), 0);
    Contains(Lower(field), Lower(pattern))
  }
}
