/** The string operations the system relies on: `toLowerCase`,
    `toUpperCase`, `trim`, `includes`, `startsWith`, and the default string
    ordering of `Array.prototype.sort`, restricted to ASCII. */
module Strings {

  /** ASCII whitespace: the characters `trim` strips and `\s` matches in the
      ASCII range. */
  predicate IsSpace(c: char) {
    c == ' ' || c == '\t' || c == '\n' || c == '\r' || c == '\U{000B}' || c == '\U{000C}'
  }

  predicate IsUpper(c: char) {
    'A' <= c <= 'Z'
  }

  predicate IsLower(c: char) {
    'a' <= c <= 'z'
  }

  /** Every character of `s` is whitespace (an empty `s` included). */
  predicate Blank(s: string) {
    forall i :: 0 <= i < |s| ==> IsSpace(s[i])
  }

  /** No character of `s` is an upper-case letter. */
  predicate LowerCased(s: string) {
    forall i :: 0 <= i < |s| ==> !IsUpper(s[i])
  }

  function LowerChar(c: char): (r: char)
    ensures !IsUpper(r)
    ensures IsUpper(c) ==> IsLower(r)
    ensures !IsUpper(c) ==> r == c
    ensures IsSpace(r) <==> IsSpace(c)
  {
    if IsUpper(c) then (c as int + 32) as char else c
  }

  function UpperChar(c: char): (r: char)
    ensures !IsLower(r)
    ensures IsLower(c) ==> IsUpper(r)
    ensures !IsLower(c) ==> r == c
  {
    if IsLower(c) then (c as int - 32) as char else c
  }

  /** `s.toLowerCase()` on ASCII text. */
  function Lower(s: string): (r: string)
    ensures |r| == |s|
    ensures forall i :: 0 <= i < |s| ==> r[i] == LowerChar(s[i])
    ensures LowerCased(r)
  {
    seq(|s|, i requires 0 <= i < |s| => LowerChar(s[i]))
  }

  /** `s.charAt(0).toUpperCase()`: the first character upper-cased, or the
      empty string for an empty `s`. */
  function FirstLetterUpper(s: string): (r: string)
    ensures |r| <= 1
    ensures |r| == 1 <==> |s| > 0
    ensures |s| > 0 ==> r[0] == UpperChar(s[0])
  {
    if |s| == 0 then "" else [UpperChar(s[0])]
  }

  lemma LowerOfLowerCased(s: string)
    requires LowerCased(s)
    ensures Lower(s) == s
  {
  }

  lemma LowerSlice(s: string, i: nat, j: nat)
    requires i <= j <= |s|
    ensures Lower(s[i..j]) == Lower(s)[i..j]
  {
  }

  /** The number of whitespace characters at the start of `s`. */
  function LeadingSpaces(s: string): (n: nat)
    ensures n <= |s|
    ensures forall i :: 0 <= i < n ==> IsSpace(s[i])
    ensures n == |s| || !IsSpace(s[n])
  {
    if |s| > 0 && IsSpace(s[0]) then 1 + LeadingSpaces(s[1..]) else 0
  }

  /** The number of whitespace characters at the end of `s`. */
  function TrailingSpaces(s: string): (n: nat)
    ensures n <= |s|
    ensures forall i :: |s| - n <= i < |s| ==> IsSpace(s[i])
    ensures n == |s| || !IsSpace(s[|s| - n - 1])
  {
    if |s| > 0 && IsSpace(s[|s| - 1]) then 1 + TrailingSpaces(s[..|s| - 1]) else 0
  }

  /** Neither end of `s` is whitespace. */
  predicate IsTrimmed(s: string) {
    s == [] || (!IsSpace(s[0]) && !IsSpace(s[|s| - 1]))
  }

  /** `s.trim()` on ASCII text: `s` without its leading and trailing
      whitespace. */
  function Trim(s: string): (r: string)
    ensures IsTrimmed(r)
    ensures LeadingSpaces(s) + |r| <= |s|
    ensures r == s[LeadingSpaces(s)..LeadingSpaces(s) + |r|]
    ensures Blank(s[..LeadingSpaces(s)]) && Blank(s[LeadingSpaces(s) + |r|..])
    ensures r == [] <==> Blank(s)
  {
    var t := s[LeadingSpaces(s)..];
    t[..|t| - TrailingSpaces(t)]
  }

  lemma TrimOfTrimmed(s: string)
    requires IsTrimmed(s)
    ensures Trim(s) == s
  {
  }

  /** `Lower` and `Trim` commute with themselves and each other in the sense
      that trimming and lower-casing twice changes nothing. */
  lemma {:induction false} LowerTrimIdempotent(s: string)
    ensures Trim(Lower(Trim(Lower(s)))) == Trim(Lower(s))
  {
    var t := Trim(Lower(s));
    var n := LeadingSpaces(Lower(s));
    assert t == Lower(s)[n..n + |t|];
    assert LowerCased(t) by {
      forall i | 0 <= i < |t|
        ensures !IsUpper(t[i])
      {
        assert t[i] == Lower(s)[n + i];
      }
    }
    LowerOfLowerCased(t);
    TrimOfTrimmed(t);
  }

  /** Lower-casing keeps a trimmed string trimmed. */
  lemma LowerKeepsTrimmed(s: string)
    requires IsTrimmed(s)
    ensures IsTrimmed(Lower(s))
  {
  }

  /** A search key is its own search key. */
  lemma SearchKeyIdempotent(s: string)
    ensures SearchKey(SearchKey(s)) == SearchKey(s)
  {
    var t := SearchKey(s);
    TrimOfTrimmed(t);
    LowerOfLowerCased(t);
  }

  /** `query.trim().toLowerCase()`, the form in which every search box
      matches its query; empty exactly for a blank query. */
  function SearchKey(query: string): (q: string)
    ensures q == [] <==> Blank(query)
    ensures LowerCased(q) && IsTrimmed(q)
  {
    LowerKeepsTrimmed(Trim(query));
    Lower(Trim(query))
  }

  /** `prefix` is an initial segment of `s` (`s.startsWith(prefix)`). */
  predicate StartsWith(s: string, prefix: string) {
    |prefix| <= |s| && s[..|prefix|] == prefix
  }

  /** `sub` occurs in `s` starting at position `i`. */
  predicate OccursAt(s: string, sub: string, i: int) {
    0 <= i && i + |sub| <= |s| && s[i..i + |sub|] == sub
  }

  /** `s.includes(sub)`, searched position by position. */
  predicate Contains(s: string, sub: string) {
    StartsWith(s, sub) || (|s| > 0 && Contains(s[1..], sub))
  }

  /** The positional search finds `sub` exactly when it occurs somewhere. */
  lemma {:induction false} ContainsIffOccurs(s: string, sub: string)
    ensures Contains(s, sub) <==> exists i :: OccursAt(s, sub, i)
  {
    if StartsWith(s, sub) {
      assert OccursAt(s, sub, 0);
    } else if |s| == 0 {
      assert forall i :: !OccursAt(s, sub, i);
    } else {
      ContainsIffOccurs(s[1..], sub);
      forall i | OccursAt(s, sub, i)
        ensures OccursAt(s[1..], sub, i - 1)
      {
        assert i != 0;
        assert s[1..][i - 1..i - 1 + |sub|] == s[i..i + |sub|];
      }
      forall i | OccursAt(s[1..], sub, i)
        ensures OccursAt(s, sub, i + 1)
      {
        assert s[1..][i..i + |sub|] == s[i + 1..i + 1 + |sub|];
      }
    }
  }

  /** The empty string occurs in every string, as `"abc".includes("")`
      holds. */
  lemma ContainsEmpty(s: string)
    ensures Contains(s, "")
  {
    assert StartsWith(s, "");
  }

  /** The default ordering of `Array.prototype.sort` on strings: code-unit
      lexicographic order, a proper prefix coming first. */
  predicate Less(a: string, b: string) {
    |b| > 0 && (|a| == 0 || a[0] < b[0] || (a[0] == b[0] && Less(a[1..], b[1..])))
  }

  lemma {:induction false} LessIrreflexive(a: string)
    ensures !Less(a, a)
  {
    if |a| > 0 {
      LessIrreflexive(a[1..]);
    }
  }

  lemma {:induction false} LessTransitive(a: string, b: string, c: string)
    requires Less(a, b) && Less(b, c)
    ensures Less(a, c)
  {
    if |a| > 0 && a[0] == b[0] && b[0] == c[0] {
      LessTransitive(a[1..], b[1..], c[1..]);
    }
  }

  lemma LessAsymmetric(a: string, b: string)
    ensures Less(a, b) ==> !Less(b, a)
  {
    if Less(a, b) && Less(b, a) {
      LessIrreflexive(a);
      LessTransitive(a, b, a);
    }
  }

  lemma {:induction false} LessTotal(a: string, b: string)
    requires a != b
    ensures Less(a, b) || Less(b, a)
  {
    if |a| > 0 && |b| > 0 && a[0] == b[0] {
      assert a == [a[0]] + a[1..] && b == [b[0]] + b[1..];
      LessTotal(a[1..], b[1..]);
    }
  }
}
