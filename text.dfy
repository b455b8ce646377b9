/**
 * The string operations the pages call: `trim` (the blank-input guards),
 * `toLowerCase` restricted to ASCII, and `includes` (the search boxes).
 */
module Text {

  /** The code points JavaScript's `trim` removes: WhiteSpace and LineTerminator. */
  predicate IsWhitespace(c: char) {
    || c == '\t' || c == '\n' || c == '\U{B}' || c == '\U{C}' || c == '\r' || c == ' '
    || c == '\U{A0}' || c == '\U{1680}' || ('\U{2000}' <= c <= '\U{200A}')
    || c == '\U{2028}' || c == '\U{2029}' || c == '\U{202F}' || c == '\U{205F}'
    || c == '\U{3000}' || c == '\U{FEFF}'
  }

  /** Every character of `s` is whitespace (the empty string included). */
  ghost predicate IsBlank(s: string) {
    forall i :: 0 <= i < |s| ==> IsWhitespace(s[i])
  }

  /** `s` with its leading whitespace removed. */
  function TrimStart(s: string): (r: string)
    ensures |r| <= |s| && r == s[|s| - |r|..]
    ensures r == [] || !IsWhitespace(r[0])
    ensures forall i :: 0 <= i < |s| - |r| ==> IsWhitespace(s[i])
  {
    if s != [] && IsWhitespace(s[0]) then TrimStart(s[1..]) else s
  }

  /** `s` with its trailing whitespace removed. */
  function TrimEnd(s: string): (r: string)
    ensures |r| <= |s| && r == s[..|r|]
    ensures r == [] || !IsWhitespace(r[|r| - 1])
    ensures forall i :: |r| <= i < |s| ==> IsWhitespace(s[i])
  {
    if s != [] && IsWhitespace(s[|s| - 1]) then TrimEnd(s[..|s| - 1]) else s
  }

  /** `s.trim()`: empty exactly when `s` is blank; otherwise it starts and ends with a non-blank character. */
  function Trim(s: string): (r: string)
    ensures r == [] <==> IsBlank(s)
    ensures r != [] ==> !IsWhitespace(r[0]) && !IsWhitespace(r[|r| - 1])
  {
    var t := TrimStart(s);
    var r := TrimEnd(t);
    assert r == [] ==> IsBlank(s) by {
      if r == [] {
        forall i | 0 <= i < |s| ensures IsWhitespace(s[i]) {
          if i >= |s| - |t| {
            assert s[i] == t[i - (|s| - |t|)];
          }
        }
      }
    }
    assert r != [] ==> !IsWhitespace(t[0]);
    r
  }

  /** The truthiness of `s.trim()`, the guard of the todo page's add and save. */
  predicate HasText(s: string) {
    Trim(s) != []
  }

  /** `toLowerCase` on one character, folding the ASCII capitals only. */
  function LowerChar(c: char): char {
    if 'A' <= c <= 'Z' then (c as int + 32) as char else c
  }

  /** Lower-casing a string, character by character. */
  function Lower(s: string): (r: string)
    ensures |r| == |s|
    ensures forall i :: 0 <= i < |s| ==> r[i] == LowerChar(s[i])
  {
    if s == [] then [] else [LowerChar(s[0])] + Lower(s[1..])
  }

  /** Lower-casing leaves no ASCII capital behind. */
  lemma LowerHasNoCapitals(s: string)
    ensures forall i :: 0 <= i < |s| ==> !('A' <= Lower(s)[i] <= 'Z')
  {
  }

  /** Lower-casing twice is lower-casing once. */
  lemma LowerIdempotent(s: string)
    ensures Lower(Lower(s)) == Lower(s)
  {
    assert forall i :: 0 <= i < |s| ==> LowerChar(LowerChar(s[i])) == LowerChar(s[i]);
  }

  /** `q` occurs in `s` starting at index `i`. */
  predicate OccursAt(s: string, q: string, i: int) {
    0 <= i && i + |q| <= |s| && s[i..i + |q|] == q
  }

  /** The string search `includes`, scanning `s` from the left. */
  predicate Includes(s: string, q: string)
    ensures Includes(s, q) ==> |q| <= |s|
    ensures q == [] ==> Includes(s, q)
    decreases |s|
  {
    |q| <= |s| && (s[..|q|] == q || (s != [] && Includes(s[1..], q)))
  }

  /** `Includes` holds exactly when `q` occurs somewhere in `s`. */
  lemma {:induction false} IncludesIffOccurs(s: string, q: string)
    ensures Includes(s, q) <==> exists i :: OccursAt(s, q, i)
    decreases |s|
  {
    if Includes(s, q) {
      if s[..|q|] == q {
        assert OccursAt(s, q, 0);
      } else {
        IncludesIffOccurs(s[1..], q);
        var i :| OccursAt(s[1..], q, i);
        assert s[i + 1..i + 1 + |q|] == s[1..][i..i + |q|];
        assert OccursAt(s, q, i + 1);
      }
    }
    if exists i :: OccursAt(s, q, i) {
      var i :| OccursAt(s, q, i);
      if i > 0 {
        assert s[1..][i - 1..i - 1 + |q|] == s[i..i + |q|];
        assert OccursAt(s[1..], q, i - 1);
        IncludesIffOccurs(s[1..], q);
      }
    }
  }

  /** The search test of the food, gallery and Pokémon pages: the lower-cased name
      contains the lower-cased query. */
  predicate NameMatches(name: string, query: string) {
    Includes(Lower(name), Lower(query))
  }

  /** An empty query matches every name. */
  lemma EmptyQueryMatches(name: string)
    ensures NameMatches(name, "")
  {
    assert Lower(name)[..0] == [];
  }

  /** Only the lower-cased query matters: queries that differ in ASCII case match the same names. */
  lemma MatchIgnoresQueryCase(name: string, q1: string, q2: string)
    requires Lower(q1) == Lower(q2)
    ensures NameMatches(name, q1) == NameMatches(name, q2)
  {
  }

  /** A name matches a query exactly when the lower-cased query occurs in the lower-cased name. */
  lemma NameMatchesIffOccurs(name: string, query: string)
    ensures NameMatches(name, query) <==> exists i :: OccursAt(Lower(name), Lower(query), i)
  {
    assert NameMatches(name, query) == Includes(Lower(name), Lower(query));
    IncludesIffOccurs(Lower(name), Lower(query));
  }
}
