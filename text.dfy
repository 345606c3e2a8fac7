/**
  The string operations the application relies on: `String.prototype.trim`,
  `toLowerCase` (ASCII letters only), `includes`, and the string order that
  stands for `localeCompare` (plain lexicographic order on characters).
 */
module Text {

  /** The characters `trim` removes: ECMAScript WhiteSpace and LineTerminator. */
  predicate IsWhitespace(c: char) {
    || c == ' ' || c == '\t' || c == '\n' || c == '\r'
    || c == '\U{000B}' || c == '\U{000C}' || c == '\U{00A0}' || c == '\U{1680}'
    || ('\U{2000}' <= c <= '\U{200A}')
    || c == '\U{2028}' || c == '\U{2029}' || c == '\U{202F}' || c == '\U{205F}'
    || c == '\U{3000}' || c == '\U{FEFF}'
  }

  predicate AllWhitespace(s: string) {
    forall i :: 0 <= i < |s| ==> IsWhitespace(s[i])
  }

  function TrimStart(s: string): string {
    if s != [] && IsWhitespace(s[0]) then TrimStart(s[1..]) else s
  }

  function TrimEnd(s: string): string {
    if s != [] && IsWhitespace(s[|s| - 1]) then TrimEnd(s[..|s| - 1]) else s
  }

  /** `s.trim()`: leading and trailing whitespace removed. */
  function Trim(s: string): string {
    TrimEnd(TrimStart(s))
  }

  lemma {:induction false} TrimStartKeepsBlankness(s: string)
    ensures AllWhitespace(TrimStart(s)) <==> AllWhitespace(s)
  {
    if s != [] && IsWhitespace(s[0]) {
      TrimStartKeepsBlankness(s[1..]);
      assert forall i :: 0 < i < |s| ==> s[i] == s[1..][i - 1];
    }
  }

  lemma {:induction false} TrimEndEmpty(s: string)
    ensures TrimEnd(s) == [] <==> AllWhitespace(s)
  {
    if s != [] && IsWhitespace(s[|s| - 1]) {
      TrimEndEmpty(s[..|s| - 1]);
      assert forall i :: 0 <= i < |s| - 1 ==> s[i] == s[..|s| - 1][i];
    }
  }

  /** `s.trim()` is falsy exactly when `s` consists of whitespace only. */
  lemma TrimEmptyIffBlank(s: string)
    ensures Trim(s) == [] <==> AllWhitespace(s)
  {
    TrimEndEmpty(TrimStart(s));
    TrimStartKeepsBlankness(s);
  }

  /** ASCII lowercasing of one character. */
  function LowerChar(c: char): char {
    if 'A' <= c <= 'Z' then (c as int + 32) as char else c
  }

  /** `s.toLowerCase()`, restricted to ASCII letters. */
  function Lower(s: string): string {
    seq(|s|, i requires 0 <= i < |s| => LowerChar(s[i]))
  }

  /** Lowercasing changes no character into or out of whitespace. */
  lemma LowerKeepsBlankness(s: string)
    ensures AllWhitespace(Lower(s)) <==> AllWhitespace(s)
  {
    assert forall i :: 0 <= i < |s| ==> (IsWhitespace(Lower(s)[i]) <==> IsWhitespace(s[i]));
  }

  /** Lowercasing twice is lowercasing once. */
  lemma LowerIdempotent(s: string)
    ensures Lower(Lower(s)) == Lower(s)
  {
  }

  /** `needle` occurs in `hay` starting at index `i`. */
  predicate OccursAt(hay: string, needle: string, i: int) {
    0 <= i && i + |needle| <= |hay| && hay[i..i + |needle|] == needle
  }

  /** `hay.includes(needle)`; the empty needle occurs everywhere. */
  function Includes(hay: string, needle: string): (b: bool)
    ensures b <==> exists i :: OccursAt(hay, needle, i)
    decreases |hay|
  {
    if |needle| > |hay| then false
    else if hay[..|needle|] == needle then assert OccursAt(hay, needle, 0); true
    else
      var rest := Includes(hay[1..], needle);
      assert forall i :: OccursAt(hay, needle, i) <==> i > 0 && OccursAt(hay[1..], needle, i - 1) by {
        forall i
          ensures OccursAt(hay, needle, i) <==> i > 0 && OccursAt(hay[1..], needle, i - 1)
        {
          if i > 0 && i + |needle| <= |hay| {
            var tail := hay[1..];
            assert forall j :: i <= j < i + |needle| ==> hay[j] == tail[j - 1];
            assert hay[i..i + |needle|] == tail[i - 1..i - 1 + |needle|];
          }
        }
      }
      if rest then
        var j :| OccursAt(hay[1..], needle, j);
        assert OccursAt(hay, needle, j + 1);
        true
      else false
  }

  /** A one-character needle is found exactly when that character occurs. */
  lemma IncludesChar(hay: string, c: char)
    ensures Includes(hay, [c]) <==> c in hay
  {
    if c in hay {
      var i :| 0 <= i < |hay| && hay[i] == c;
      assert OccursAt(hay, [c], i);
    }
    if Includes(hay, [c]) {
      var i :| OccursAt(hay, [c], i);
      assert hay[i] == hay[i..i + 1][0];
    }
  }

  /** Lexicographic order on strings: `a` sorts no later than `b`. */
  predicate StrLe(a: string, b: string) {
    if a == [] then true
    else if b == [] then false
    else if a[0] != b[0] then a[0] < b[0]
    else StrLe(a[1..], b[1..])
  }

  lemma {:induction false} StrLeReflexive(a: string)
    ensures StrLe(a, a)
  {
    if a != [] { StrLeReflexive(a[1..]); }
  }

  lemma {:induction false} StrLeTotal(a: string, b: string)
    ensures StrLe(a, b) || StrLe(b, a)
  {
    if a != [] && b != [] && a[0] == b[0] { StrLeTotal(a[1..], b[1..]); }
  }

  lemma {:induction false} StrLeAntisymmetric(a: string, b: string)
    requires StrLe(a, b) && StrLe(b, a)
    ensures a == b
  {
    if a != [] && b != [] {
      StrLeAntisymmetric(a[1..], b[1..]);
      assert a == [a[0]] + a[1..] && b == [b[0]] + b[1..];
    }
  }

  lemma {:induction false} StrLeTransitive(a: string, b: string, c: string)
    requires StrLe(a, b) && StrLe(b, c)
    ensures StrLe(a, c)
  {
    if a != [] && b != [] && c != [] && a[0] == b[0] && b[0] == c[0] {
      StrLeTransitive(a[1..], b[1..], c[1..]);
    }
  }
}
