/** The comparisons the SQL statements use: `=` and LIKE under a case-insensitive collation. */
module Sql {
  function Fold(c: char): char {
    if 'A' <= c <= 'Z' then (c as int + 32) as char else c
  }

  /** `=`. */
  predicate SameText(a: string, b: string) {
    |a| == |b| && forall i :: 0 <= i < |a| ==> Fold(a[i]) == Fold(b[i])
  }

  /** LIKE: `%` stands for any text, `_` for one character, a backslash escapes. */
  predicate Like(text: string, pattern: string)
    decreases |text| + |pattern|
  {
    if pattern == "" then text == ""
    else if pattern[0] == '%' then Like(text, pattern[1..]) || (text != "" && Like(text[1..], pattern))
    else if text == "" then false
    else if pattern[0] == '_' then Like(text[1..], pattern[1..])
    else if pattern[0] == '\\' && |pattern| > 1 then
      Fold(text[0]) == Fold(pattern[1]) && Like(text[1..], pattern[2..])
    else Fold(text[0]) == Fold(pattern[0]) && Like(text[1..], pattern[1..])
  }

  /** What `%` means: the rest of the pattern matches some end of the text. */
  lemma {:induction false} PercentIsAnyText(text: string, pattern: string)
    ensures Like(text, "%" + pattern) <==> exists k: nat :: k <= |text| && Like(text[k..], pattern)
    decreases |text|
  {
    assert ("%" + pattern)[1..] == pattern && text[0..] == text;
    if text != "" {
      PercentIsAnyText(text[1..], pattern);
      forall k: nat | k < |text| ensures text[1..][k..] == text[k + 1..] {}
      if k: nat :| k <= |text| && Like(text[k..], pattern) {
        if k > 0 { assert text[1..][k - 1..] == text[k..]; }
      }
      if Like(text[1..], "%" + pattern) {
        var k: nat :| k <= |text| - 1 && Like(text[1..][k..], pattern);
        assert Like(text[k + 1..], pattern);
      }
    }
  }

  predicate AliasChar(c: char) {
    'a' <= c <= 'z' || '0' <= c <= '9' || c == '-'
  }

  /** [a-z0-9-]{3,120} */
  predicate ValidAlias(s: string) {
    3 <= |s| <= 120 && forall i :: 0 <= i < |s| ==> AliasChar(s[i])
  }

  predicate AliasText(s: string) {
    forall i :: 0 <= i < |s| ==> AliasChar(s[i])
  }

  /** On the characters an alias may have, LIKE is equality. */
  lemma {:induction false} LikeIsEquality(text: string, pattern: string)
    requires AliasText(text) && AliasText(pattern)
    ensures Like(text, pattern) <==> text == pattern
    decreases |text|
  {
    if pattern != "" && text != "" {
      assert AliasChar(pattern[0]) && AliasChar(text[0]);
      LikeIsEquality(text[1..], pattern[1..]);
      if text[0] == pattern[0] && text[1..] == pattern[1..] {
        assert text == [text[0]] + text[1..] && pattern == [pattern[0]] + pattern[1..];
      }
    } else if pattern != "" {
      assert AliasChar(pattern[0]);
    }
  }

  /** ... and so is `=`. */
  lemma SameAliasIsEquality(a: string, b: string)
    requires AliasText(a) && AliasText(b)
    ensures SameText(a, b) <==> a == b
  {
    assert forall i :: 0 <= i < |a| ==> AliasChar(a[i]) && Fold(a[i]) == a[i];
    assert forall i :: 0 <= i < |b| ==> AliasChar(b[i]) && Fold(b[i]) == b[i];
  }

  // ---- LIKE against `=` ----------------------------------------------------

  /** No wildcard, and no backslash but at the very end, where it stands for itself. */
  predicate Plain(pattern: string) {
    forall i :: 0 <= i < |pattern| ==>
      pattern[i] != '%' && pattern[i] != '_' && (pattern[i] == '\\' ==> i == |pattern| - 1)
  }

  /** A text the pattern matches. */
  function MatchOf(pattern: string): (text: string)
    ensures |text| <= |pattern| && Like(text, pattern)
    decreases |pattern|
  {
    if pattern == "" then ""
    else if pattern[0] == '%' then MatchOf(pattern[1..])
    else if pattern[0] == '\\' && |pattern| > 1 then [pattern[1]] + MatchOf(pattern[2..])
    else [pattern[0]] + MatchOf(pattern[1..])
  }

  /** A text the pattern matches although it is another one. */
  function OtherMatchOf(pattern: string): (text: string)
    requires !Plain(pattern)
    ensures Like(text, pattern) && !SameText(text, pattern)
    decreases |pattern|
  {
    if pattern[0] == '%' then MatchOf(pattern[1..])
    else if pattern[0] == '_' then ['a'] + MatchOf(pattern[1..])
    else if pattern[0] == '\\' && |pattern| > 1 then [pattern[1]] + MatchOf(pattern[2..])
    else [pattern[0]] + OtherMatchOf(pattern[1..])
  }

  lemma {:induction false} PlainLikeIsSameText(text: string, pattern: string)
    requires Plain(pattern)
    ensures Like(text, pattern) <==> SameText(text, pattern)
    decreases |pattern|
  {
    if pattern != "" && text != "" {
      PlainLikeIsSameText(text[1..], pattern[1..]);
      if SameText(text, pattern) { assert SameText(text[1..], pattern[1..]); }
    }
  }

  /** LIKE is `=` for exactly the patterns without wildcards and escapes. */
  lemma LikeIsSameTextIffPlain(pattern: string)
    ensures (forall text :: Like(text, pattern) <==> SameText(text, pattern)) <==> Plain(pattern)
  {
    if Plain(pattern) {
      forall text ensures Like(text, pattern) <==> SameText(text, pattern) { PlainLikeIsSameText(text, pattern); }
    } else {
      var text := OtherMatchOf(pattern);
      assert Like(text, pattern) && !SameText(text, pattern);
    }
  }
}
