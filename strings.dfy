/**
 * The Python string operations that the toolbox relies on, restricted to ASCII:
 * str.lower, str.title, str.strip, the substring test `p in s`, str.replace of one
 * character, `s.split(" ")[0]`, and the code-point order that sorted() uses on str.
 */
module Strings {

  predicate IsUpperChar(c: char) { 'A' <= c <= 'Z' }
  predicate IsLowerChar(c: char) { 'a' <= c <= 'z' }

  /** A cased character in the sense of str.title: an ASCII letter. */
  predicate IsCased(c: char) { IsUpperChar(c) || IsLowerChar(c) }

  function LowerChar(c: char): char {
    if IsUpperChar(c) then (c as int + 32) as char else c
  }

  function UpperChar(c: char): char {
    if IsLowerChar(c) then (c as int - 32) as char else c
  }

  /** str.lower */
  function Lower(s: string): (r: string)
    ensures |r| == |s|
  {
    seq(|s|, i requires 0 <= i < |s| => LowerChar(s[i]))
  }

  lemma LowerSlice(s: string, k: nat)
    requires k <= |s|
    ensures Lower(s[k..]) == Lower(s)[k..]
    ensures Lower(s[..k]) == Lower(s)[..k]
  {
  }

  // ---------------------------------------------------------------- str.title

  /**
   * str.title: a cased character becomes upper case when the character before it is
   * not cased (or it is the first one), lower case otherwise; other characters are kept.
   * `previousCased` tells whether the character before `s` was cased.
   */
  function TitleFrom(s: string, previousCased: bool): (r: string)
    ensures |r| == |s|
  {
    if |s| == 0 then []
    else
      var c := if previousCased then LowerChar(s[0]) else UpperChar(s[0]);
      [c] + TitleFrom(s[1..], IsCased(s[0]))
  }

  function Title(s: string): string {
    TitleFrom(s, false)
  }

  /** Each character of the title-cased string, described without the recursion. */
  lemma {:induction false} TitleAt(s: string, i: nat)
    requires i < |s|
    ensures Title(s)[i] == if i == 0 || !IsCased(s[i - 1]) then UpperChar(s[i]) else LowerChar(s[i])
  {
    TitleFromAt(s, false, i);
  }

  lemma {:induction false} TitleFromAt(s: string, p: bool, i: nat)
    requires i < |s|
    ensures TitleFrom(s, p)[i] ==
      if (if i == 0 then p else IsCased(s[i - 1])) then LowerChar(s[i]) else UpperChar(s[i])
  {
    if i > 0 {
      TitleFromAt(s[1..], IsCased(s[0]), i - 1);
    }
  }

  lemma LowerCharFacts(c: char)
    ensures IsCased(LowerChar(c)) == IsCased(c)
    ensures LowerChar(LowerChar(c)) == LowerChar(c)
    ensures UpperChar(LowerChar(c)) == UpperChar(c)
  {
  }

  /** Title-casing does not look at the letter case of its input. */
  lemma {:induction false} TitleFromIgnoresCase(s: string, p: bool)
    ensures TitleFrom(Lower(s), p) == TitleFrom(s, p)
  {
    if |s| > 0 {
      LowerCharFacts(s[0]);
      LowerSlice(s, 1);
      TitleFromIgnoresCase(s[1..], p);
      TitleFromIgnoresCase(s[1..], IsCased(s[0]));
    }
  }

  /** Two strings that differ only in letter case have the same title form. */
  lemma TitleOfCaseVariants(s: string, t: string)
    requires Lower(s) == Lower(t)
    ensures Title(s) == Title(t)
  {
    TitleFromIgnoresCase(s, false);
    TitleFromIgnoresCase(t, false);
  }

  // ---------------------------------------------------------------- str.strip

  /** ASCII characters for which str.isspace holds: space, \t \n \v \f \r and \x1c-\x1f. */
  predicate IsSpace(c: char) {
    c == ' ' || (9 <= c as int <= 13) || (28 <= c as int <= 31)
  }

  predicate AllSpace(s: string) {
    forall i :: 0 <= i < |s| ==> IsSpace(s[i])
  }

  /** str.lstrip */
  function StripLeft(s: string): string {
    if |s| > 0 && IsSpace(s[0]) then StripLeft(s[1..]) else s
  }

  /** str.rstrip */
  function StripRight(s: string): string {
    if |s| > 0 && IsSpace(s[|s| - 1]) then StripRight(s[..|s| - 1]) else s
  }

  /** str.strip */
  function Strip(s: string): string {
    StripRight(StripLeft(s))
  }

  /** lstrip removes a whitespace prefix, and only that: what is left does not start with whitespace. */
  lemma {:induction false} StripLeftRemovesSpace(s: string)
    ensures |StripLeft(s)| <= |s| && StripLeft(s) == s[|s| - |StripLeft(s)|..]
    ensures AllSpace(s[..|s| - |StripLeft(s)|])
    ensures |StripLeft(s)| > 0 ==> !IsSpace(StripLeft(s)[0])
  {
    if |s| > 0 && IsSpace(s[0]) {
      StripLeftRemovesSpace(s[1..]);
      var n := |s| - |StripLeft(s)|;
      assert s[1..][|s| - 1 - |StripLeft(s)|..] == s[n..];
      forall i | 0 <= i < n ensures IsSpace(s[..n][i]) {
        if i > 0 {
          assert s[..n][i] == s[1..][..n - 1][i - 1];
        }
      }
    }
  }

  /** rstrip removes a whitespace suffix, and only that: what is left does not end with whitespace. */
  lemma {:induction false} StripRightRemovesSpace(s: string)
    ensures |StripRight(s)| <= |s| && StripRight(s) == s[..|StripRight(s)|]
    ensures AllSpace(s[|StripRight(s)|..])
    ensures |StripRight(s)| > 0 ==> !IsSpace(StripRight(s)[|StripRight(s)| - 1])
  {
    if |s| > 0 && IsSpace(s[|s| - 1]) {
      var front := s[..|s| - 1];
      StripRightRemovesSpace(front);
      var m := |StripRight(s)|;
      assert front[..m] == s[..m];
      forall i | m <= i < |s| ensures IsSpace(s[i]) {
        if i < |s| - 1 {
          assert s[i] == front[m..][i - m];
        }
      }
    }
  }

  lemma {:induction false} StripLeftAllSpace(s: string)
    requires AllSpace(s)
    ensures StripLeft(s) == []
  {
    if |s| > 0 {
      assert AllSpace(s[1..]) by {
        forall i | 0 <= i < |s| - 1 ensures IsSpace(s[1..][i]) { assert s[1..][i] == s[i + 1]; }
      }
      StripLeftAllSpace(s[1..]);
    }
  }

  /** lstrip keeps every character from the first non-space one on. */
  lemma {:induction false} StripLeftKeeps(s: string, k: nat)
    requires k < |s| && !IsSpace(s[k])
    ensures |StripLeft(s)| >= |s| - k
  {
    if IsSpace(s[0]) {
      StripLeftKeeps(s[1..], k - 1);
    }
  }

  lemma {:induction false} StripRightKeepsFirst(s: string)
    requires |s| > 0 && !IsSpace(s[0])
    ensures |StripRight(s)| > 0
  {
    if |s| > 1 && IsSpace(s[|s| - 1]) {
      StripRightKeepsFirst(s[..|s| - 1]);
    }
  }

  /** Stripping leaves nothing exactly when the string is whitespace only. */
  lemma StripEmptyIffAllSpace(s: string)
    ensures Strip(s) == [] <==> AllSpace(s)
  {
    if AllSpace(s) {
      StripLeftAllSpace(s);
    } else {
      var k :| 0 <= k < |s| && !IsSpace(s[k]);
      StripLeftKeeps(s, k);
      StripLeftRemovesSpace(s);
      StripRightKeepsFirst(StripLeft(s));
    }
  }

  lemma {:induction false} LowerStripLeft(s: string)
    ensures Lower(StripLeft(s)) == StripLeft(Lower(s))
  {
    if |s| > 0 {
      LowerSlice(s, 1);
      assert Lower(s)[0] == LowerChar(s[0]);
      if IsSpace(s[0]) {
        LowerStripLeft(s[1..]);
      }
    }
  }

  lemma {:induction false} LowerStripRight(s: string)
    ensures Lower(StripRight(s)) == StripRight(Lower(s))
  {
    if |s| > 0 {
      LowerSlice(s, |s| - 1);
      assert Lower(s)[|s| - 1] == LowerChar(s[|s| - 1]);
      if IsSpace(s[|s| - 1]) {
        LowerStripRight(s[..|s| - 1]);
      }
    }
  }

  /** Lower-casing and stripping commute (no whitespace character has a case). */
  lemma LowerStrip(s: string)
    ensures Lower(Strip(s)) == Strip(Lower(s))
  {
    LowerStripLeft(s);
    LowerStripRight(StripLeft(s));
  }

  // ---------------------------------------------------------------- `p in s`

  /** Python's substring test `pattern in text`. */
  predicate Contains(text: string, pattern: string)
    decreases |text|
  {
    pattern <= text || (|text| > 0 && Contains(text[1..], pattern))
  }

  predicate OccursAt(text: string, pattern: string, k: nat) {
    k + |pattern| <= |text| && text[k..k + |pattern|] == pattern
  }

  lemma TailSlice(text: string, k: nat, n: nat)
    requires 1 <= k && k + n <= |text|
    ensures text[1..][k - 1..k - 1 + n] == text[k..k + n]
  {
  }

  /** An occurrence at any position makes the substring test succeed. */
  lemma {:induction false} OccursContains(text: string, pattern: string, k: nat)
    requires OccursAt(text, pattern, k)
    ensures Contains(text, pattern)
  {
    if k > 0 {
      TailSlice(text, k, |pattern|);
      OccursContains(text[1..], pattern, k - 1);
    } else {
      assert pattern == text[..|pattern|];
    }
  }

  /** A successful substring test has an occurrence. */
  lemma {:induction false} ContainsWitness(text: string, pattern: string) returns (k: nat)
    requires Contains(text, pattern)
    ensures OccursAt(text, pattern, k)
    decreases |text|
  {
    if pattern <= text {
      k := 0;
      assert text[..|pattern|] == pattern;
    } else {
      var j := ContainsWitness(text[1..], pattern);
      TailSlice(text, j + 1, |pattern|);
      k := j + 1;
    }
  }

  /** The substring test, stated as an occurrence at some position. */
  lemma ContainsIffOccurs(text: string, pattern: string)
    ensures Contains(text, pattern) <==> exists k: nat :: OccursAt(text, pattern, k)
  {
    if Contains(text, pattern) {
      var k := ContainsWitness(text, pattern);
    }
    if k: nat :| OccursAt(text, pattern, k) {
      OccursContains(text, pattern, k);
    }
  }

  // ---------------------------------------------------------------- str.replace, split

  /** `s.replace(from, to)` for one-character `from` and `to`: every occurrence is replaced. */
  function ReplaceChar(s: string, from: char, to: char): (r: string)
    ensures |r| == |s|
    ensures forall i :: 0 <= i < |s| ==> r[i] == if s[i] == from then to else s[i]
  {
    if |s| == 0 then [] else [if s[0] == from then to else s[0]] + ReplaceChar(s[1..], from, to)
  }

  /** `s.split(" ")[0]`: everything before the first space (the whole string if there is none). */
  function FirstToken(s: string): (r: string)
    ensures r <= s
    ensures ' ' !in r
    ensures |r| < |s| ==> s[|r|] == ' '
  {
    if |s| == 0 || s[0] == ' ' then [] else [s[0]] + FirstToken(s[1..])
  }

  /** The first token of a word followed by a space-led tail is the word itself. */
  lemma {:induction false} FirstTokenOfWord(word: string, tail: string)
    requires ' ' !in word
    requires |tail| > 0 && tail[0] == ' '
    ensures FirstToken(word + tail) == word
  {
    if |word| > 0 {
      assert (word + tail)[1..] == word[1..] + tail;
      assert word[0] in word;
      FirstTokenOfWord(word[1..], tail);
    }
  }

  // ---------------------------------------------------------------- sorted()

  /** Python's order on str: lexicographic by code point, a prefix first. */
  predicate LexLe(a: string, b: string) {
    if |a| == 0 then true
    else if |b| == 0 then false
    else if a[0] != b[0] then a[0] < b[0]
    else LexLe(a[1..], b[1..])
  }

  lemma {:induction false} LexLeTotal(a: string, b: string)
    ensures LexLe(a, b) || LexLe(b, a)
  {
    if |a| > 0 && |b| > 0 && a[0] == b[0] {
      LexLeTotal(a[1..], b[1..]);
    }
  }

  predicate Sorted(s: seq<string>) {
    forall i :: 0 <= i < |s| - 1 ==> LexLe(s[i], s[i + 1])
  }

  function Insert(x: string, s: seq<string>): (r: seq<string>)
    requires Sorted(s)
    ensures Sorted(r)
    ensures multiset(r) == multiset(s) + multiset{x}
    ensures |r| > 0 && (r[0] == x || (|s| > 0 && r[0] == s[0]))
  {
    if |s| == 0 then [x]
    else if LexLe(x, s[0]) then [x] + s
    else
      LexLeTotal(x, s[0]);
      assert s == [s[0]] + s[1..];
      [s[0]] + Insert(x, s[1..])
  }

  /** sorted() on a list of str: an ascending permutation of its argument. */
  function Sort(s: seq<string>): (r: seq<string>)
    ensures Sorted(r)
    ensures multiset(r) == multiset(s)
  {
    if |s| == 0 then []
    else
      assert s == [s[0]] + s[1..];
      Insert(s[0], Sort(s[1..]))
  }
}
