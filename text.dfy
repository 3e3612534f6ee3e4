/** The string operations the reply generator relies on: Python's str.isspace(),
    str.lower(), str.strip(), str.split() and the substring test `w in s`. */
module Text {

  /** Whitespace as Python's str.isspace() defines it: the characters that
      str.strip() removes and str.split() separates on. */
  predicate IsSpace(c: char)
  {
    || c == ' '
    || '\t' <= c <= '\r'
    || '\U{1c}' <= c <= '\U{1f}'
    || c == '\U{85}' || c == '\U{a0}' || c == '\U{1680}'
    || '\U{2000}' <= c <= '\U{200a}'
    || c == '\U{2028}' || c == '\U{2029}' || c == '\U{202f}' || c == '\U{205f}' || c == '\U{3000}'
  }

  /** Lower-casing of one character (ASCII letters only). */
  function LowerChar(c: char): (d: char)
    ensures !('A' <= d <= 'Z')
    ensures d == c || 'A' <= c <= 'Z'
    ensures IsSpace(d) == IsSpace(c)
  {
    if 'A' <= c <= 'Z' then (c as int + 32) as char else c
  }

  /** str.lower() */
  function Lower(s: string): (t: string)
  {
    seq(|s|, i requires 0 <= i < |s| => LowerChar(s[i]))
  }

  /** w occurs in s starting at index i. */
  predicate OccursAt(s: string, w: string, i: int)
  {
    0 <= i && i + |w| <= |s| && s[i..i + |w|] == w
  }

  /** Python's `w in s` on strings. */
  predicate Contains(s: string, w: string)
  {
    exists i :: 0 <= i <= |s| - |w| && OccursAt(s, w, i)
  }

  /** Python's `any(w in s for w in words)`. */
  predicate ContainsAny(s: string, words: seq<string>)
  {
    exists k :: 0 <= k < |words| && Contains(s, words[k])
  }

  /** A keyword that neither starts nor ends with whitespace. */
  predicate Phrase(w: string)
  {
    0 < |w| && !IsSpace(w[0]) && !IsSpace(w[|w| - 1])
  }

  /** s holds at least one character that is not whitespace. */
  predicate HasVisible(s: string)
  {
    exists j :: 0 <= j < |s| && !IsSpace(s[j])
  }

  /** The number of whitespace characters that open s. */
  function LeadingSpaces(s: string): (n: nat)
    ensures n <= |s|
    ensures forall j :: 0 <= j < n ==> IsSpace(s[j])
    ensures n < |s| ==> !IsSpace(s[n])
  {
    if |s| > 0 && IsSpace(s[0]) then 1 + LeadingSpaces(s[1..]) else 0
  }

  /** The number of whitespace characters that close s. */
  function TrailingSpaces(s: string): (n: nat)
    ensures n <= |s|
    ensures forall j :: |s| - n <= j < |s| ==> IsSpace(s[j])
    ensures n < |s| ==> !IsSpace(s[|s| - 1 - n])
  {
    if |s| > 0 && IsSpace(s[|s| - 1]) then 1 + TrailingSpaces(s[..|s| - 1]) else 0
  }

  /** The part of s that str.strip() keeps, as a pair of bounds: everything
      outside them is whitespace, and the kept part starts and ends with a
      visible character (or is empty, when s is all whitespace). */
  function StripBounds(s: string): (b: (nat, nat))
    ensures b.0 <= b.1 <= |s|
    ensures forall j :: 0 <= j < b.0 ==> IsSpace(s[j])
    ensures forall j :: b.1 <= j < |s| ==> IsSpace(s[j])
    ensures b.0 < b.1 ==> !IsSpace(s[b.0]) && !IsSpace(s[b.1 - 1])
    ensures b.0 == b.1 ==> b.0 == |s|
  {
    var start := LeadingSpaces(s);
    var rest := s[start..];
    var trailing := TrailingSpaces(rest);
    forall j | |s| - trailing <= j < |s|
      ensures IsSpace(s[j])
    {
      assert s[j] == rest[j - start];
    }
    (start, |s| - trailing)
  }

  /** str.strip() with no argument: a slice of s that is empty exactly when s is
      all whitespace, and otherwise starts and ends with a visible character. */
  function Strip(s: string): (t: string)
    ensures Contains(s, t)
    ensures t == [] <==> !HasVisible(s)
    ensures t != [] ==> !IsSpace(t[0]) && !IsSpace(t[|t| - 1])
  {
    var b := StripBounds(s);
    assert OccursAt(s, s[b.0..b.1], b.0);
    s[b.0..b.1]
  }

  /** `user_input.strip().lower()`, the text every keyword handler tests. */
  function Normalize(s: string): (t: string)
    ensures t == [] <==> !HasVisible(s)
    ensures forall i :: 0 <= i < |t| ==> !('A' <= t[i] <= 'Z')
  {
    Lower(Strip(s))
  }

  /** Lower-casing commutes with taking a slice. */
  lemma LowerSlice(s: string, a: nat, b: nat)
    requires a <= b <= |s|
    ensures Lower(s[a..b]) == Lower(s)[a..b]
  {
  }

  /** An occurrence inside a slice is an occurrence in the whole, shifted. */
  lemma OccursInSlice(t: string, w: string, a: nat, b: nat, i: int)
    requires a <= b <= |t| && 0 <= i && i + |w| <= b - a
    ensures OccursAt(t[a..b], w, i) <==> OccursAt(t, w, a + i)
  {
    var inner, outer := t[a..b][i..i + |w|], t[a + i..a + i + |w|];
    assert |inner| == |outer|;
    assert forall k :: 0 <= k < |inner| ==> inner[k] == t[a + i + k] == outer[k];
    assert inner == outer;
  }

  /** `s.strip().lower()` is the lower-cased utterance cut to the strip bounds. */
  lemma NormalizeIsSlice(s: string)
    ensures Normalize(s) == Lower(s)[StripBounds(s).0..StripBounds(s).1]
  {
    LowerSlice(s, StripBounds(s).0, StripBounds(s).1);
  }

  /** An occurrence of a phrase in the lower-cased utterance lies within the
      part that str.strip() keeps: its first and last characters are visible. */
  lemma PhraseWithinStrip(s: string, w: string, i: int)
    requires Phrase(w) && OccursAt(Lower(s), w, i)
    ensures StripBounds(s).0 <= i && i + |w| <= StripBounds(s).1
  {
    var b := StripBounds(s);
    assert Lower(s)[i] == w[0];
    assert !IsSpace(s[i]);
    assert Lower(s)[i + |w| - 1] == w[|w| - 1];
    assert !IsSpace(s[i + |w| - 1]);
  }

  /** An occurrence of a phrase in the lower-cased utterance survives stripping. */
  lemma PhraseSurvivesStrip(s: string, w: string, i: int)
    requires Phrase(w) && OccursAt(Lower(s), w, i)
    ensures OccursAt(Normalize(s), w, i - StripBounds(s).0)
  {
    var b := StripBounds(s);
    PhraseWithinStrip(s, w, i);
    NormalizeIsSlice(s);
    OccursInSlice(Lower(s), w, b.0, b.1, i - b.0);
  }

  /** An occurrence in the stripped text is one in the whole lower-cased text. */
  lemma StrippedOccurrence(s: string, w: string, i: int)
    requires OccursAt(Normalize(s), w, i)
    ensures OccursAt(Lower(s), w, StripBounds(s).0 + i)
  {
    var b := StripBounds(s);
    NormalizeIsSlice(s);
    OccursInSlice(Lower(s), w, b.0, b.1, i);
  }

  /** Stripping and lower-casing do not change whether a keyword occurs,
      as long as the keyword does not start or end with whitespace: the
      keyword tests of the handlers see what a case-insensitive search of the
      raw utterance sees. */
  lemma NormalizeKeepsPhrase(s: string, w: string)
    requires Phrase(w)
    ensures Contains(Normalize(s), w) <==> Contains(Lower(s), w)
  {
    if Contains(Lower(s), w) {
      var i :| 0 <= i <= |Lower(s)| - |w| && OccursAt(Lower(s), w, i);
      PhraseSurvivesStrip(s, w, i);
      assert 0 <= i - StripBounds(s).0 <= |Normalize(s)| - |w|;
    }
    if Contains(Normalize(s), w) {
      var i :| 0 <= i <= |Normalize(s)| - |w| && OccursAt(Normalize(s), w, i);
      StrippedOccurrence(s, w, i);
      assert 0 <= StripBounds(s).0 + i <= |Lower(s)| - |w|;
    }
  }

  /** An utterance that contains a keyword has a visible character. */
  lemma PhraseMakesVisible(s: string, w: string)
    requires Phrase(w) && Contains(s, w)
    ensures HasVisible(s)
  {
    var i :| 0 <= i <= |s| - |w| && OccursAt(s, w, i);
    assert s[i] == w[0];
  }

  /** Nothing but the empty string occurs in the empty string. */
  lemma EmptyContainsNothing(w: string)
    requires 0 < |w|
    ensures !Contains("", w)
  {
  }

  /** The length of the run of visible characters that opens s. */
  function WordLength(s: string): (n: nat)
    ensures n <= |s|
    ensures forall j :: 0 <= j < n ==> !IsSpace(s[j])
    ensures n < |s| ==> IsSpace(s[n])
  {
    if |s| > 0 && !IsSpace(s[0]) then 1 + WordLength(s[1..]) else 0
  }

  /** A token of str.split(): non-empty and free of whitespace. */
  predicate Word(w: string)
  {
    0 < |w| && forall j :: 0 <= j < |w| ==> !IsSpace(w[j])
  }

  /** str.split() with no argument: the maximal runs of visible characters of s,
      in order; empty exactly when s is all whitespace. */
  function Split(s: string): (words: seq<string>)
    ensures forall k :: 0 <= k < |words| ==> Word(words[k])
    ensures |words| == 0 <==> !HasVisible(s)
    decreases |s|
  {
    var start := LeadingSpaces(s);
    var rest := s[start..];
    if rest == [] then
      assert !HasVisible(s) by {
        forall j | 0 <= j < |s| ensures IsSpace(s[j]) { }
      }
      []
    else
      var n := WordLength(rest);
      assert HasVisible(s) by { assert !IsSpace(s[start]); }
      [rest[..n]] + Split(rest[n..])
  }

  /** On an utterance with a visible character, split() begins with the run of
      visible characters that follows the leading whitespace. */
  lemma SplitHead(s: string)
    requires HasVisible(s)
    ensures LeadingSpaces(s) < |s|
    ensures 0 < |Split(s)| && Split(s)[0] == s[LeadingSpaces(s)..][..WordLength(s[LeadingSpaces(s)..])]
  {
    var j :| 0 <= j < |s| && !IsSpace(s[j]);
    assert LeadingSpaces(s) <= j;
  }

  /** `s.split()[0]` exists whenever s has a visible character, and it is the
      first maximal run of visible characters: only whitespace comes before it,
      and it is followed by whitespace or by the end of s. */
  lemma {:induction false} FirstWord(s: string)
    requires HasVisible(s)
    ensures 0 < |Split(s)|
    ensures var a, w := LeadingSpaces(s), Split(s)[0];
      && a + |w| <= |s|
      && (forall j :: 0 <= j < a ==> IsSpace(s[j]))
      && s[a..a + |w|] == w
      && (a + |w| == |s| || IsSpace(s[a + |w|]))
  {
    SplitHead(s);
    var a := LeadingSpaces(s);
    var rest := s[a..];
    var n := WordLength(rest);
    assert s[a..a + n] == rest[..n];
    assert n < |rest| ==> s[a + n] == rest[n];
  }
}
