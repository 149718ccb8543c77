/**
  The string operations the dispatcher applies to an inbound message:
  Python's `str.lower()`, `str.strip()` (no argument) and the substring test
  `needle in haystack`.
 */
module Text {

  /** Python's `str.isspace()` for one character: the characters that a
      bare `strip()` removes. */
  predicate IsSpace(c: char)
    ensures IsSpace(c) ==> !('A' <= c <= 'Z') && !('a' <= c <= 'z')
  {
    || c == ' ' || ('\t' <= c <= '\r')
    || ('\U{1C}' <= c <= '\U{1F}')
    || c == '\U{85}' || c == '\U{A0}' || c == '\U{1680}'
    || ('\U{2000}' <= c <= '\U{200A}')
    || c == '\U{2028}' || c == '\U{2029}' || c == '\U{202F}'
    || c == '\U{205F}' || c == '\U{3000}'
  }

  /** Lower-cases one character (ASCII letters only). */
  function LowerChar(c: char): (d: char)
    ensures 'A' <= c <= 'Z' ==> 'a' <= d <= 'z' && d as int - 'a' as int == c as int - 'A' as int
    ensures !('A' <= c <= 'Z') ==> d == c
    ensures IsSpace(d) == IsSpace(c)
  {
    if 'A' <= c <= 'Z' then (c as int - 'A' as int + 'a' as int) as char else c
  }

  /** `s.lower()`: every character lower-cased, nothing added or removed. */
  function Lower(s: string): (r: string)
    ensures |r| == |s|
    ensures forall k :: 0 <= k < |s| ==> r[k] == LowerChar(s[k])
    ensures forall k :: 0 <= k < |r| ==> !('A' <= r[k] <= 'Z')
    ensures forall k :: 0 <= k < |r| ==> (IsSpace(r[k]) <==> IsSpace(s[k]))
  {
    seq(|s|, k requires 0 <= k < |s| => LowerChar(s[k]))
  }

  /** The number of whitespace characters at the front of `s`. */
  function LeadingSpaces(s: string): (n: nat)
    ensures n <= |s|
    ensures forall k :: 0 <= k < n ==> IsSpace(s[k])
    ensures n < |s| ==> !IsSpace(s[n])
  {
    if |s| > 0 && IsSpace(s[0]) then 1 + LeadingSpaces(s[1..]) else 0
  }

  /** The number of whitespace characters at the back of `s`. */
  function TrailingSpaces(s: string): (n: nat)
    ensures n <= |s|
    ensures forall k :: |s| - n <= k < |s| ==> IsSpace(s[k])
    ensures n < |s| ==> !IsSpace(s[|s| - 1 - n])
  {
    if |s| > 0 && IsSpace(s[|s| - 1]) then 1 + TrailingSpaces(s[..|s| - 1]) else 0
  }

  /** `s.strip()`: `s` without its leading and trailing whitespace. */
  function Strip(s: string): (r: string)
    ensures |r| <= |s|
    ensures r == "" || (!IsSpace(r[0]) && !IsSpace(r[|r| - 1]))
    ensures r == "" <==> forall k :: 0 <= k < |s| ==> IsSpace(s[k])
  {
    var t := s[LeadingSpaces(s)..];
    var r := t[..|t| - TrailingSpaces(t)];
    r
  }

  /** Strip keeps exactly one contiguous slice of `s`, and everything it cuts
      away on either side is whitespace. */
  lemma StripIsSlice(s: string)
    ensures var i := LeadingSpaces(s);
      && i + |Strip(s)| <= |s|
      && Strip(s) == s[i..i + |Strip(s)|]
      && (forall k :: 0 <= k < i ==> IsSpace(s[k]))
      && (forall k :: i + |Strip(s)| <= k < |s| ==> IsSpace(s[k]))
  {
    var i := LeadingSpaces(s);
    var t := s[i..];
    var j := |t| - TrailingSpaces(t);
    assert Strip(s) == t[..j];
    assert t[..j] == s[i..i + j];
    forall k | i + j <= k < |s| ensures IsSpace(s[k]) {
      assert s[k] == t[k - i];
    }
  }

  /** Stripping twice is stripping once. */
  lemma StripIdempotent(s: string)
    ensures Strip(Strip(s)) == Strip(s)
  {
    var r := Strip(s);
    if r != "" {
      assert LeadingSpaces(r) == 0;
      assert TrailingSpaces(r) == 0;
    }
  }

  /** `w` occurs in `s` starting at index `i`. */
  predicate OccursAt(s: string, w: string, i: int)
  {
    0 <= i && i + |w| <= |s| && s[i..i + |w|] == w
  }

  /** Python's `w in s`: `w` is a substring of `s` (the empty string is a
      substring of every string). */
  function Contains(s: string, w: string): (b: bool)
    ensures b <==> exists i :: OccursAt(s, w, i)
  {
    if |w| > |s| then
      assert forall i :: !OccursAt(s, w, i);
      false
    else if s[..|w|] == w then
      assert OccursAt(s, w, 0);
      true
    else
      var b := Contains(s[1..], w);
      assert b ==> exists i :: OccursAt(s, w, i) by {
        if b {
          var i :| OccursAt(s[1..], w, i);
          assert s[i + 1..i + 1 + |w|] == s[1..][i..i + |w|];
          assert OccursAt(s, w, i + 1);
        }
      }
      assert (exists i :: OccursAt(s, w, i)) ==> b by {
        if exists i :: OccursAt(s, w, i) {
          var i :| OccursAt(s, w, i);
          assert i != 0;
          assert s[1..][i - 1..i - 1 + |w|] == s[i..i + |w|];
          assert OccursAt(s[1..], w, i - 1);
        }
      }
      b
  }

  /** A word without whitespace occurs in `s` exactly when it occurs in
      `Strip(s)`: for such a word, stripping before the test changes nothing. */
  lemma ContainsIgnoresStrip(s: string, w: string)
    requires w != ""
    requires forall k :: 0 <= k < |w| ==> !IsSpace(w[k])
    ensures Contains(Strip(s), w) <==> Contains(s, w)
  {
    var i := LeadingSpaces(s);
    var r := Strip(s);
    if Contains(r, w) {
      var p :| OccursAt(r, w, p);
      OccurrenceOutsideStrip(s, w, p);
      assert Contains(s, w);
    }
    if Contains(s, w) {
      var p :| OccursAt(s, w, p);
      OccurrenceInsideStrip(s, w, p);
      assert Contains(r, w);
    }
  }

  /** An occurrence in `Strip(s)` is an occurrence in `s`, shifted by the
      whitespace Strip removed at the front. */
  lemma OccurrenceOutsideStrip(s: string, w: string, p: int)
    requires OccursAt(Strip(s), w, p)
    ensures OccursAt(s, w, LeadingSpaces(s) + p)
  {
    StripBounds(s);
    OccursInSlice(s, Strip(s), LeadingSpaces(s), w, p);
  }

  /** An occurrence of a word without whitespace lies inside the part of `s`
      that Strip keeps. */
  lemma OccurrenceInsideStrip(s: string, w: string, p: int)
    requires w != ""
    requires forall k :: 0 <= k < |w| ==> !IsSpace(w[k])
    requires OccursAt(s, w, p)
    ensures OccursAt(Strip(s), w, p - LeadingSpaces(s))
  {
    var i := LeadingSpaces(s);
    OccurrenceEnds(s, w, p);
    assert i <= p;
    StripKeepsNonSpace(s, p + |w| - 1);
    StripBounds(s);
    OccursInSlice(s, Strip(s), i, w, p - i);
  }

  /** An occurrence of a non-empty word starts with its first character and
      ends with its last. */
  lemma OccurrenceEnds(s: string, w: string, p: int)
    requires w != "" && OccursAt(s, w, p)
    ensures s[p] == w[0] && s[p + |w| - 1] == w[|w| - 1]
  {
    assert s[p..p + |w|][0] == s[p];
    assert s[p..p + |w|][|w| - 1] == s[p + |w| - 1];
  }

  /** Strip's result is the slice of `s` that starts after the leading
      whitespace. */
  lemma StripBounds(s: string)
    ensures LeadingSpaces(s) + |Strip(s)| <= |s|
    ensures Strip(s) == s[LeadingSpaces(s)..LeadingSpaces(s) + |Strip(s)|]
  {
    var i := LeadingSpaces(s);
    var t := s[i..];
    var j := |t| - TrailingSpaces(t);
    assert Strip(s) == t[..j];
  }

  /** A non-space character at or after the leading whitespace is kept by
      Strip: it lies before the trailing whitespace. */
  lemma StripKeepsNonSpace(s: string, q: int)
    requires LeadingSpaces(s) <= q < |s| && !IsSpace(s[q])
    ensures q < LeadingSpaces(s) + |Strip(s)|
  {
    var i := LeadingSpaces(s);
    var t := s[i..];
    assert t[q - i] == s[q];
  }

  /** When `r` is the slice of `s` at `i`, `w` occurs in `r` at `p` exactly
      when it occurs in `s` at `i + p` and fits inside `r`. */
  lemma OccursInSlice(s: string, r: string, i: int, w: string, p: int)
    requires 0 <= i && i + |r| <= |s| && r == s[i..i + |r|]
    ensures OccursAt(r, w, p) <==> 0 <= p && p + |w| <= |r| && OccursAt(s, w, i + p)
  {
    if 0 <= p && p + |w| <= |r| {
      var x := r[p..p + |w|];
      var y := s[i + p..i + p + |w|];
      forall k | 0 <= k < |x| ensures x[k] == y[k] {
        assert r[p + k] == s[i + p + k];
      }
    }
  }
}
