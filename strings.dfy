/**
 * The handful of Python `str` operations the pipeline relies on:
 * `rfind`, `startswith`, `lower` and the whitespace test behind `split`.
 */
module Strings {

  /** `s.rfind(c)`: the index of the last occurrence of `c` in `s`, or -1. */
  function RFind(s: string, c: char): (i: int)
    ensures -1 <= i < |s|
    ensures i >= 0 ==> s[i] == c
    ensures forall j :: i < j < |s| ==> s[j] != c
  {
    if |s| == 0 then -1
    else if s[|s| - 1] == c then |s| - 1
    else RFind(s[..|s| - 1], c)
  }

  /** The two postconditions of RFind pin its result down: any index with them is RFind's. */
  lemma RFindUnique(s: string, c: char, i: int)
    requires -1 <= i < |s|
    requires i >= 0 ==> s[i] == c
    requires forall j :: i < j < |s| ==> s[j] != c
    ensures RFind(s, c) == i
  {
  }

  /** Appending text that contains `c` moves the last occurrence into the appended part. */
  lemma RFindAppendHit(s: string, t: string, c: char)
    requires c in t
    ensures RFind(s + t, c) == |s| + RFind(t, c)
  {
    var k := RFind(t, c);
    RFindUnique(s + t, c, |s| + k);
  }

  /** Appending text without `c` leaves the last occurrence where it was. */
  lemma RFindAppendMiss(s: string, t: string, c: char)
    requires c !in t
    ensures RFind(s + t, c) == RFind(s, c)
  {
    var k := RFind(s, c);
    forall j | k < j < |s + t|
      ensures (s + t)[j] != c
    {
      if j >= |s| {
        assert (s + t)[j] == t[j - |s|];
      }
    }
    RFindUnique(s + t, c, k);
  }

  /** `s.startswith(p)`. */
  predicate StartsWith(s: string, p: string) {
    |p| <= |s| && s[..|p|] == p
  }

  /** `str.lower()` restricted to ASCII letters; other characters are left as they are. */
  function LowerChar(c: char): (d: char)
    ensures 'A' <= c <= 'Z' ==> 'a' <= d <= 'z'
    ensures !('A' <= c <= 'Z') ==> d == c
  {
    if 'A' <= c <= 'Z' then (c as int + 32) as char else c
  }

  function Lower(s: string): (r: string)
    ensures |r| == |s|
    ensures forall i :: 0 <= i < |s| ==> r[i] == LowerChar(s[i])
  {
    seq(|s|, i requires 0 <= i < |s| => LowerChar(s[i]))
  }

  /** Python's `str.isspace` for one character: the separators `str.split()` cuts at. */
  predicate IsSpace(c: char) {
    c == ' ' || '\t' <= c <= '\r' || '\U{1c}' <= c <= '\U{1f}' || c == '\U{85}' || c == '\U{a0}'
    || c == '\U{1680}' || '\U{2000}' <= c <= '\U{200a}' || c == '\U{2028}' || c == '\U{2029}'
    || c == '\U{202f}' || c == '\U{205f}' || c == '\U{3000}'
  }
}
