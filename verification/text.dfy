/**
 * The two string operations product search relies on: lower-casing and
 * substring containment (Python's `str.lower()` and `t in s`).
 */
module Text {

  /** Lower-cases one ASCII letter; every other character is left alone. */
  function LowerChar(c: char): char
  {
    if 'A' <= c <= 'Z' then (c as int + 32) as char else c
  }

  /** Lower-cases a string character by character. */
  function Lower(s: string): (r: string)
    ensures |r| == |s|
    ensures forall i :: 0 <= i < |s| ==> r[i] == LowerChar(s[i])
  {
    if |s| == 0 then [] else [LowerChar(s[0])] + Lower(s[1..])
  }

  /** Reference definition: `t` occurs in `s` starting at some position. */
  ghost predicate IsSubstring(t: string, s: string)
  {
    exists i :: 0 <= i <= |s| && t <= s[i..]
  }

  /** Dropping a first character that cannot start the match keeps the answer. */
  lemma SubstringOfTail(t: string, s: string)
    requires |s| > 0 && !(t <= s)
    ensures IsSubstring(t, s) <==> IsSubstring(t, s[1..])
  {
    if IsSubstring(t, s) {
      var i :| 0 <= i <= |s| && t <= s[i..];
      assert i != 0;
      assert s[1..][i - 1..] == s[i..];
    }
    if IsSubstring(t, s[1..]) {
      var j :| 0 <= j <= |s[1..]| && t <= s[1..][j..];
      assert s[1..][j..] == s[j + 1..];
    }
  }

  /** Executable containment test, agreeing with `IsSubstring` on every input. */
  function Contains(s: string, t: string): (b: bool)
    ensures b <==> IsSubstring(t, s)
    decreases |s|
  {
    if t <= s then
      assert s[0..] == s;
      true
    else if |s| == 0 then
      assert forall i :: 0 <= i <= |s| ==> s[i..] == s;
      false
    else
      SubstringOfTail(t, s);
      Contains(s[1..], t)
  }

  /** The empty string occurs in every string, as in Python. */
  lemma EmptyOccursEverywhere(s: string)
    ensures Contains(s, "")
  {
    assert "" <= s[0..];
  }
}
