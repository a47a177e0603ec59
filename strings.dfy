/** The handful of Python `str` operations the packaging scripts use, on
    `seq<char>`: `startswith`, `endswith`, `in`, single-character
    `replace` and `strip`. */
module Strings {

  predicate StartsWith(s: string, prefix: string) {
    |prefix| <= |s| && s[..|prefix|] == prefix
  }

  predicate EndsWith(s: string, suffix: string) {
    |suffix| <= |s| && s[|s| - |suffix|..] == suffix
  }

  /** Python's `p in s`: `p` occurs in `s` at some position (the empty
      string occurs everywhere). */
  predicate Contains(s: string, p: string)
    decreases |s|
  {
    StartsWith(s, p) || (|s| > 0 && Contains(s[1..], p))
  }

  /** `p` occurs in `s` starting at offset `i`. */
  predicate OccursAt(s: string, p: string, i: int) {
    0 <= i <= |s| - |p| && s[i..i + |p|] == p
  }

  /** `Contains` is exactly "occurs at some offset". */
  lemma {:induction false} ContainsAt(s: string, p: string)
    ensures Contains(s, p) <==> exists i :: OccursAt(s, p, i)
    decreases |s|
  {
    if StartsWith(s, p) {
      assert OccursAt(s, p, 0);
    }
    if |s| > 0 {
      ContainsAt(s[1..], p);
      if Contains(s[1..], p) {
        var i :| OccursAt(s[1..], p, i);
        assert s[i + 1..i + 1 + |p|] == s[1..][i..i + |p|];
        assert OccursAt(s, p, i + 1);
      }
      if exists i :: OccursAt(s, p, i) {
        var i :| OccursAt(s, p, i);
        if i > 0 {
          assert s[1..][i - 1..i - 1 + |p|] == s[i..i + |p|];
          assert OccursAt(s[1..], p, i - 1);
        }
      }
    }
  }

  /** A prefix is an occurrence. */
  lemma StartsWithContains(s: string, p: string)
    requires StartsWith(s, p)
    ensures Contains(s, p)
  {
  }

  /** `s.replace(a, b)` for single characters: every `a` becomes `b`, every
      other character stays, and the length is unchanged. */
  function ReplaceChar(s: string, a: char, b: char): (r: string)
    ensures |r| == |s|
    ensures forall i :: 0 <= i < |s| ==> r[i] == (if s[i] == a then b else s[i])
  {
    if |s| == 0 then [] else [if s[0] == a then b else s[0]] + ReplaceChar(s[1..], a, b)
  }

  /** After the replacement no `a` is left, and a second replacement is a
      no-op. */
  lemma ReplaceCharRemoves(s: string, a: char, b: char)
    requires a != b
    ensures a !in ReplaceChar(s, a, b)
    ensures ReplaceChar(ReplaceChar(s, a, b), a, b) == ReplaceChar(s, a, b)
  {
    var r := ReplaceChar(s, a, b);
    assert forall i :: 0 <= i < |r| ==> r[i] != a;
  }

  /** Replacement distributes over concatenation. */
  lemma ReplaceCharAppend(s: string, t: string, a: char, b: char)
    ensures ReplaceChar(s + t, a, b) == ReplaceChar(s, a, b) + ReplaceChar(t, a, b)
  {
    var l, r := ReplaceChar(s + t, a, b), ReplaceChar(s, a, b) + ReplaceChar(t, a, b);
    assert |l| == |r|;
    forall i | 0 <= i < |l|
      ensures l[i] == r[i]
    {
      if i < |s| {
        assert (s + t)[i] == s[i];
      } else {
        assert (s + t)[i] == t[i - |s|];
      }
    }
  }

  /** Replacement keeps a prefix a prefix and a suffix a suffix. */
  lemma ReplaceCharAffixes(s: string, t: string, a: char, b: char)
    ensures StartsWith(s, t) ==> StartsWith(ReplaceChar(s, a, b), ReplaceChar(t, a, b))
    ensures EndsWith(s, t) ==> EndsWith(ReplaceChar(s, a, b), ReplaceChar(t, a, b))
  {
    var rs, rt := ReplaceChar(s, a, b), ReplaceChar(t, a, b);
    if StartsWith(s, t) {
      forall i | 0 <= i < |t| ensures rs[i] == rt[i] { assert s[i] == t[i]; }
      assert rs[..|t|] == rt;
    }
    if EndsWith(s, t) {
      var k := |s| - |t|;
      forall i | 0 <= i < |t| ensures rs[k + i] == rt[i] { assert s[k + i] == t[i]; }
      assert rs[k..] == rt;
    }
  }

  /** A string without `a` is left as it is. */
  lemma ReplaceCharAbsent(s: string, a: char, b: char)
    requires a !in s
    ensures ReplaceChar(s, a, b) == s
  {
    var r := ReplaceChar(s, a, b);
    assert forall i :: 0 <= i < |s| ==> r[i] == s[i];
  }

  /** The ASCII characters `str.strip()` removes: blank, tab, line feed,
      carriage return, vertical tab, form feed and the separators 0x1c-0x1f. */
  predicate IsSpace(c: char) {
    c == ' ' || c == '\t' || c == '\n' || c == '\r' || c == 11 as char || c == 12 as char
    || (28 as char <= c <= 31 as char)
  }

  function StripLeft(s: string): (r: string)
    ensures |r| <= |s| && r == s[|s| - |r|..]
    ensures |r| > 0 ==> !IsSpace(r[0])
    ensures forall i :: 0 <= i < |s| - |r| ==> IsSpace(s[i])
  {
    if |s| > 0 && IsSpace(s[0]) then StripLeft(s[1..]) else s
  }

  function StripRight(s: string): (r: string)
    ensures |r| <= |s| && r == s[..|r|]
    ensures |r| > 0 ==> !IsSpace(r[|r| - 1])
    ensures forall i :: |r| <= i < |s| ==> IsSpace(s[i])
  {
    if |s| > 0 && IsSpace(s[|s| - 1]) then StripRight(s[..|s| - 1]) else s
  }

  /** `s.strip()`: the longest slice of `s` with no leading or trailing
      whitespace; only whitespace is dropped from the two ends. */
  function Strip(s: string): (r: string)
    ensures |r| > 0 ==> !IsSpace(r[0]) && !IsSpace(r[|r| - 1])
    ensures exists k :: TrimmedAt(s, r, k)
  {
    var l := StripLeft(s);
    var r := StripRight(l);
    var k := |s| - |l|;
    assert TrimmedAt(s, r, k);
    r
  }

  /** `r` is `s` from offset `k` on with only whitespace around it. */
  predicate TrimmedAt(s: string, r: string, k: int) {
    && 0 <= k <= |s| - |r| && r == s[k..k + |r|]
    && (forall i :: 0 <= i < k ==> IsSpace(s[i]))
    && (forall i :: k + |r| <= i < |s| ==> IsSpace(s[i]))
  }
}
