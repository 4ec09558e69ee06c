/** The few java.lang.String and StringBuilder operations the modelled code relies on. */
module Strings {

  /** `s.contains(t)`: t occurs in s at some position. */
  predicate Contains(s: string, t: string)
    decreases |s|
  {
    |t| <= |s| && (s[..|t|] == t || Contains(s[1..], t))
  }

  /** Witness form of Contains: an occurrence at a given position. */
  lemma {:induction false} ContainsAt(s: string, t: string, i: nat)
    requires i + |t| <= |s| && s[i..i + |t|] == t
    ensures Contains(s, t)
    decreases i
  {
    if i > 0 {
      assert s[1..][i - 1..i - 1 + |t|] == s[i..i + |t|];
      ContainsAt(s[1..], t, i - 1);
    } else {
      assert s[..|t|] == s[i..i + |t|];
    }
  }

  /** t occurs in s starting at position k. */
  predicate OccursAt(s: string, t: string, k: int)
  {
    0 <= k && k + |t| <= |s| && s[k..k + |t|] == t
  }

  /** `s.lastIndexOf(t)`: the greatest position where t occurs in s, or -1. */
  function LastIndexOf(s: string, t: string): (r: int)
    ensures r == -1 || OccursAt(s, t, r)
    ensures forall k :: r < k ==> !OccursAt(s, t, k)
    decreases |s|
  {
    if |s| < |t| then -1
    else if s[|s| - |t|..] == t then |s| - |t|
    else
      var r := LastIndexOf(s[..|s| - 1], t);
      assert forall k :: k < |s| - |t| ==> (OccursAt(s, t, k) <==> OccursAt(s[..|s| - 1], t, k));
      r
  }

  /** A non-empty separator at the end of a string is its last occurrence. */
  lemma TrailingIsLastIndex(p: string, sep: string)
    requires |sep| > 0
    ensures LastIndexOf(p + sep, sep) == |p|
  {
    assert (p + sep)[|p|..] == sep;
  }

  /** `s1 + s2 + ...`: the strings concatenated without anything between them. */
  function Concat(parts: seq<string>): (r: string)
  {
    if parts == [] then "" else Concat(parts[..|parts| - 1]) + parts[|parts| - 1]
  }

  /** The strings joined with `sep` between consecutive ones and nowhere else. */
  function Join(parts: seq<string>, sep: string): (r: string)
  {
    if |parts| == 0 then ""
    else if |parts| == 1 then parts[0]
    else Join(parts[..|parts| - 1], sep) + sep + parts[|parts| - 1]
  }

  /** Every string followed by `sep`, as a StringBuilder that appends `s + sep` each time. */
  function Terminated(parts: seq<string>, sep: string): (r: string)
  {
    if parts == [] then "" else Terminated(parts[..|parts| - 1], sep) + parts[|parts| - 1] + sep
  }

  /** Appending each part with a separator and then cutting the last separator gives the join. */
  lemma {:induction false} TerminatedIsJoinPlusSeparator(parts: seq<string>, sep: string)
    requires |parts| > 0
    ensures Terminated(parts, sep) == Join(parts, sep) + sep
    decreases |parts|
  {
    if |parts| > 1 {
      TerminatedIsJoinPlusSeparator(parts[..|parts| - 1], sep);
    } else {
      assert parts[..0] == [];
    }
  }

  /** The length of a join is the parts' lengths plus one separator between each consecutive pair. */
  lemma {:induction false} JoinLength(parts: seq<string>, sep: string)
    requires |parts| > 0
    ensures |Join(parts, sep)| == |Concat(parts)| + (|parts| - 1) * |sep|
    decreases |parts|
  {
    if |parts| > 1 {
      JoinLength(parts[..|parts| - 1], sep);
      assert parts[..|parts| - 1][..|parts| - 2] == parts[..|parts| - 2];
    } else {
      assert parts[..0] == [];
    }
  }

  /** Where the `i`-th part starts in the join: after the parts before it and one separator after each. */
  function PartOffset(parts: seq<string>, sep: string, i: nat): nat
    requires i <= |parts|
  {
    |Concat(parts[..i])| + i * |sep|
  }

  /** A slice inside the first of two concatenated strings is a slice of that string. */
  lemma SliceLeft(a: string, b: string, x: nat, y: nat)
    requires x <= y <= |a|
    ensures (a + b)[x..y] == a[x..y]
  {
  }

  /** A slice inside the second of two concatenated strings is a slice of that string. */
  lemma SliceRight(a: string, b: string, x: nat, y: nat)
    requires |a| <= x <= y <= |a| + |b|
    ensures (a + b)[x..y] == b[x - |a|..y - |a|]
  {
  }

  /** The `i`-th part sits at its offset in the join, with a separator right before it unless it is the first. */
  predicate PartAt(parts: seq<string>, sep: string, i: nat)
    requires i < |parts|
  {
    var o := PartOffset(parts, sep, i);
    && o + |parts[i]| <= |Join(parts, sep)|
    && Join(parts, sep)[o..o + |parts[i]|] == parts[i]
    && (i > 0 ==> |sep| <= o && Join(parts, sep)[o - |sep|..o] == sep)
  }

  /** Join keeps every part, in order: each part sits at its offset, and a separator
      sits right before every part but the first. */
  lemma {:induction false} JoinParts(parts: seq<string>, sep: string, i: nat)
    requires i < |parts|
    ensures PartAt(parts, sep, i)
    decreases |parts|
  {
    if |parts| == 1 {
      assert parts[..0] == [];
    } else if i < |parts| - 1 {
      JoinParts(parts[..|parts| - 1], sep, i);
      JoinPartsBeforeLast(parts, sep, i);
    } else {
      JoinPartsLast(parts, sep);
    }
  }

  /** A part before the last one sits where it sits in the join of all but the last part. */
  lemma JoinPartsBeforeLast(parts: seq<string>, sep: string, i: nat)
    requires 1 < |parts| && i < |parts| - 1
    requires PartAt(parts[..|parts| - 1], sep, i)
    ensures PartAt(parts, sep, i)
  {
    var init := parts[..|parts| - 1];
    var j := Join(init, sep);
    var last := parts[|parts| - 1];
    var o := PartOffset(parts, sep, i);
    assert Join(parts, sep) == (j + sep) + last;
    assert init[..i] == parts[..i];
    assert PartOffset(init, sep, i) == o;
    SliceLeft(j, sep, o, o + |parts[i]|);
    SliceLeft(j + sep, last, o, o + |parts[i]|);
    if i > 0 {
      SliceLeft(j, sep, o - |sep|, o);
      SliceLeft(j + sep, last, o - |sep|, o);
    }
  }

  /** The last part ends the join, right after a separator. */
  lemma JoinPartsLast(parts: seq<string>, sep: string)
    requires 1 < |parts|
    ensures PartAt(parts, sep, |parts| - 1)
  {
    var n := |parts|;
    var init := parts[..n - 1];
    var j := Join(init, sep);
    var last := parts[n - 1];
    var o := PartOffset(parts, sep, n - 1);
    assert Join(parts, sep) == (j + sep) + last;
    JoinLength(init, sep);
    assert parts[..n - 1] == init;
    assert (n - 2) * |sep| + |sep| == (n - 1) * |sep|;
    assert o == |j| + |sep|;
    SliceRight(j + sep, last, o, o + |last|);
    SliceRight(j, sep, o - |sep|, o);
    SliceLeft(j + sep, last, o - |sep|, o);
  }

  /** Lower-casing of one character (ASCII letters only). */
  function LowerChar(c: char): (r: char)
    ensures 'A' <= c <= 'Z' ==> 'a' <= r <= 'z' && r as int - c as int == 'a' as int - 'A' as int
    ensures !('A' <= c <= 'Z') ==> r == c
  {
    if 'A' <= c <= 'Z' then (c as int - 'A' as int + 'a' as int) as char else c
  }

  /** `s.toLowerCase()` restricted to ASCII letters: same length, no upper-case letter left. */
  function ToLower(s: string): (r: string)
    ensures |r| == |s|
    ensures forall i :: 0 <= i < |s| ==> r[i] == LowerChar(s[i])
  {
    seq(|s|, i requires 0 <= i < |s| => LowerChar(s[i]))
  }

  lemma AppendAssoc<T>(a: seq<T>, b: seq<T>, c: seq<T>)
    ensures a + b + c == a + (b + c)
  {
  }
}
