/** Byte strings and substring search. A C++ `char` is a Dafny `char`; the claims that
    depend on a byte being below 256 say so. */
module Bytes {

  datatype Option<+T> = None | Some(value: T)

  predicate MatchAt(s: string, p: string, i: nat)
  {
    i + |p| <= |s| && s[i..i + |p|] == p
  }

  predicate Contains(s: string, p: string)
  {
    exists i: nat | i <= |s| :: MatchAt(s, p, i)
  }

  /** memmem and string_view::find from position `i`: the least match, or -1. */
  function FindFrom(s: string, p: string, i: nat): (r: int)
    requires i <= |s|
    ensures r == -1 || (i <= r <= |s| && MatchAt(s, p, r))
    ensures forall k: nat :: i <= k && (r == -1 || k < r) ==> !MatchAt(s, p, k)
    decreases |s| - i
  {
    if MatchAt(s, p, i) then i
    else if i == |s| then -1
    else FindFrom(s, p, i + 1)
  }

  function Find(s: string, p: string): (r: int)
    ensures r == -1 || (0 <= r <= |s| && MatchAt(s, p, r))
    ensures forall k: nat :: r == -1 || k < r ==> !MatchAt(s, p, k)
    ensures r == -1 <==> !Contains(s, p)
  {
    FindFrom(s, p, 0)
  }

  /** The least match is the only index with its two properties. */
  lemma FindIs(s: string, p: string, i: nat)
    requires MatchAt(s, p, i)
    requires forall k: nat :: k < i ==> !MatchAt(s, p, k)
    ensures Find(s, p) == i
  {
    assert i <= |s|;
  }

  lemma FindNone(s: string, p: string)
    requires forall k: nat :: k <= |s| ==> !MatchAt(s, p, k)
    ensures Find(s, p) == -1
  {
  }

  lemma MatchAtExtend(s: string, t: string, p: string, i: nat)
    requires i + |p| <= |s|
    ensures MatchAt(s + t, p, i) <==> MatchAt(s, p, i)
  {
    assert (s + t)[i..i + |p|] == s[i..i + |p|];
  }

  /** Bytes arriving later never move the first match. */
  lemma FindExtend(s: string, t: string, p: string)
    requires Find(s, p) >= 0
    ensures Find(s + t, p) == Find(s, p)
  {
    var i := Find(s, p);
    forall k: nat | k <= i ensures MatchAt(s + t, p, k) <==> MatchAt(s, p, k) {
      MatchAtExtend(s, t, p, k);
    }
    FindIs(s + t, p, i);
  }

  /** A one-byte pattern matches where that byte is. */
  lemma MatchByte(s: string, c: char, i: nat)
    ensures MatchAt(s, [c], i) <==> i < |s| && s[i] == c
  {
    if i < |s| { assert s[i..i + 1] == [s[i]]; }
  }

  lemma FindByteIs(s: string, c: char, i: nat)
    requires i < |s| && s[i] == c && c !in s[..i]
    ensures Find(s, [c]) == i
  {
    forall k: nat | k <= i ensures MatchAt(s, [c], k) <==> s[k] == c {
      MatchByte(s, c, k);
    }
    forall k: nat | k < i ensures !MatchAt(s, [c], k) {
      assert s[..i][k] == s[k];
    }
    FindIs(s, [c], i);
  }

  lemma FindByteNone(s: string, c: char)
    ensures Find(s, [c]) == -1 <==> c !in s
  {
    forall k: nat | k <= |s| ensures MatchAt(s, [c], k) <==> k < |s| && s[k] == c {
      MatchByte(s, c, k);
    }
  }

  lemma FindByteFound(s: string, c: char)
    requires c in s
    ensures 0 <= Find(s, [c]) < |s| && s[Find(s, [c])] == c && c !in s[..Find(s, [c])]
  {
    FindByteNone(s, c);
    var i := Find(s, [c]);
    MatchByte(s, c, i);
    forall k: nat | k < i ensures s[k] != c { MatchByte(s, c, k); }
  }
}
