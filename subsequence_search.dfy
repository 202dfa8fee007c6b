/**
  Finance/SubsequenceSearch.swift: `String.isSubsequence(of:)`, a
  case-insensitive subsequence test walking both strings once.
*/
module SubsequenceSearch {
  import opened Text

  /** Greedy matching: `s` is found in `o` taking each match at the earliest place. */
  predicate Matches(s: string, o: string) {
    if s == [] then true
    else if o == [] then false
    else if Lower(s[0]) == Lower(o[0]) then Matches(s[1..], o[1..])
    else Matches(s, o[1..])
  }

  /**
    The reference definition: `f` picks, for each character of `s`, a position
    of `o` holding the same character up to case, at strictly increasing positions.
  */
  ghost predicate IsEmbedding(f: seq<nat>, s: string, o: string) {
    |f| == |s|
    && (forall k :: 0 <= k < |f| ==> f[k] < |o| && Lower(s[k]) == Lower(o[f[k]]))
    && (forall i, j :: 0 <= i < j < |f| ==> f[i] < f[j])
  }

  ghost predicate IsSubsequenceCI(s: string, o: string) {
    exists f :: IsEmbedding(f, s, o)
  }

  function Shift(f: seq<nat>): (g: seq<nat>)
    ensures |g| == |f|
    ensures forall k :: 0 <= k < |f| ==> g[k] == f[k] + 1
  {
    seq(|f|, k requires 0 <= k < |f| => f[k] + 1)
  }

  function Unshift(f: seq<nat>): (g: seq<nat>)
    requires forall k :: 0 <= k < |f| ==> f[k] >= 1
    ensures |g| == |f|
    ensures forall k :: 0 <= k < |f| ==> g[k] == f[k] - 1
  {
    seq(|f|, k requires 0 <= k < |f| => f[k] - 1)
  }

  /** The positions the greedy walk matches. */
  ghost function GreedyEmbedding(s: string, o: string): (f: seq<nat>)
    requires Matches(s, o)
    ensures IsEmbedding(f, s, o)
  {
    if s == [] then []
    else if Lower(s[0]) == Lower(o[0]) then
      var g := GreedyEmbedding(s[1..], o[1..]);
      MatchFirst(g, s, o);
      [0] + Shift(g)
    else
      var g := GreedyEmbedding(s, o[1..]);
      SkipFirst(g, s, o);
      Shift(g)
  }

  /** Matching the first characters extends an embedding of the tails. */
  lemma MatchFirst(g: seq<nat>, s: string, o: string)
    requires s != [] && o != [] && Lower(s[0]) == Lower(o[0]) && IsEmbedding(g, s[1..], o[1..])
    ensures IsEmbedding([0] + Shift(g), s, o)
  {
    var f := [0] + Shift(g);
    forall k | 1 <= k < |f|
      ensures f[k] < |o| && Lower(s[k]) == Lower(o[f[k]])
    {
      assert f[k] == g[k - 1] + 1;
      assert s[k] == s[1..][k - 1];
      assert o[f[k]] == o[1..][g[k - 1]];
    }
  }

  /** Skipping the first character of `o` shifts an embedding into its tail. */
  lemma SkipFirst(g: seq<nat>, s: string, o: string)
    requires o != [] && IsEmbedding(g, s, o[1..])
    ensures IsEmbedding(Shift(g), s, o)
  {
    var f := Shift(g);
    forall k | 0 <= k < |f|
      ensures f[k] < |o| && Lower(s[k]) == Lower(o[f[k]])
    {
      assert o[f[k]] == o[1..][g[k]];
    }
  }

  /** Any embedding lets the greedy walk succeed. */
  lemma {:induction false} EmbeddingMatches(f: seq<nat>, s: string, o: string)
    requires IsEmbedding(f, s, o)
    ensures Matches(s, o)
    decreases |o|
  {
    if s != [] {
      if Lower(s[0]) == Lower(o[0]) {
        var g := Unshift(f[1..]);
        assert IsEmbedding(g, s[1..], o[1..]) by {
          forall k | 0 <= k < |g|
            ensures g[k] < |o[1..]| && Lower(s[1..][k]) == Lower(o[1..][g[k]])
          {
            assert f[k + 1] >= 1;
          }
        }
        EmbeddingMatches(g, s[1..], o[1..]);
      } else {
        assert f[0] != 0;
        var g := Unshift(f);
        assert IsEmbedding(g, s, o[1..]) by {
          forall k | 0 <= k < |g|
            ensures g[k] < |o[1..]| && Lower(s[k]) == Lower(o[1..][g[k]])
          {
            assert f[k] >= f[0];
          }
        }
        EmbeddingMatches(g, s, o[1..]);
      }
    }
  }

  /** The greedy walk is exactly case-insensitive subsequence. */
  lemma MatchesIffSubsequence(s: string, o: string)
    ensures Matches(s, o) <==> IsSubsequenceCI(s, o)
  {
    if Matches(s, o) {
      var f := GreedyEmbedding(s, o);
    }
    if IsSubsequenceCI(s, o) {
      var f :| IsEmbedding(f, s, o);
      EmbeddingMatches(f, s, o);
    }
  }

  /** A subsequence is never longer than the string that contains it. */
  lemma {:induction false} MatchesLength(s: string, o: string)
    requires Matches(s, o)
    ensures |s| <= |o|
  {
    if s != [] {
      if Lower(s[0]) == Lower(o[0]) {
        MatchesLength(s[1..], o[1..]);
      } else {
        MatchesLength(s, o[1..]);
      }
    }
  }

  /** Every string is a subsequence of itself. */
  lemma {:induction false} MatchesSelf(s: string)
    ensures Matches(s, s)
  {
    if s != [] {
      MatchesSelf(s[1..]);
    }
  }

  /** The tail of a string past a matched prefix position. */
  lemma MatchesStep(s: string, o: string, i: nat, m: nat)
    requires i < |s| && m < |o|
    ensures Matches(s[i..], o[m..]) ==
      if Lower(s[i]) == Lower(o[m]) then Matches(s[i + 1..], o[m + 1..]) else Matches(s[i..], o[m + 1..])
  {
    assert s[i..][0] == s[i] && s[i..][1..] == s[i + 1..];
    assert o[m..][0] == o[m] && o[m..][1..] == o[m + 1..];
  }

  /** `isSubsequence(of:)`: an empty receiver is found anywhere; otherwise one pass over `other`. */
  method IsSubsequence(self: string, other: string) returns (found: bool)
    ensures found == Matches(self, other)
    ensures found <==> IsSubsequenceCI(self, other)
    ensures |self| > |other| ==> !found
  {
    MatchesIffSubsequence(self, other);
    if |self| > |other| && Matches(self, other) {
      MatchesLength(self, other);
    }
    if self == [] {
      return true;
    }
    var strIndex := 0;
    var matchIndex := 0;
    while matchIndex < |other|
      invariant 0 <= strIndex < |self|
      invariant 0 <= matchIndex <= |other|
      invariant Matches(self, other) == Matches(self[strIndex..], other[matchIndex..])
      decreases |other| - matchIndex
    {
      MatchesStep(self, other, strIndex, matchIndex);
      if Lower(self[strIndex]) == Lower(other[matchIndex]) {
        strIndex := strIndex + 1;
        if strIndex == |self| {
          return true;
        }
      }
      matchIndex := matchIndex + 1;
    }
    return false;
  }
}
