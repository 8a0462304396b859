/** What several models need about sequences. */
module Sequences {

  lemma SplitAt<T>(s: seq<T>, k: nat)
    requires k < |s|
    ensures s == s[..k] + ([s[k]] + s[k + 1..])
  {}

  /** Taking the element at `k` out takes out one occurrence of it. */
  lemma MultisetWithout<T>(s: seq<T>, k: nat)
    requires k < |s|
    ensures multiset(s[..k] + s[k + 1..]) == multiset(s) - multiset{s[k]}
  {
    assert s == s[..k] + ([s[k]] + s[k + 1..]);
  }

  /** An element that moves to the front of what is before it. */
  lemma MultisetMoved<T>(head: seq<T>, x: T, before: seq<T>, after: seq<T>)
    ensures multiset(head + ([x] + (before + after))) == multiset(head + (before + ([x] + after)))
  {}

  /** Sequences that agree at every place up to `n` have the same beginning. */
  lemma SamePrefix<T>(s: seq<T>, t: seq<T>, n: nat)
    requires n <= |s| && n <= |t| && forall i :: 0 <= i < n ==> s[i] == t[i]
    ensures s[..n] == t[..n]
  {}

  lemma SameEverywhere<T>(s: seq<T>, t: seq<T>)
    requires |s| == |t| && forall i :: 0 <= i < |s| ==> s[i] == t[i]
    ensures s == t
  {}

  lemma DropOneMore<T>(s: seq<T>, k: nat)
    requires 0 < k <= |s|
    ensures s[k - 1..] != [] && s[k - 1..][0] == s[k - 1] && s[k - 1..][1..] == s[k..]
  {}

  lemma MultisetOfTail<T>(s: seq<T>)
    requires s != []
    ensures multiset(s[1..]) == multiset(s) - multiset{s[0]}
  {
    assert s == [s[0]] + s[1..];
  }

  lemma IndexOf<T>(s: seq<T>, x: T) returns (k: nat)
    requires x in multiset(s)
    ensures k < |s| && s[k] == x
  {
    k :| 0 <= k < |s| && s[k] == x;
  }

  /** What holds of every element holds of a rearrangement's. */
  lemma SameMembers<T>(s: seq<T>, t: seq<T>)
    requires multiset(s) == multiset(t)
    ensures forall i :: 0 <= i < |s| ==> s[i] in t
  {
    forall i | 0 <= i < |s| ensures s[i] in t {
      assert s[i] in multiset(s);
    }
  }
}
