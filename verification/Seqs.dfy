/** Sequence vocabulary shared by the store, the scheduler and the job pool. */
module Seqs {

  ghost predicate Distinct<T>(s: seq<T>) {
    forall i, j :: 0 <= i < j < |s| ==> s[i] != s[j]
  }

  /** Removal that fills the hole with the last element, as `Vec::swap_remove` does. */
  function SwapRemove<T>(s: seq<T>, i: nat): (r: seq<T>)
    requires i < |s|
    ensures |r| == |s| - 1
    ensures forall k :: 0 <= k < |r| ==> r[k] == if k == i then s[|s| - 1] else s[k]
  {
    if i == |s| - 1 then s[..i] else s[..|s| - 1][i := s[|s| - 1]]
  }

  /** Swap-removal loses exactly the element at `i`. */
  lemma SwapRemoveContents<T>(s: seq<T>, i: nat)
    requires i < |s|
    ensures multiset(SwapRemove(s, i)) == multiset(s) - multiset{s[i]}
  {
    var n := |s| - 1;
    assert s == s[..n] + [s[n]];
    if i < n {
      assert s[..n] == s[..i] + [s[i]] + s[i + 1..n];
      assert SwapRemove(s, i) == s[..i] + [s[n]] + s[i + 1..n];
    }
  }

  /** Removal that keeps the order of the rest. */
  function RemoveAt<T>(s: seq<T>, i: nat): (r: seq<T>)
    requires i < |s|
    ensures |r| == |s| - 1
    ensures forall k :: 0 <= k < |r| ==> r[k] == if k < i then s[k] else s[k + 1]
  {
    s[..i] + s[i + 1..]
  }

  lemma RemoveAtContents<T>(s: seq<T>, i: nat)
    requires i < |s|
    ensures multiset(RemoveAt(s, i)) == multiset(s) - multiset{s[i]}
  {
    assert s == s[..i] + [s[i]] + s[i + 1..];
  }

  lemma RemoveAtKeeps<T>(s: seq<T>, i: nat, x: T)
    requires i < |s| && x in s && x != s[i]
    ensures x in RemoveAt(s, i)
  {
    var k :| 0 <= k < |s| && s[k] == x;
    assert RemoveAt(s, i)[if k < i then k else k - 1] == x;
  }

  function Range(lo: nat, hi: nat): (r: seq<nat>)
    requires lo <= hi
    ensures |r| == hi - lo
    ensures forall k :: 0 <= k < |r| ==> r[k] == lo + k
  {
    seq(hi - lo, k requires 0 <= k => lo + k)
  }

  function Flatten<T>(ss: seq<seq<T>>): seq<T> {
    if ss == [] then [] else Flatten(ss[..|ss| - 1]) + ss[|ss| - 1]
  }

  // Set identities that the loops over columns step through.

  lemma UnionStep<T>(had: set<T>, all: set<T>, todo: set<T>, t: T)
    requires t in todo && todo <= all
    ensures had + (all - todo) + {t} == had + (all - (todo - {t}))
  {
  }

  lemma UnionAssociates<T>(a: set<T>, b: set<T>, c: set<T>)
    ensures a + b + c == a + (b + c)
  {
  }

  lemma UnionEnds<T>(had: set<T>, all: set<T>)
    ensures had + (all - all) == had && had + (all - {}) == had + all
  {
    assert all - {} == all;
  }
}
