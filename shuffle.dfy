/**
 * `random.shuffle`: for `i` from the last index down to 1, swap entry `i` with the entry at
 * a random index `j` in `0..i`. The random source is a parameter: `pick(i) % (i + 1)` is
 * the `j` drawn for position `i`.
 */
module Shuffle {
  import Py

  function Swap<T>(s: seq<T>, i: nat, j: nat): (r: seq<T>)
    requires i < |s| && j < |s|
    ensures |r| == |s| && multiset(r) == multiset(s)
    ensures r[i] == s[j] && r[j] == s[i]
    ensures forall k :: 0 <= k < |s| && k != i && k != j ==> r[k] == s[k]
  {
    s[i := s[j]][j := s[i]]
  }

  function ShuffleDown<T>(s: seq<T>, i: nat, pick: nat -> nat): (r: seq<T>)
    requires i < |s|
    ensures |r| == |s| && multiset(r) == multiset(s)
    ensures forall k :: i < k < |s| ==> r[k] == s[k]
    decreases i
  {
    if i == 0 then s
    else ShuffleDown(Swap(s, i, pick(i) % (i + 1)), i - 1, pick)
  }

  /** The shuffled list holds the same entries, as many times each. */
  function Shuffled<T>(s: seq<T>, pick: nat -> nat): (r: seq<T>)
    ensures |r| == |s| && multiset(r) == multiset(s)
    ensures |s| <= 1 ==> r == s
  {
    if |s| == 0 then s else ShuffleDown(s, |s| - 1, pick)
  }

  /** Shuffling keeps exactly the entries that were there. */
  lemma ShuffledSameMembers<T>(s: seq<T>, pick: nat -> nat, x: T)
    ensures x in Shuffled(s, pick) <==> x in s
  {
    var r := Shuffled(s, pick);
    assert x in r <==> x in multiset(r);
    assert x in s <==> x in multiset(s);
  }

  /** A list without repeated entries stays without repeated entries. */
  lemma ShuffledDistinct<T>(s: seq<T>, pick: nat -> nat)
    requires Py.Distinct(s)
    ensures Py.Distinct(Shuffled(s, pick))
  {
    Py.DistinctByMultiset(s, Shuffled(s, pick));
  }
}
