/**
 * `itertools.combinations(xs, 2)`: every pair `(xs[i], xs[j])` with `i < j`, ordered by
 * `i` and then by `j`.
 */
module Combinations {
  import opened Py

  function PairsWith<T>(x: T, ys: seq<T>): (r: seq<(T, T)>)
    ensures |r| == |ys| && forall k :: 0 <= k < |ys| ==> r[k] == (x, ys[k])
  {
    if ys == [] then [] else [(x, ys[0])] + PairsWith(x, ys[1..])
  }

  function Pairs<T>(xs: seq<T>): seq<(T, T)>
  {
    if |xs| < 2 then [] else PairsWith(xs[0], xs[1..]) + Pairs(xs[1..])
  }

  /** There are `n * (n - 1) / 2` pairs. */
  lemma {:induction false} PairsCount<T>(xs: seq<T>)
    ensures |Pairs(xs)| * 2 == |xs| * (|xs| - 1)
  {
    if |xs| >= 2 {
      PairsCount(xs[1..]);
    }
  }

  /** A pair occurs exactly when its halves sit at two increasing positions. */
  lemma {:induction false} PairsMembers<T>(xs: seq<T>, a: T, b: T)
    ensures (a, b) in Pairs(xs) <==> exists i, j :: 0 <= i < j < |xs| && xs[i] == a && xs[j] == b
  {
    if |xs| >= 2 {
      var t := xs[1..];
      PairsMembers(t, a, b);
      if (a, b) in Pairs(xs) {
        if (a, b) in PairsWith(xs[0], t) {
          var k :| 0 <= k < |t| && PairsWith(xs[0], t)[k] == (a, b);
          assert xs[0] == a && xs[k + 1] == b;
        } else {
          assert (a, b) in Pairs(t);
          var i, j :| 0 <= i < j < |t| && t[i] == a && t[j] == b;
          assert xs[i + 1] == a && xs[j + 1] == b;
        }
      }
      if exists i, j :: 0 <= i < j < |xs| && xs[i] == a && xs[j] == b {
        var i, j :| 0 <= i < j < |xs| && xs[i] == a && xs[j] == b;
        if i == 0 {
          assert PairsWith(xs[0], t)[j - 1] == (a, b);
        } else {
          assert t[i - 1] == a && t[j - 1] == b;
        }
      }
    }
  }

  /**
   * Over distinct entries, each pair is listed once and never in the reverse order, so
   * every two entries meet exactly once.
   */
  lemma {:induction false} PairsOncePerCouple<T>(xs: seq<T>)
    requires Distinct(xs)
    ensures Distinct(Pairs(xs))
    ensures forall i, j :: 0 <= i < j < |xs| ==> (xs[j], xs[i]) !in Pairs(xs)
  {
    forall i, j | 0 <= i < j < |xs| ensures (xs[j], xs[i]) !in Pairs(xs) {
      PairsMembers(xs, xs[j], xs[i]);
    }
    if |xs| >= 2 {
      var t := xs[1..];
      assert Distinct(t) by {
        assert forall k :: 0 <= k < |t| ==> t[k] == xs[k + 1];
      }
      PairsOncePerCouple(t);
      var h := PairsWith(xs[0], t);
      var r := Pairs(xs);
      assert r == h + Pairs(t);
      forall p, q | 0 <= p < q < |r| ensures r[p] != r[q] {
        if q < |h| {
          assert h[p] == (xs[0], xs[p + 1]) && h[q] == (xs[0], xs[q + 1]);
        } else if p < |h| {
          assert r[p] == (xs[0], xs[p + 1]);
          assert r[q] == Pairs(t)[q - |h|];
          PairsMembers(t, r[q].0, r[q].1);
          var i, j :| 0 <= i < j < |t| && t[i] == r[q].0 && t[j] == r[q].1;
          assert r[q].0 == xs[i + 1] != xs[0];
        } else {
          assert r[p] == Pairs(t)[p - |h|] && r[q] == Pairs(t)[q - |h|];
        }
      }
    }
  }
}
