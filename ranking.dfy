/**
 * Ordering tournament entries the way Python orders them: keys are tuples compared
 * lexicographically, `sorted(..., reverse=True)` is a stable descending sort and
 * `max(..., key=...)` keeps the first of several maximal entries. Tuple entries are
 * exact fractions, so that a win rate `wins / matches` compares by cross-multiplication.
 */
module Ranking {

  /** The fraction `num / den`; every key built here has `den > 0`. */
  datatype Ratio = Ratio(num: int, den: int)

  function Whole(n: int): (r: Ratio)
    ensures r.den == 1 && r.num == n
  {
    Ratio(n, 1)
  }

  /** `a / b if b > 0 else 0`. */
  function RateOf(a: int, b: int): (r: Ratio)
    ensures r.den > 0
    ensures b > 0 ==> r.num * b == a * r.den
    ensures b <= 0 ==> r.num == 0
  {
    if b > 0 then Ratio(a, b) else Ratio(0, 1)
  }

  predicate Less(a: Ratio, b: Ratio)
  {
    a.num * b.den < b.num * a.den
  }

  predicate WellFormed(k: seq<Ratio>)
  {
    forall i :: 0 <= i < |k| ==> k[i].den > 0
  }

  /** Python's `<` on two tuples: the first position whose entries differ decides. */
  predicate KeyLess(a: seq<Ratio>, b: seq<Ratio>)
  {
    |a| > 0 && |b| > 0 && (Less(a[0], b[0]) || (!Less(b[0], a[0]) && KeyLess(a[1..], b[1..])))
  }

  /** Every key `key` produces has `w` well-formed entries. */
  ghost predicate KeyFn<T(!new)>(key: T -> seq<Ratio>, w: nat)
  {
    forall x :: |key(x)| == w && WellFormed(key(x))
  }

  // ----- arithmetic behind cross-multiplication -----

  lemma MulStrict(x: int, y: int, k: int)
    requires k > 0 && x < y
    ensures x * k < y * k
  {
    assert y * k - x * k == (y - x) * k;
  }

  lemma MulCancel(x: int, y: int, k: int)
    requires k > 0 && x * k <= y * k
    ensures x <= y
  {
    if x > y {
      MulStrict(y, x, k);
    }
  }

  lemma MulMono(x: int, y: int, k: int)
    requires k > 0 && x <= y
    ensures x * k <= y * k
  {
    if x < y {
      MulStrict(x, y, k);
    }
  }

  /** `a <= b` and `b <= c` give `a <= c` for fractions with positive denominators. */
  lemma NotLessTrans(a: Ratio, b: Ratio, c: Ratio)
    requires a.den > 0 && b.den > 0 && c.den > 0
    requires !Less(b, a) && !Less(c, b)
    ensures !Less(c, a)
  {
    MulMono(a.num * b.den, b.num * a.den, c.den);
    MulMono(b.num * c.den, c.num * b.den, a.den);
    assert a.num * c.den * b.den <= c.num * a.den * b.den by {
      assert a.num * b.den * c.den == a.num * c.den * b.den;
      assert b.num * a.den * c.den == b.num * c.den * a.den;
      assert c.num * b.den * a.den == c.num * a.den * b.den;
    }
    MulCancel(a.num * c.den, c.num * a.den, b.den);
  }

  // ----- properties of the tuple order -----

  lemma {:induction false} KeyLessIrreflexive(a: seq<Ratio>)
    ensures !KeyLess(a, a)
  {
    if |a| > 0 {
      KeyLessIrreflexive(a[1..]);
    }
  }

  lemma {:induction false} KeyLessAsymmetric(a: seq<Ratio>, b: seq<Ratio>)
    requires KeyLess(a, b)
    ensures !KeyLess(b, a)
  {
    if !Less(a[0], b[0]) {
      KeyLessAsymmetric(a[1..], b[1..]);
    }
  }

  /**
   * The tuple order is a strict weak order: "not less" is transitive, which is what makes a
   * sorted list sorted pairwise and not only between neighbours.
   */
  lemma {:induction false} KeyNotLessTrans(a: seq<Ratio>, b: seq<Ratio>, c: seq<Ratio>)
    requires |a| == |b| == |c| && WellFormed(a) && WellFormed(b) && WellFormed(c)
    requires !KeyLess(b, a) && !KeyLess(c, b)
    ensures !KeyLess(c, a)
  {
    if |a| > 0 && KeyLess(c, a) {
      NotLessTrans(a[0], b[0], c[0]);
      if !Less(c[0], a[0]) {
        NotLessTrans(b[0], c[0], a[0]);
        NotLessTrans(c[0], a[0], b[0]);
        assert WellFormed(a[1..]) && WellFormed(b[1..]) && WellFormed(c[1..]) by {
          assert forall i :: 0 <= i < |a| - 1 ==>
            (a[1..][i] == a[i + 1] && b[1..][i] == b[i + 1] && c[1..][i] == c[i + 1]);
        }
        KeyNotLessTrans(a[1..], b[1..], c[1..]);
      }
    }
  }

  // ----- sorted(…, key=key, reverse=True) -----

  /** Places `x` after every entry of `s` whose key is not smaller than its own. */
  function InsertDesc<T>(s: seq<T>, x: T, key: T -> seq<Ratio>): (r: seq<T>)
    ensures |r| == |s| + 1 && multiset(r) == multiset(s) + multiset{x}
  {
    if s == [] then [x]
    else if KeyLess(key(s[0]), key(x)) then [x] + s
    else
      assert s == [s[0]] + s[1..];
      [s[0]] + InsertDesc(s[1..], x, key)
  }

  /**
   * Python's `sorted(..., reverse=True)` by `key`: each element is inserted after every one
   * not below it, as the stable sort places it.
   */
  function SortDesc<T(!new)>(xs: seq<T>, key: T -> seq<Ratio>): (r: seq<T>)
    ensures |r| == |xs| && multiset(r) == multiset(xs)
    ensures forall x :: x in r <==> x in xs
  {
    if xs == [] then []
    else
      assert xs == xs[..|xs| - 1] + [xs[|xs| - 1]];
      var r := InsertDesc(SortDesc(xs[..|xs| - 1], key), xs[|xs| - 1], key);
      assert forall x :: x in r <==> x in multiset(r);
      assert forall x :: x in xs <==> x in multiset(xs);
      r
  }

  predicate SortedDesc<T>(s: seq<T>, key: T -> seq<Ratio>)
  {
    forall i, j :: 0 <= i < j < |s| ==> !KeyLess(key(s[i]), key(s[j]))
  }

  /** A head that is not below anything after it extends a sorted list. */
  lemma SortedCons<T>(h: T, t: seq<T>, key: T -> seq<Ratio>)
    requires SortedDesc(t, key)
    requires forall z :: z in t ==> !KeyLess(key(h), key(z))
    ensures SortedDesc([h] + t, key)
  {
    var r := [h] + t;
    forall i, j | 0 <= i < j < |r| ensures !KeyLess(key(r[i]), key(r[j])) {
      assert r[j] == t[j - 1];
      if i > 0 {
        assert r[i] == t[i - 1];
      }
    }
  }

  lemma {:induction false} InsertDescSorted<T(!new)>(s: seq<T>, x: T, key: T -> seq<Ratio>, w: nat)
    requires KeyFn(key, w) && SortedDesc(s, key)
    ensures SortedDesc(InsertDesc(s, x, key), key)
  {
    if s == [] {
    } else if !KeyLess(key(s[0]), key(x)) {
      assert SortedDesc(s[1..], key) by {
        assert forall i :: 0 <= i < |s| - 1 ==> s[1..][i] == s[i + 1];
      }
      InsertDescSorted(s[1..], x, key, w);
      var t := InsertDesc(s[1..], x, key);
      forall z | z in t ensures !KeyLess(key(s[0]), key(z)) {
        assert z in multiset(s[1..]) + multiset{x} by {
          assert z in multiset(t);
        }
        if z != x {
          assert z in s[1..];
          var k :| 0 <= k < |s[1..]| && s[1..][k] == z;
          assert s[k + 1] == z;
        }
      }
      SortedCons(s[0], t, key);
    } else {
      forall z | z in s ensures !KeyLess(key(x), key(z)) {
        var k :| 0 <= k < |s| && s[k] == z;
        if k > 0 {
          assert !KeyLess(key(s[0]), key(s[k]));
        } else {
          KeyLessIrreflexive(key(z));
        }
        KeyLessAsymmetric(key(s[0]), key(x));
        KeyNotLessTrans(key(z), key(s[0]), key(x));
      }
      SortedCons(x, s, key);
    }
  }

  lemma {:induction false} SortDescSorted<T(!new)>(xs: seq<T>, key: T -> seq<Ratio>, w: nat)
    requires KeyFn(key, w)
    ensures SortedDesc(SortDesc(xs, key), key)
  {
    if xs != [] {
      SortDescSorted(xs[..|xs| - 1], key, w);
      InsertDescSorted(SortDesc(xs[..|xs| - 1], key), xs[|xs| - 1], key, w);
    }
  }

  // ----- max(…, key=key) -----

  /** Python's `max`: scans left to right and replaces the best only on a strictly greater key. */
  function MaxOf<T>(xs: seq<T>, key: T -> seq<Ratio>): (m: T)
    requires |xs| > 0
    ensures m in xs
  {
    if |xs| == 1 then xs[0]
    else
      var best := MaxOf(xs[..|xs| - 1], key);
      if KeyLess(key(best), key(xs[|xs| - 1])) then xs[|xs| - 1] else best
  }

  /** The maximum's key is not below any other key, and every entry before it is strictly below. */
  lemma {:induction false} MaxOfIsFirstMaximum<T(!new)>(xs: seq<T>, key: T -> seq<Ratio>, w: nat)
    requires |xs| > 0 && KeyFn(key, w)
    ensures forall y :: y in xs ==> !KeyLess(key(MaxOf(xs, key)), key(y))
    ensures exists i :: (0 <= i < |xs| && xs[i] == MaxOf(xs, key)
      && forall j :: 0 <= j < i ==> KeyLess(key(xs[j]), key(xs[i])))
  {
    var m := MaxOf(xs, key);
    if |xs| == 1 {
      KeyLessIrreflexive(key(xs[0]));
    } else {
      var pre := xs[..|xs| - 1];
      var last := xs[|xs| - 1];
      MaxOfIsFirstMaximum(pre, key, w);
      var best := MaxOf(pre, key);
      var i :| 0 <= i < |pre| && pre[i] == best && forall j :: 0 <= j < i ==> KeyLess(key(pre[j]), key(pre[i]));
      if KeyLess(key(best), key(last)) {
        forall y | y in xs ensures !KeyLess(key(last), key(y)) {
          if y in pre {
            KeyLessAsymmetric(key(best), key(last));
            KeyNotLessTrans(key(y), key(best), key(last));
          } else {
            assert y == last;
            KeyLessIrreflexive(key(last));
          }
        }
        forall j | 0 <= j < |xs| - 1 ensures KeyLess(key(xs[j]), key(last)) {
          assert xs[j] == pre[j];
          assert !KeyLess(key(best), key(xs[j])) by {
            assert xs[j] in pre;
          }
          if !KeyLess(key(xs[j]), key(last)) {
            KeyNotLessTrans(key(last), key(xs[j]), key(best));
          }
        }
        assert xs[|xs| - 1] == m;
      } else {
        forall y | y in xs ensures !KeyLess(key(best), key(y)) {
          if y !in pre {
            assert y == last;
          }
        }
        assert xs[i] == pre[i];
        forall j | 0 <= j < i ensures KeyLess(key(xs[j]), key(xs[i])) {
          assert xs[j] == pre[j];
        }
      }
    }
  }

  /** `sorted(xs, key=key, reverse=True)[0]` is `max(xs, key=key)`. */
  lemma {:induction false} SortDescHeadIsMax<T(!new)>(xs: seq<T>, key: T -> seq<Ratio>)
    requires |xs| > 0
    ensures SortDesc(xs, key)[0] == MaxOf(xs, key)
  {
    if |xs| > 1 {
      SortDescHeadIsMax(xs[..|xs| - 1], key);
    }
  }
}
