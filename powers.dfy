/**
 * Powers of two as the tournament code uses them: the `n & (n - 1) == 0` padding test,
 * `math.ceil(math.log2(n))`, `int(math.log2(n))` and `2 ** ceil(log2 n)`.
 * Logarithms are the exact integer ones (see README, "Left out").
 */
module PowersOfTwo {

  function Pow2(k: nat): (r: nat)
    ensures r >= 1
  {
    if k == 0 then 1 else 2 * Pow2(k - 1)
  }

  predicate IsPow2(n: int)
    decreases if n < 0 then 0 else n
  {
    n == 1 || (n > 1 && n % 2 == 0 && IsPow2(n / 2))
  }

  lemma {:induction false} Pow2IsPow2(k: nat)
    ensures IsPow2(Pow2(k))
  {
    if k > 0 {
      Pow2IsPow2(k - 1);
      assert Pow2(k) / 2 == Pow2(k - 1);
    }
  }

  lemma {:induction false} IsPow2Exponent(n: int) returns (k: nat)
    requires IsPow2(n)
    ensures Pow2(k) == n
  {
    if n == 1 {
      k := 0;
    } else {
      var j := IsPow2Exponent(n / 2);
      k := j + 1;
    }
  }

  lemma {:induction false} Pow2Monotone(i: nat, j: nat)
    requires i <= j
    ensures Pow2(i) <= Pow2(j)
  {
    if i < j {
      Pow2Monotone(i, j - 1);
    }
  }

  /** Python's `a & b` on non-negative integers, bit by bit from the least significant end. */
  function BitAnd(a: nat, b: nat): nat
  {
    if a == 0 || b == 0 then 0
    else 2 * BitAnd(a / 2, b / 2) + (if a % 2 == 1 && b % 2 == 1 then 1 else 0)
  }

  /** `n & (n - 1)` for a list length `n`; `0 & -1` is 0 in Python. */
  function LowBitTest(n: nat): nat
  {
    if n == 0 then 0 else BitAnd(n, n - 1)
  }

  lemma {:induction false} BitAndSelf(a: nat)
    ensures BitAnd(a, a) == a
  {
    if a != 0 {
      BitAndSelf(a / 2);
    }
  }

  /** The padding loops stop exactly at the empty list and at powers of two. */
  lemma {:induction false} LowBitTestZero(n: nat)
    ensures LowBitTest(n) == 0 <==> n == 0 || IsPow2(n)
  {
    if n <= 1 {
    } else if n % 2 == 0 {
      var m := n / 2;
      assert (n - 1) / 2 == m - 1 && (n - 1) % 2 == 1;
      assert BitAnd(n, n - 1) == 2 * BitAnd(m, m - 1);
      LowBitTestZero(m);
    } else {
      var m := n / 2;
      assert (n - 1) / 2 == m && (n - 1) % 2 == 0;
      assert BitAnd(n, n - 1) == 2 * BitAnd(m, m);
      BitAndSelf(m);
    }
  }

  /** `math.ceil(math.log2(n))`, taken as 0 below 2. */
  function CeilLog2(n: int): nat
    decreases if n < 0 then 0 else n
  {
    if n <= 1 then 0 else 1 + CeilLog2((n + 1) / 2)
  }

  /** `int(math.log2(n))`, taken as 0 below 2. */
  function FloorLog2(n: int): nat
    decreases if n < 0 then 0 else n
  {
    if n <= 1 then 0 else 1 + FloorLog2(n / 2)
  }

  /** CeilLog2 is the least exponent whose power of two reaches `n`. */
  lemma {:induction false} CeilLog2Bounds(n: int)
    requires n >= 1
    ensures n <= Pow2(CeilLog2(n))
    ensures CeilLog2(n) > 0 ==> Pow2(CeilLog2(n) - 1) < n
  {
    if n > 1 {
      CeilLog2Bounds((n + 1) / 2);
    }
  }

  /** FloorLog2 is the greatest exponent whose power of two stays within `n`. */
  lemma {:induction false} FloorLog2Bounds(n: int)
    requires n >= 1
    ensures Pow2(FloorLog2(n)) <= n < Pow2(FloorLog2(n) + 1)
  {
    if n > 1 {
      FloorLog2Bounds(n / 2);
    }
  }

  lemma {:induction false} LogOfPow2(k: nat)
    ensures CeilLog2(Pow2(k)) == k && FloorLog2(Pow2(k)) == k
  {
    if k > 0 {
      LogOfPow2(k - 1);
      assert (Pow2(k) + 1) / 2 == Pow2(k - 1);
      assert Pow2(k) / 2 == Pow2(k - 1);
    }
  }

  /** On a power of two both logarithms are exact. */
  lemma LogsAgreeOnPow2(n: int)
    requires IsPow2(n)
    ensures CeilLog2(n) == FloorLog2(n) && Pow2(FloorLog2(n)) == n
  {
    var k := IsPow2Exponent(n);
    LogOfPow2(k);
  }

  /** `2 ** math.ceil(math.log2(n))`. */
  function NextPow2(n: int): (r: nat)
    ensures r >= 1
  {
    Pow2(CeilLog2(n))
  }

  /** NextPow2 is the smallest power of two that is at least `n`. */
  lemma NextPow2Least(n: int, m: int)
    requires n >= 1
    ensures IsPow2(NextPow2(n)) && n <= NextPow2(n)
    ensures IsPow2(m) && n <= m ==> NextPow2(n) <= m
  {
    Pow2IsPow2(CeilLog2(n));
    CeilLog2Bounds(n);
    if IsPow2(m) && n <= m {
      var j := IsPow2Exponent(m);
      if j < CeilLog2(n) {
        Pow2Monotone(j, CeilLog2(n) - 1);
      }
      Pow2Monotone(CeilLog2(n), j);
    }
  }

  lemma NextPow2OfPow2(n: int)
    requires IsPow2(n)
    ensures NextPow2(n) == n
  {
    LogsAgreeOnPow2(n);
  }

  lemma {:induction false} Pow2Even(n: int)
    requires IsPow2(n) && n > 1
    ensures n % 2 == 0 && IsPow2(n / 2) && FloorLog2(n / 2) + 1 == FloorLog2(n)
  {
  }
}
