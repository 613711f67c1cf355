/**
 Small value-level helpers shared by the models. Options stand for values that may be missing in the source (null,
 undefined, an unreadable field). Minima and maxima are spelled out for reals and integers. `Filter` keeps the
 elements of a list that satisfy a predicate, with the facts about lengths and concatenation that the detectors need.
 The pigeonhole principle and an induction principle over function values serve proofs about runs. The real arithmetic
 lemmas isolate every use of multiplication, division and squares, so that proofs elsewhere stay linear.
 */
module Prelude {

  datatype Option<+T> = None | Some(value: T)

  function MaxReal(a: real, b: real): real { if a >= b then a else b }

  function MinReal(a: real, b: real): real { if a <= b then a else b }

  function MaxInt(a: int, b: int): int { if a >= b then a else b }

  function MinInt(a: int, b: int): int { if a <= b then a else b }

  /** The elements of `s` that satisfy `p`, in order (JavaScript's `filter`). */
  function Filter<T(!new)>(s: seq<T>, p: T -> bool): (r: seq<T>)
    ensures |r| <= |s|
    ensures forall x :: x in r <==> x in s && p(x)
  {
    if s == [] then []
    else if p(s[0]) then [s[0]] + Filter(s[1..], p)
    else Filter(s[1..], p)
  }

  /** A weaker predicate keeps at least as many elements. */
  lemma {:induction false} FilterMonotone<T(!new)>(s: seq<T>, p: T -> bool, q: T -> bool)
    requires forall x :: x in s && p(x) ==> q(x)
    ensures |Filter(s, p)| <= |Filter(s, q)|
  {
    if s != [] {
      assert forall x :: x in s[1..] ==> x in s;
      FilterMonotone(s[1..], p, q);
    }
  }

  lemma {:induction false} FilterNone<T(!new)>(s: seq<T>, p: T -> bool)
    requires forall x :: x in s ==> !p(x)
    ensures Filter(s, p) == []
  {
    if s != [] {
      FilterNone(s[1..], p);
    }
  }

  lemma {:induction false} FilterConcat<T(!new)>(a: seq<T>, b: seq<T>, p: T -> bool)
    ensures Filter(a + b, p) == Filter(a, p) + Filter(b, p)
  {
    if a == [] {
      assert a + b == b;
    } else {
      assert (a + b)[1..] == a[1..] + b;
      FilterConcat(a[1..], b, p);
    }
  }

  /** Induction over 0..n for a property given as a function value. */
  lemma {:induction false} CountUp(n: nat, p: nat -> bool)
    requires p(0) && forall k: nat :: k < n && p(k) ==> p(k + 1)
    ensures p(n)
  {
    if n > 0 {
      CountUp(n - 1, p);
      assert p(n - 1 + 1);
    }
  }

  /** Pigeonhole: distinct naturals below n number at most n. */
  lemma {:induction false} Pigeonhole(at: seq<nat>, n: nat)
    requires forall i :: 0 <= i < |at| ==> at[i] < n
    requires forall i, j :: 0 <= i < j < |at| ==> at[i] != at[j]
    ensures |at| <= n
  {
    if i: nat :| i < |at| && at[i] == n - 1 {
      Pigeonhole(at[..i] + at[i + 1..], n - 1);
    } else if at != [] {
      assert at[0] < n;
      Pigeonhole(at, n - 1);
    }
  }

  // ---------------------------------------------------------------- real arithmetic

  lemma MulMonotone(a: real, b: real, c: real)
    requires a <= b && c >= 0.0
    ensures a * c <= b * c
  {
    assert b * c - a * c == (b - a) * c;
  }

  lemma MulStrict(a: real, b: real, c: real)
    requires a < b && c > 0.0
    ensures a * c < b * c
  {
    assert b * c - a * c == (b - a) * c;
  }

  function Product(a: real, b: real): real { a * b }

  lemma ProductPositive(a: real, b: real)
    requires a > 0.0 && b > 0.0
    ensures Product(a, b) > 0.0
  {
    MulStrict(0.0, a, b);
  }

  lemma SquareSign(x: real)
    ensures Product(x, x) >= 0.0 && (x != 0.0 ==> Product(x, x) > 0.0)
  {
    if x > 0.0 {
      ProductPositive(x, x);
    } else if x < 0.0 {
      ProductPositive(-x, -x);
      assert Product(-x, -x) == Product(x, x);
    }
  }

  function Square(x: real): (r: real)
    ensures r >= 0.0 && (x != 0.0 ==> r > 0.0)
  {
    SquareSign(x);
    Product(x, x)
  }

  lemma MulOrder(a: real, b: real, c: real)
    requires c > 0.0
    ensures a <= b <==> a * c <= b * c
  {
    if a <= b {
      MulMonotone(a, b, c);
    } else {
      MulStrict(b, a, c);
    }
  }

  lemma MulCongruence(a: real, b: real, c: real)
    requires a == b
    ensures a * c == b * c
  {}

  lemma QuotientBounds(sum: real, n: real, bound: real)
    requires n > 0.0
    ensures sum <= bound * n <==> sum / n <= bound
    ensures sum > 0.0 <==> sum / n > 0.0
    ensures sum / n * n == sum
  {
    MulOrder(sum / n, bound, n);
    MulOrder(sum / n, 0.0, n);
  }

  /** A quotient reaches a share exactly when the dividend reaches that share of the divisor. */
  lemma ShareReached(part: real, whole: real, share: real)
    requires whole > 0.0
    ensures part / whole >= share <==> part >= share * whole
    ensures part / whole * whole == part
  {
    QuotientBounds(part, whole, share);
    MulOrder(share, part / whole, whole);
  }
}
