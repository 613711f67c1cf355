/**
 The bounded sample window of one metric, with its mean, deviation and z-score. Statistics are over the reals; a
 standard deviation is any non-negative root of the variance.
 */
module MetricStats {
  import opened Prelude

  const MAX_SAMPLES: nat := 300
  const MIN_SAMPLES: nat := 30

  datatype Sample = Sample(timestamp: int, value: real)

  function Values(samples: seq<Sample>): (r: seq<real>)
    ensures |r| == |samples| && forall i :: 0 <= i < |r| ==> r[i] == samples[i].value
  {
    seq(|samples|, i requires 0 <= i < |samples| => samples[i].value)
  }

  function Sum(s: seq<real>): real { if s == [] then 0.0 else s[0] + Sum(s[1..]) }

  function SumOfSquares(s: seq<real>): real { if s == [] then 0.0 else Square(s[0]) + SumOfSquares(s[1..]) }

  /** The length as a real, which keeps integer conversions out of the arithmetic. */
  function Size(s: seq<real>): (n: real)
    ensures n >= 0.0 && (s != [] ==> n >= 1.0)
  {
    if s == [] then 0.0 else 1.0 + Size(s[1..])
  }

  lemma {:induction false} SizeIsLength(s: seq<real>)
    ensures Size(s) == |s| as real
  {
    if s != [] {
      SizeIsLength(s[1..]);
    }
  }

  function Mean(s: seq<real>): real { if s == [] then 0.0 else Sum(s) / Size(s) }

  function Deviations(s: seq<real>, m: real): (r: seq<real>)
    ensures |r| == |s| && forall i :: 0 <= i < |r| ==> r[i] == s[i] - m
  {
    seq(|s|, i requires 0 <= i < |s| => s[i] - m)
  }

  /** The population variance; 0 below two samples. */
  function Variance(s: seq<real>): real {
    if |s| < 2 then 0.0 else SumOfSquares(Deviations(s, Mean(s))) / Size(s)
  }

  ghost predicate IsRoot(root: real, v: real) { root >= 0.0 && Square(root) == v }

  function ZScore(s: seq<real>, root: real, value: real): real {
    if root == 0.0 then 0.0 else (value - Mean(s)) / root
  }

  /** The sample window as the service keeps it. */
  class MetricBuffer {
    var samples: seq<Sample>
    const maxSamples: nat
    const minSamples: nat

    constructor (maxSamples: nat, minSamples: nat)
      ensures this.maxSamples == maxSamples && this.minSamples == minSamples && samples == []
    {
      this.maxSamples, this.minSamples := maxSamples, minSamples;
      samples := [];
    }

    method AddSample(value: real, timestamp: int)
      modifies this`samples
      ensures samples == Push(old(samples), Sample(timestamp, value), maxSamples)
    {
      samples := samples + [Sample(timestamp, value)];
      if |samples| > maxSamples {
        samples := samples[1..];
      }
    }

    predicate IsReady()
      reads this
    {
      |samples| >= minSamples
    }

    method GetMean() returns (mean: real)
      ensures mean == Mean(Values(samples))
    {
      if |samples| == 0 {
        return 0.0;
      }
      var values, sum, i := Values(samples), 0.0, 0;
      while i < |values|
        invariant 0 <= i <= |values| && sum + Sum(values[i..]) == Sum(values)
      {
        sum, i := sum + values[i], i + 1;
      }
      SizeIsLength(values);
      return sum / |values| as real;
    }
  }

  // ---------------------------------------------------------------- the window over a run of samples

  function Push(samples: seq<Sample>, x: Sample, cap: nat): seq<Sample> {
    var grown := samples + [x];
    if |grown| > cap then grown[1..] else grown
  }

  function Buffered(added: seq<Sample>, cap: nat): seq<Sample> {
    if added == [] then [] else Push(Buffered(added[..|added| - 1], cap), added[|added| - 1], cap)
  }

  /** After any run of additions the window is exactly the newest `cap` samples. */
  lemma {:induction false} WindowIsNewest(added: seq<Sample>, cap: nat)
    ensures Buffered(added, cap) == if |added| <= cap then added else added[|added| - cap..]
  {
    if added != [] {
      WindowIsNewest(added[..|added| - 1], cap);
    }
  }

  // ---------------------------------------------------------------- sums

  lemma {:induction false} SumShifts(s: seq<real>, m: real)
    ensures Sum(Deviations(s, m)) == Sum(s) - Size(s) * m
  {
    if s != [] {
      assert Deviations(s, m)[1..] == Deviations(s[1..], m);
      SumShifts(s[1..], m);
      var k := Size(s[1..]);
      assert (1.0 + k) * m == k * m + m;
    }
  }

  lemma {:induction false} SameSizes(s: seq<real>, m: real)
    ensures Size(Deviations(s, m)) == Size(s)
  {
    if s != [] {
      assert Deviations(s, m)[1..] == Deviations(s[1..], m);
      SameSizes(s[1..], m);
    }
  }

  lemma DeviationsCancel(s: seq<real>)
    ensures Sum(Deviations(s, Mean(s))) == 0.0
  {
    SumShifts(s, Mean(s));
    if s != [] {
      QuotientBounds(Sum(s), Size(s), 0.0);
    }
  }

  lemma {:induction false} WithoutOne(d: seq<real>, i: nat)
    requires i < |d|
    ensures var rest := d[..i] + d[i + 1..];
            Sum(d) == d[i] + Sum(rest) && SumOfSquares(d) == Square(d[i]) + SumOfSquares(rest)
            && Size(d) == Size(rest) + 1.0
  {
    if i == 0 {
      assert d[..0] + d[1..] == d[1..];
    } else {
      WithoutOne(d[1..], i - 1);
      assert (d[..i] + d[i + 1..])[1..] == d[1..][..i - 1] + d[1..][i..];
    }
  }

  lemma CauchyStep(a: real, s: real, k: real, q: real)
    requires k >= 1.0 && Square(s) <= k * q
    ensures Square(a + s) <= (k + 1.0) * (Square(a) + q)
  {
    var lhs, rhs := 2.0 * (a * s), k * (a * a) + q;
    assert Square(k * a - s) >= 0.0;
    assert (k * a - s) * (k * a - s) == k * (k * (a * a)) - k * lhs + s * s;
    assert k * rhs == k * (k * (a * a)) + k * q;
    MulOrder(lhs, rhs, k);
    assert lhs * k == k * lhs && rhs * k == k * rhs;
    assert (a + s) * (a + s) == a * a + lhs + s * s;
    assert (k + 1.0) * (a * a + q) == k * (a * a) + k * q + a * a + q;
  }

  /** The Cauchy-Schwarz inequality against the all-ones vector. */
  lemma {:induction false} Cauchy(s: seq<real>)
    ensures Square(Sum(s)) <= Size(s) * SumOfSquares(s)
  {
    if s == [] {
    } else if |s| == 1 {
      assert s[1..] == [];
    } else {
      Cauchy(s[1..]);
      CauchyStep(s[0], Sum(s[1..]), Size(s[1..]), SumOfSquares(s[1..]));
    }
  }

  // ---------------------------------------------------------------- how far a buffered value can stand out

  lemma DeviationShare(x: real, rest: real, m: real, qrest: real, n: real, q: real)
    requires x + rest == 0.0 && Square(rest) <= m * qrest && n == m + 1.0 && q == Square(x) + qrest
    ensures n * Square(x) <= (n - 1.0) * q
  {
    assert rest == -x && Square(rest) == Square(x);
    assert (n - 1.0) * q == m * Square(x) + m * qrest;
  }

  /** No single deviation takes more than an (n-1)/n share of the squared deviations. */
  lemma DeviationBound(d: seq<real>, i: nat, x: real, n: real, q: real)
    requires i < |d| && Sum(d) == 0.0 && x == d[i] && n == Size(d) && q == SumOfSquares(d)
    ensures n * Square(x) <= (n - 1.0) * q
  {
    var m, rest, qrest := RestBound(d, i);
    DeviationShare(x, rest, m, qrest, n, q);
  }

  lemma RestBound(d: seq<real>, i: nat) returns (m: real, sum: real, q: real)
    requires i < |d|
    ensures Size(d) == m + 1.0 && Sum(d) == d[i] + sum && SumOfSquares(d) == Square(d[i]) + q
    ensures Square(sum) <= m * q
  {
    var rest := d[..i] + d[i + 1..];
    WithoutOne(d, i);
    Cauchy(rest);
    m, sum, q := Size(rest), Sum(rest), SumOfSquares(rest);
  }

  lemma ZSquared(dev: real, root: real, z: real)
    requires root > 0.0 && z == dev / root
    ensures Square(z) * Square(root) == Square(dev)
  {
    assert z * root == dev;
    assert (z * z) * (root * root) == (z * root) * (z * root);
  }

  lemma ScaleOut(z2: real, n: real, v: real, q: real, dev2: real)
    requires n > 0.0 && v > 0.0 && q == n * v && n * dev2 <= (n - 1.0) * q && z2 * v == dev2
    ensures z2 <= n - 1.0
  {
    assert n * dev2 == dev2 * n && (n - 1.0) * q == ((n - 1.0) * v) * n;
    MulOrder(dev2, (n - 1.0) * v, n);
    MulOrder(z2, n - 1.0, v);
  }

  lemma ScaleZ(dev: real, root: real, z: real, n: real, v: real, q: real)
    requires n > 0.0 && root > 0.0 && Square(root) == v && v > 0.0 && z == dev / root
    requires q == n * v && n * Square(dev) <= (n - 1.0) * q
    ensures Square(z) <= n - 1.0
  {
    ZSquared(dev, root, z);
    ScaleOut(Square(z), n, v, q, Square(dev));
  }

  lemma QuotientTimes(q: real, n: real, v: real)
    requires n > 0.0 && v == q / n
    ensures q == n * v
  {}

  lemma VarianceTimesN(s: seq<real>) returns (n: real, v: real, q: real)
    requires |s| >= 2
    ensures n == Size(s) && v == Variance(s) && q == SumOfSquares(Deviations(s, Mean(s))) && q == n * v
  {
    n, v, q := Size(s), Variance(s), SumOfSquares(Deviations(s, Mean(s)));
    QuotientTimes(q, n, v);
  }

  lemma RootPositive(s: seq<real>, root: real)
    requires IsRoot(root, Variance(s)) && root != 0.0
    ensures |s| >= 2 && root > 0.0 && Square(root) == Variance(s) && Variance(s) > 0.0
  {}

  /** The z-score of a value that is in the window of n samples satisfies z * z <= n - 1. */
  lemma BufferedZBound(s: seq<real>, root: real, i: nat)
    requires i < |s| && IsRoot(root, Variance(s))
    ensures var z := ZScore(s, root, s[i]); Square(z) <= Size(s) - 1.0
  {
    if root != 0.0 {
      RootPositive(s, root);
      var x := s[i] - Mean(s);
      var n, v, q := ValueShare(s, i, x);
      ScaleZ(x, root, ZScore(s, root, s[i]), n, v, q);
    }
  }

  lemma ValueBound(s: seq<real>, i: nat, x: real, n: real, q: real)
    requires i < |s| && x == s[i] - Mean(s) && n == Size(s) && q == SumOfSquares(Deviations(s, Mean(s)))
    ensures n * Square(x) <= (n - 1.0) * q
  {
    SameSizes(s, Mean(s));
    DeviationsCancel(s);
    DeviationBound(Deviations(s, Mean(s)), i, x, n, q);
  }

  lemma ValueShare(s: seq<real>, i: nat, x: real) returns (n: real, v: real, q: real)
    requires |s| >= 2 && i < |s| && x == s[i] - Mean(s)
    ensures n == Size(s) && v == Variance(s) && q == n * v && n * Square(x) <= (n - 1.0) * q
  {
    n, v, q := VarianceTimesN(s);
    ValueBound(s, i, x, n, q);
  }

  /**
   The service judges the value it just added, so over every run of additions the judged z-score obeys
   z * z <= n - 1 for the window size n, at most 299 with the service's window of 300.
   */
  lemma JudgedZBound(added: seq<Sample>, x: Sample, cap: nat, root: real)
    requires cap > 0
    requires var s := Values(Buffered(added + [x], cap)); IsRoot(root, Variance(s))
    ensures var s := Values(Buffered(added + [x], cap));
            var z := ZScore(s, root, x.value);
            1 <= |s| <= cap && Square(z) <= |s| as real - 1.0 <= cap as real - 1.0
  {
    WindowIsNewest(added + [x], cap);
    var s := Values(Buffered(added + [x], cap));
    assert s[|s| - 1] == x.value;
    BufferedZBound(s, root, |s| - 1);
    SizeIsLength(s);
  }

  function Spike(n: nat, low: real, high: real): seq<real>
    requires n > 0
  {
    seq(n - 1, i => low) + [high]
  }

  lemma {:induction false} ConstantSums(n: nat, c: real)
    ensures Sum(seq(n, i => c)) == n as real * c && SumOfSquares(seq(n, i => c)) == n as real * Square(c)
  {
    if n > 0 {
      ConstantSums(n - 1, c);
      assert seq(n, i => c)[1..] == seq(n - 1, i => c);
      var k := (n - 1) as real;
      assert n as real == k + 1.0 && (k + 1.0) * c == k * c + c && (k + 1.0) * Square(c) == k * Square(c) + Square(c);
    }
  }

  lemma {:induction false} SumsSnoc(s: seq<real>, x: real)
    ensures Sum(s + [x]) == Sum(s) + x && SumOfSquares(s + [x]) == SumOfSquares(s) + Square(x)
  {
    if s != [] {
      assert (s + [x])[1..] == s[1..] + [x];
      SumsSnoc(s[1..], x);
    } else {
      assert (s + [x])[1..] == [];
    }
  }

  lemma SpikeSums(n: nat, low: real, high: real)
    requires n > 0
    ensures Sum(Spike(n, low, high)) == (n as real - 1.0) * low + high
    ensures SumOfSquares(Spike(n, low, high)) == (n as real - 1.0) * Square(low) + Square(high)
  {
    ConstantSums(n - 1, low);
    SumsSnoc(seq(n - 1, i => low), high);
  }

  lemma SpikeDeviations(n: real, low: real, high: real, mean: real)
    requires n >= 2.0 && mean * n == (n - 1.0) * low + high
    ensures (high - mean) == (n - 1.0) * (mean - low)
    ensures (n - 1.0) * Square(low - mean) + Square(high - mean) == n * (n - 1.0) * Square(mean - low)
  {
    var e := mean - low;
    assert mean * n == n * e + n * low;
    assert (n - 1.0) * low + high == n * low - low + high;
    assert high - mean == (n - 1.0) * e by {
      assert (n - 1.0) * e == n * e - e;
    }
    assert (low - mean) * (low - mean) == e * e;
    assert ((n - 1.0) * e) * ((n - 1.0) * e) == (n - 1.0) * ((n - 1.0) * (e * e));
    assert (n - 1.0) * (e * e) + (n - 1.0) * ((n - 1.0) * (e * e)) == n * (n - 1.0) * (e * e);
  }

  lemma SpikeQuotient(n: real, e: real, v: real, root: real, z: real)
    requires n >= 2.0 && v > 0.0 && v * n == n * (n - 1.0) * Square(e) && root > 0.0 && Square(root) == v
    requires z == ((n - 1.0) * e) / root
    ensures Square(z) == n - 1.0
  {
    ZSquared((n - 1.0) * e, root, z);
    assert v == (n - 1.0) * Square(e) by {
      assert v * n == ((n - 1.0) * Square(e)) * n;
      MulOrder(v, (n - 1.0) * Square(e), n);
      MulOrder((n - 1.0) * Square(e), v, n);
    }
    assert Square((n - 1.0) * e) == (n - 1.0) * ((n - 1.0) * Square(e));
    MulOrder(Square(z), n - 1.0, v);
    MulOrder(n - 1.0, Square(z), v);
  }

  lemma SpikeMean(n: nat, low: real, high: real)
    requires n >= 2 && low != high
    ensures Mean(Spike(n, low, high)) != low
    ensures Mean(Spike(n, low, high)) * n as real == (n as real - 1.0) * low + high
  {
    SpikeSums(n, low, high);
    var nr, mean := n as real, Mean(Spike(n, low, high));
    SizeIsLength(Spike(n, low, high));
    QuotientBounds(Sum(Spike(n, low, high)), nr, 0.0);
    assert (nr - 1.0) * low == nr * low - low;
    assert mean == low ==> low * nr == nr * low - low + high;
  }

  lemma SpikeVariance(n: nat, low: real, high: real)
    requires n >= 2 && low != high
    ensures var m := Mean(Spike(n, low, high));
            Variance(Spike(n, low, high)) * n as real == n as real * (n as real - 1.0) * Square(m - low)
  {
    var s, m, nr := Spike(n, low, high), Mean(Spike(n, low, high)), n as real;
    SpikeMean(n, low, high);
    assert Deviations(s, m) == Spike(n, low - m, high - m);
    SpikeSums(n, low - m, high - m);
    SpikeDeviations(nr, low, high, m);
    SizeIsLength(s);
    var n', v, q := VarianceTimesN(s);
  }

  /** The bound is attained: one spike over n - 1 equal samples, of any height, scores exactly n - 1 when squared. */
  lemma SpikeAttainsBound(n: nat, low: real, high: real, root: real)
    requires n >= 2 && low != high && IsRoot(root, Variance(Spike(n, low, high)))
    ensures var z := ZScore(Spike(n, low, high), root, high); Square(z) == n as real - 1.0
  {
    var s, m, nr := Spike(n, low, high), Mean(Spike(n, low, high)), n as real;
    SpikeMean(n, low, high);
    SpikeVariance(n, low, high);
    SpikeDeviations(nr, low, high, m);
    SpikeSpreads(nr, m - low, Variance(s));
    RootPositive(s, root);
    SpikeQuotient(nr, m - low, Variance(s), root, ZScore(s, root, high));
  }

  lemma SpikeSpreads(n: real, e: real, v: real)
    requires n >= 2.0 && e != 0.0 && v * n == n * (n - 1.0) * Square(e)
    ensures v != 0.0
  {
  }

  // ---------------------------------------------------------------- how many can stand out

  function Abs(x: real): real { if x >= 0.0 then x else -x }

  /** The samples of the window at |z| >= k. */
  function Outliers(s: seq<real>, root: real, k: real): seq<real> {
    Filter(s, (x: real) => Abs(ZScore(s, root, x)) >= k)
  }

  lemma FarShare(x: real, root: real, k: real)
    requires root > 0.0 && k > 0.0 && FarFrom(x, root, k)
    ensures Square(k) * Square(root) <= Square(x)
  {
    var z := x / root;
    ZSquared(x, root, z);
    var a := Abs(z);
    SquareOrder(k, a);
    assert Square(a) == Square(z);
    MulMonotone(Square(k), Square(z), Square(root));
  }

  lemma SquareOrder(k: real, a: real)
    requires 0.0 <= k <= a
    ensures Square(k) <= Square(a)
  {
    assert Square(a) - Square(k) == (a - k) * (a + k);
    MulMonotone(0.0, a - k, a + k);
  }

  function Weigh(t: seq<real>, unit: real): real { if t == [] then 0.0 else unit + Weigh(t[1..], unit) }

  lemma {:induction false} WeighIsProduct(t: seq<real>, unit: real)
    ensures Weigh(t, unit) == Size(t) * unit
  {
    if t != [] {
      WeighIsProduct(t[1..], unit);
    }
  }

  function SumBy(s: seq<real>, w: real -> real): real { if s == [] then 0.0 else w(s[0]) + SumBy(s[1..], w) }

  /** Values that each weigh at least `unit` outweigh `unit` times their number. */
  lemma {:induction false} FarTakesShare(s: seq<real>, far: real -> bool, w: real -> real, unit: real)
    requires forall x :: w(x) >= 0.0 && (far(x) ==> unit <= w(x))
    ensures Weigh(Filter(s, far), unit) <= SumBy(s, w)
  {
    if s != [] {
      FarTakesShare(s[1..], far, w, unit);
    }
  }

  lemma {:induction false} SquaresBy(s: seq<real>, m: real)
    ensures SumBy(s, (x: real) => Square(x - m)) == SumOfSquares(Deviations(s, m))
  {
    if s != [] {
      SquaresBy(s[1..], m);
      assert Deviations(s, m)[1..] == Deviations(s[1..], m);
    }
  }

  lemma ShareToCount(c: real, k2: real, v: real, unit: real, n: real, q: real)
    requires v > 0.0 && unit == k2 * v && q == n * v && c * unit <= q
    ensures c * k2 <= n
  {
    assert c * unit == (c * k2) * v;
    MulOrder(c * k2, n, v);
  }

  /** The squared deviation that one sample at |z| >= k accounts for, at the least. */
  lemma FarUnit(root: real, k: real, v: real) returns (unit: real)
    requires root > 0.0 && k > 0.0 && Square(root) == v
    ensures unit == Square(k) * v
    ensures forall d :: FarFrom(d, root, k) ==> unit <= Square(d)
  {
    unit := Square(k) * v;
    forall d | FarFrom(d, root, k) ensures unit <= Square(d) {
      FarShare(d, root, k);
    }
  }

  predicate FarFrom(d: real, root: real, k: real)
    requires root > 0.0
  {
    Abs(d / root) >= k
  }

  lemma OutliersTakeShare(s: seq<real>, m: real, far: real -> bool, unit: real)
    requires forall x :: far(x) ==> unit <= Square(x - m)
    ensures Weigh(Filter(s, far), unit) <= SumOfSquares(Deviations(s, m))
  {
    var w := (x: real) => Square(x - m);
    SquaresBy(s, m);
    forall x ensures w(x) >= 0.0 && (far(x) ==> unit <= w(x)) {
      assert w(x) == Square(x - m);
    }
    FarTakesShare(s, far, w, unit);
  }

  lemma OutlierCount(s: seq<real>, m: real, far: real -> bool, k2: real, v: real, unit: real, n: real, q: real)
    requires v > 0.0 && unit == k2 * v && q == n * v && SumOfSquares(Deviations(s, m)) == q
    requires forall x :: far(x) ==> unit <= Square(x - m)
    ensures Size(Filter(s, far)) * k2 <= n
  {
    OutliersTakeShare(s, m, far, unit);
    WeighIsProduct(Filter(s, far), unit);
    ShareToCount(Size(Filter(s, far)), k2, v, unit, n, q);
  }

  lemma OutliersAround(s: seq<real>, m: real, root: real, k: real, v: real, n: real, q: real, far: real -> bool)
    requires root > 0.0 && k > 0.0 && Square(root) == v && v > 0.0 && q == n * v
    requires SumOfSquares(Deviations(s, m)) == q && forall x :: far(x) ==> FarFrom(x - m, root, k)
    ensures Size(Filter(s, far)) * Square(k) <= n
  {
    hide Square, Product, SumOfSquares;
    var unit := FarUnit(root, k, v);
    OutlierCount(s, m, far, Square(k), v, unit, n, q);
  }

  /** Chebyshev: at most n / (k * k) of the n buffered samples have |z| >= k. */
  lemma OutliersAreFew(s: seq<real>, root: real, k: real)
    requires IsRoot(root, Variance(s)) && k > 0.0
    ensures Size(Outliers(s, root, k)) * Square(k) <= Size(s)
  {
    var far := (x: real) => Abs(ZScore(s, root, x)) >= k;
    if root == 0.0 {
      FilterNone(s, far);
    } else {
      RootPositive(s, root);
      var n, v, q := VarianceTimesN(s);
      OutliersAround(s, Mean(s), root, k, v, n, q, far);
    }
  }
}
