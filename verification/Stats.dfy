/** Online statistics: minimum, maximum, histogram, mean and squared deviations, one point at a time. */
module Statistics {

  const NO_MIN: nat := 99_999_999_999

  // ---- The same quantities, from all points at once ----

  function SumOf(ps: seq<nat>): nat {
    if ps == [] then 0 else SumOf(ps[..|ps| - 1]) + ps[|ps| - 1]
  }

  function SquaresOf(ps: seq<nat>): real {
    if ps == [] then 0.0 else SquaresOf(ps[..|ps| - 1]) + Square(ps[|ps| - 1] as real)
  }

  function Square(x: real): real { x * x }

  /** The sum of the squared distances from `m`. */
  function Deviations(ps: seq<nat>, m: real): real {
    if ps == [] then 0.0
    else Deviations(ps[..|ps| - 1], m) + Square(ps[|ps| - 1] as real - m)
  }

  function MeanOf(ps: seq<nat>): real {
    if ps == [] then 0.0 else SumOf(ps) as real / |ps| as real
  }

  predicate IsMax(ps: seq<nat>, m: nat) {
    && (forall i | 0 <= i < |ps| :: ps[i] <= m)
    && (m == 0 || m in ps)
  }

  predicate IsMin(ps: seq<nat>, m: nat) {
    && m <= 99_999_999_999 && (forall i | 0 <= i < |ps| :: m <= ps[i])
    && (m == 99_999_999_999 || m in ps)
  }

  // ---- Buckets ----

  /** The bounds and the width of the histogram; a width of zero counts as one. */
  datatype Shape = Shape(start: nat, end: nat, step: nat)
  {
    predicate Valid() { start <= end && 0 < step }

    function Size(): nat requires Valid() { (end - start) / step + 1 }
  }

  /** The bucket of a point; beyond the end it is the one before the last of the array. */
  function Bucket(h: Shape, value: nat): int
    requires h.Valid()
  {
    if value >= h.end then (h.end - h.start) / h.step - 1
    else if value < h.start then 0
    else (value - h.start) / h.step
  }

  lemma TimesMonotone(d: nat, x: int, y: int)
    requires x <= y
    ensures d * x <= d * y
  {
  }

  /** A quotient is determined by its remainder being small. */
  lemma QuotientIs(a: int, d: nat, q: int, m: nat)
    requires 0 < d && a == d * q + m && m < d
    ensures a / d == q
  {
    var x := a / d;
    assert a == d * x + a % d;
    assert d * (q + 1) == d * q + d && d * (q - 1) == d * q - d;
    if x > q { TimesMonotone(d, q + 1, x); }
    if x < q { TimesMonotone(d, x, q - 1); }
  }

  lemma QuotientMonotone(a: nat, b: nat, d: nat)
    requires a <= b && 0 < d
    ensures a / d <= b / d
  {
    var x, y := a / d, b / d;
    assert a == d * x + a % d && b == d * y + b % d;
    assert d * (y + 1) == d * y + d;
    if x > y { TimesMonotone(d, y + 1, x); }
  }

  /** A bucket lies in the array exactly if the point is below the end, or the width fits into the range. */
  lemma BucketInArrayExactlyWhen(h: Shape, value: nat)
    requires h.Valid()
    ensures 0 <= Bucket(h, value) < h.Size() <==> value < h.end || h.step <= h.end - h.start
  {
    var r := h.end - h.start;
    if h.start <= value < h.end { QuotientMonotone(value - h.start, r, h.step); }
    if h.step <= r { QuotientMonotone(h.step, r, h.step); }
    if h.step > r { assert r / h.step == 0; }
  }

  /**
   Points beyond the end share the bucket of the largest point in range exactly if the width divides
   the range; otherwise they are counted one bucket below it.
   */
  lemma OverflowBucketExactlyWhen(h: Shape, value: nat)
    requires h.Valid() && h.step <= h.end - h.start && value >= h.end
    ensures Bucket(h, value) == Bucket(h, h.end - 1) <==> (h.end - h.start) % h.step == 0
    ensures (h.end - h.start) % h.step != 0 ==> Bucket(h, value) == Bucket(h, h.end - 1) - 1
  {
    var r, d := h.end - h.start, h.step;
    var q, m := r / d, r % d;
    assert r == d * q + m && h.end - 1 - h.start == r - 1;
    if m == 0 {
      assert r - 1 == d * (q - 1) + (d - 1);
      QuotientIs(r - 1, d, q - 1, d - 1);
    } else {
      QuotientIs(r - 1, d, q, m - 1);
    }
  }

  /**
   Which points belong to bucket `b`: those in its stretch of the range, in the first bucket also those
   below the range, and in the bucket one below the number of whole widths also those beyond it.
   */
  predicate Belongs(h: Shape, b: int, p: nat)
    requires h.Valid()
  {
    || (h.start <= p < h.end && h.start + b * h.step <= p < h.start + (b + 1) * h.step)
    || (p < h.start && b == 0)
    || (p >= h.end && b == (h.end - h.start) / h.step - 1)
  }

  /** The code picks the bucket to which a point belongs. */
  lemma BucketBelongs(h: Shape, b: int, p: nat)
    requires h.Valid()
    ensures Bucket(h, p) == b <==> Belongs(h, b, p)
  {
    if h.start <= p < h.end {
      var a, d := p - h.start, h.step;
      var q := a / d;
      assert a == d * q + a % d;
      if a >= b * d && a < (b + 1) * d { QuotientIs(a, d, b, a - b * d); }
      if q == b { assert b * d <= a < (b + 1) * d; }
    }
  }

  function CountIn(h: Shape, ps: seq<nat>, b: int): nat
    requires h.Valid()
  {
    if ps == [] then 0 else CountIn(h, ps[..|ps| - 1], b) + if Belongs(h, b, ps[|ps| - 1]) then 1 else 0
  }

  function Total(counts: seq<nat>): nat {
    if counts == [] then 0 else Total(counts[..|counts| - 1]) + counts[|counts| - 1]
  }

  // ---- One point more ----

  lemma Appended(h: Shape, ps: seq<nat>, p: nat, m: real, b: int)
    requires h.Valid()
    ensures SumOf(ps + [p]) == SumOf(ps) + p
    ensures SquaresOf(ps + [p]) == SquaresOf(ps) + Square(p as real)
    ensures Deviations(ps + [p], m) == Deviations(ps, m) + Square(p as real - m)
    ensures CountIn(h, ps + [p], b) == CountIn(h, ps, b) + if Belongs(h, b, p) then 1 else 0
  {
    assert (ps + [p])[..|ps|] == ps;
  }

  /** The squared deviations, expanded. */
  lemma {:induction false} DeviationsExpand(ps: seq<nat>, m: real)
    ensures Deviations(ps, m) == SquaresOf(ps) - 2.0 * m * SumOf(ps) as real + |ps| as real * m * m
  {
    if ps != [] {
      var n := |ps| - 1;
      var p := ps[n] as real;
      DeviationsExpand(ps[..n], m);
      assert (p - m) * (p - m) == p * p - 2.0 * m * p + m * m;
      assert 2.0 * m * SumOf(ps) as real == 2.0 * m * SumOf(ps[..n]) as real + 2.0 * m * p;
      assert |ps| as real * m * m == n as real * m * m + m * m;
    }
  }

  /** The mean after a point `v`, which makes `n` points. */
  function NextMean(m: real, v: real, n: nat): real
    requires n > 0
  {
    m + (v - m) / n as real
  }

  /** The squared deviations after a point `v` that moves the mean from `m` to `m1`. */
  function NextM2(m2: real, m: real, m1: real, v: real): real {
    m2 + (v - m) * (v - m1)
  }

  function Times(a: real, b: real): real { a * b }

  /** Squared deviations from the mean `m` of `k` points whose squares add up to `q`. */
  function Spread(q: real, k: real, m: real): real { q - k * m * m }

  /** The algebra of the update: `k` points with mean `m` become `n` points with mean `m1`. */
  lemma UpdateAlgebra(q: real, k: real, n: real, m: real, m1: real, v: real)
    requires n == k + 1.0 && Times(n, m1) == Times(k, m) + v
    ensures Spread(q + Square(v), n, m1) == NextM2(Spread(q, k, m), m, m1, v)
  {
    assert v == n * m1 - k * m;
    assert v * m1 == n * m1 * m1 - k * m * m1;
    assert v * m == n * m1 * m - k * m * m;
    assert (v - m) * (v - m1) == v * v - v * m1 - m * v + m * m1;
    assert n * m1 * m == k * m * m1 + m * m1;
  }

  lemma MeanTimes(ps: seq<nat>)
    ensures Times(|ps| as real, MeanOf(ps)) == SumOf(ps) as real
  {
  }

  lemma ExpandAtMean(q: real, k: real, m: real, s: real)
    requires Times(k, m) == s
    ensures q - 2.0 * m * s + k * m * m == Spread(q, k, m)
  {
    assert m * s == k * m * m;
  }

  /** Squared deviations from the mean. */
  lemma DeviationsFromMean(ps: seq<nat>)
    ensures Deviations(ps, MeanOf(ps)) == Spread(SquaresOf(ps), |ps| as real, MeanOf(ps))
  {
    var m := MeanOf(ps);
    DeviationsExpand(ps, m);
    MeanTimes(ps);
    hide MeanOf, Deviations, SquaresOf, SumOf, Times, Spread;
    ExpandAtMean(SquaresOf(ps), |ps| as real, m, SumOf(ps) as real);
  }

  lemma MeanStep(ps: seq<nat>, p: nat)
    ensures MeanOf(ps + [p]) == NextMean(MeanOf(ps), p as real, |ps| + 1)
    ensures Times(|ps + [p]| as real, MeanOf(ps + [p])) == Times(|ps| as real, MeanOf(ps)) + p as real
  {
    Appended(Shape(0, 0, 1), ps, p, 0.0, 0);
    MeanTimes(ps);
    MeanTimes(ps + [p]);
    hide MeanOf, SumOf, Times;
    assert |ps + [p]| == |ps| + 1;
    MeanAlgebra(|ps| + 1, MeanOf(ps), MeanOf(ps + [p]), p as real);
  }

  lemma MeanAlgebra(n: nat, m: real, m1: real, v: real)
    requires n > 0 && Times(n as real, m1) == Times((n - 1) as real, m) + v
    ensures m1 == NextMean(m, v, n)
  {
    var r := n as real;
    assert r * ((v - m) / r) == v - m;
    assert r * (m + (v - m) / r) == r * m + (v - m);
    DivideBack(m1, r, r * m + (v - m));
    DivideBack(m + (v - m) / r, r, r * m + (v - m));
  }

  /** The update of mean and squared deviations is exact. */
  lemma WelfordStep(ps: seq<nat>, p: nat)
    ensures MeanOf(ps + [p]) == NextMean(MeanOf(ps), p as real, |ps| + 1)
    ensures Deviations(ps + [p], MeanOf(ps + [p])) ==
      NextM2(Deviations(ps, MeanOf(ps)), MeanOf(ps), MeanOf(ps + [p]), p as real)
  {
    MeanStep(ps, p);
    Appended(Shape(0, 0, 1), ps, p, 0.0, 0);
    DeviationsFromMean(ps);
    DeviationsFromMean(ps + [p]);
    hide MeanOf, Deviations, SquaresOf, SumOf, NextMean, NextM2, Spread, Square, Times;
    assert |ps + [p]| == |ps| + 1;
    UpdateAlgebra(SquaresOf(ps), |ps| as real, |ps + [p]| as real, MeanOf(ps), MeanOf(ps + [p]), p as real);
  }

  lemma DivideBack(a: real, n: real, b: real)
    requires n > 0.0 && n * a == b
    ensures a == b / n
  {
  }

  lemma {:induction false} TotalUpdate(counts: seq<nat>, i: nat)
    requires i < |counts|
    ensures Total(counts[i := counts[i] + 1]) == Total(counts) + 1
    decreases |counts|
  {
    var n := |counts| - 1;
    if i == n {
      assert counts[i := counts[i] + 1][..n] == counts[..n];
    } else {
      assert counts[i := counts[i] + 1][..n] == counts[..n][i := counts[i] + 1];
      TotalUpdate(counts[..n], i);
    }
  }

  lemma {:induction false} TotalOfZeros(counts: seq<nat>)
    requires forall i | 0 <= i < |counts| :: counts[i] == 0
    ensures Total(counts) == 0
  {
    if counts != [] { TotalOfZeros(counts[..|counts| - 1]); }
  }

  /** The scalars of the statistics of `ps`. */
  ghost predicate Summary(ps: seq<nat>, count: nat, sum: nat, min: nat, max: nat, mean: real, m2: real) {
    && count == |ps| && sum == SumOf(ps) && IsMin(ps, min) && IsMax(ps, max)
    && mean == MeanOf(ps) && m2 == Deviations(ps, MeanOf(ps))
  }

  /** The histogram of `ps`: every bucket has its count, and together they have all points. */
  ghost predicate Histogram(h: Shape, ps: seq<nat>, counts: seq<nat>)
    requires h.Valid()
  {
    && |counts| == h.Size() && Total(counts) == |ps|
    && (forall b | 0 <= b < |counts| :: counts[b] == CountIn(h, ps, b))
  }

  lemma BoundsStep(ps: seq<nat>, p: nat, min: nat, max: nat)
    requires IsMin(ps, min) && IsMax(ps, max)
    ensures IsMin(ps + [p], if p < min then p else min) && IsMax(ps + [p], if p >= max then p else max)
  {
    assert (ps + [p])[|ps|] == p;
    assert forall x | x in ps :: x in ps + [p];
  }

  lemma SummaryStep(ps: seq<nat>, p: nat, count: nat, sum: nat, min: nat, max: nat, mean: real, m2: real)
    requires Summary(ps, count, sum, min, max, mean, m2)
    ensures var mean1 := NextMean(mean, p as real, count + 1);
      Summary(ps + [p], count + 1, sum + p, if p < min then p else min, if p >= max then p else max,
              mean1, NextM2(m2, mean, mean1, p as real))
  {
    WelfordStep(ps, p);
    Appended(Shape(0, 0, 1), ps, p, 0.0, 0);
    BoundsStep(ps, p, min, max);
    hide MeanOf, Deviations, SumOf, IsMin, IsMax, NextMean, NextM2;
  }

  lemma HistogramStep(h: Shape, ps: seq<nat>, p: nat, counts: seq<nat>)
    requires h.Valid() && Histogram(h, ps, counts) && (p < h.end || h.step <= h.end - h.start)
    ensures 0 <= Bucket(h, p) < |counts|
    ensures Histogram(h, ps + [p], counts[Bucket(h, p) := counts[Bucket(h, p)] + 1])
  {
    BucketInArrayExactlyWhen(h, p);
    TotalUpdate(counts, Bucket(h, p));
    forall b | 0 <= b < |counts|
      ensures CountIn(h, ps + [p], b) == CountIn(h, ps, b) + if Bucket(h, p) == b then 1 else 0
    {
      Appended(h, ps, p, 0.0, b);
      BucketBelongs(h, b, p);
    }
  }

  class XStat {
    const shape: Shape
    var count: nat
    var sum: nat
    var min: nat
    var max: nat
    var mean: real
    var m2: real
    const dist: array<nat>
    /** All points so far. */
    ghost var points: seq<nat>

    ghost predicate Valid()
      reads this, dist
    {
      && shape.Valid()
      && Summary(points, count, sum, min, max, mean, m2) && Histogram(shape, points, dist[..])
    }

    constructor (start: nat, end: nat, step: nat)
      requires start <= end
      ensures Valid() && points == [] && shape == Shape(start, end, if step > 1 then step else 1)
      ensures fresh(dist) && dist.Length == (end - start) / (if step > 1 then step else 1) + 1
      ensures count == sum == max == 0 && min == 99_999_999_999 && mean == m2 == 0.0
    {
      shape := Shape(start, end, if step > 1 then step else 1);
      count, sum, min, max, mean, m2, points := 0, 0, NO_MIN, 0, 0.0, 0.0, [];
      dist := new nat[(end - start) / (if step > 1 then step else 1) + 1](_ => 0);
      new;
      TotalOfZeros(dist[..]);
    }

    /** Adds a point whose bucket lies in the array. */
    method AddPoint(value: nat)
      requires Valid() && (value < shape.end || shape.step <= shape.end - shape.start)
      modifies this`count, this`sum, this`min, this`max, this`mean, this`m2, this`points, dist
      ensures Valid() && points == old(points) + [value]
    {
      hide Summary, Histogram, NextMean, NextM2;
      SummaryStep(points, value, count, sum, min, max, mean, m2);
      HistogramStep(shape, points, value, dist[..]);
      if value >= max { max := value; }
      if value < min { min := value; }
      var index := Index(value);
      ghost var counts := dist[..];
      dist[index] := dist[index] + 1;
      assert dist[..] == counts[index := counts[index] + 1];
      count := count + 1;
      sum := sum + value;
      UpdateMoments(value);
      points := points + [value];
    }

    /** The running mean and the running squared deviations. */
    method UpdateMoments(value: nat)
      requires count > 0
      modifies this`mean, this`m2
      ensures mean == NextMean(old(mean), value as real, count)
      ensures m2 == NextM2(old(m2), old(mean), mean, value as real)
    {
      var delta := value as real - mean;
      mean := mean + delta / count as real;
      m2 := m2 + delta * (value as real - mean);
    }

    /** The bucket, as the code picks it. */
    method Index(value: nat) returns (index: int)
      requires shape.Valid()
      ensures index == Bucket(shape, value)
    {
      index := 0;
      if value >= shape.start { index := (value - shape.start) / shape.step; }
      if value >= shape.end {
        index := (shape.end - shape.start) / shape.step - 1;
      } else if value < shape.start {
        index := 0;
      }
    }
  }
}
