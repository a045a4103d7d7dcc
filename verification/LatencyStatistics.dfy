/** Percentiles of a sorted sample and the paired bootstrap, over exact reals. */
module LatencyStatistics {
  import opened Prelude

  predicate Sorted(s: seq<real>) {
    forall i, j | 0 <= i <= j < |s| :: s[i] <= s[j]
  }

  predicate Bounded(s: seq<real>, low: real, high: real) {
    forall i | 0 <= i < |s| :: low <= s[i] <= high
  }

  // ---------------------------------------------------------------- the library sort

  function Insert(x: real, s: seq<real>): seq<real> {
    if s == [] || x <= s[0] then [x] + s else [s[0]] + Insert(x, s[1..])
  }

  function SortedOf(s: seq<real>): seq<real> {
    if s == [] then [] else Insert(s[0], SortedOf(s[1..]))
  }

  lemma {:induction false} InsertKeeps(x: real, s: seq<real>)
    ensures multiset(Insert(x, s)) == multiset(s) + multiset{x} && |Insert(x, s)| == |s| + 1
  {
    if s != [] && x > s[0] {
      InsertKeeps(x, s[1..]);
      assert s == [s[0]] + s[1..];
    }
  }

  lemma {:induction false} InsertSorts(x: real, s: seq<real>)
    requires Sorted(s)
    ensures Sorted(Insert(x, s)) && (Insert(x, s)[0] == x || (s != [] && Insert(x, s)[0] == s[0]))
  {
    if s != [] && x > s[0] {
      InsertSorts(x, s[1..]);
    }
  }

  /** Sorting orders the values and keeps each of them. */
  lemma {:induction false} SortedOfIs(s: seq<real>)
    ensures Sorted(SortedOf(s)) && multiset(SortedOf(s)) == multiset(s) && |SortedOf(s)| == |s|
  {
    if s != [] {
      SortedOfIs(s[1..]);
      InsertKeeps(s[0], SortedOf(s[1..]));
      InsertSorts(s[0], SortedOf(s[1..]));
      assert s == [s[0]] + s[1..];
    }
  }

  lemma SameValues(a: seq<real>, b: seq<real>, i: nat) returns (j: nat)
    requires multiset(a) == multiset(b) && i < |a|
    ensures j < |b| && b[j] == a[i]
  {
    assert a[i] in multiset(b);
    j :| 0 <= j < |b| && b[j] == a[i];
  }

  // ---------------------------------------------------------------- percentiles

  /** The point a fraction `w` of the way from `a` to `b`. */
  function Blend(a: real, b: real, w: real): real {
    a + (b - a) * w
  }

  lemma Scale(x: real, a: real, b: real)
    requires x >= 0.0 && a <= b
    ensures x * a <= x * b
  {
  }

  lemma BlendGrows(a: real, b: real, w: real, v: real)
    requires a <= b && 0.0 <= w <= v <= 1.0
    ensures a <= Blend(a, b, w) <= Blend(a, b, v) <= b
  {
    Scale(b - a, 0.0, w);
    Scale(b - a, w, v);
    Scale(b - a, v, 1.0);
  }

  function Next(s: seq<real>, lower: nat): (upper: nat)
    requires lower < |s|
    ensures lower <= upper < |s|
  {
    if lower + 1 <= |s| - 1 then lower + 1 else |s| - 1
  }

  predicate Inside(s: seq<real>, position: real) {
    s != [] && 0.0 <= position <= (|s| - 1) as real
  }

  /** The value at a fractional position, by linear interpolation. */
  function Interpolate(s: seq<real>, position: real): real
    requires Inside(s, position)
  {
    var lower := position.Floor;
    Blend(s[lower], s[Next(s, lower)], position - lower as real)
  }

  function Percent(n: real, percent: real): real {
    n * percent / 100.0
  }

  lemma PercentGrows(n: real, p: real, q: real)
    requires n >= 0.0 && 0.0 <= p <= q <= 100.0
    ensures 0.0 <= Percent(n, p) <= Percent(n, q) <= n
  {
  }

  /** (len - 1) * percent / 100 */
  function Position(s: seq<real>, percent: real): real
    requires s != []
  {
    Percent((|s| - 1) as real, percent)
  }

  lemma Positions(s: seq<real>, p: real, q: real)
    requires s != [] && 0.0 <= p <= q <= 100.0
    ensures 0.0 <= Position(s, p) <= Position(s, q) <= (|s| - 1) as real
  {
    PercentGrows((|s| - 1) as real, p, q);
  }

  /** `percentile` */
  function Percentile(s: seq<real>, percent: real): real
    requires 0.0 <= percent <= 100.0
  {
    if s == [] then 0.0
    else if |s| == 1 then s[0]
    else
      Positions(s, percent, percent);
      Interpolate(s, Position(s, percent))
  }

  /** The interpolated value lies between its two neighbours. */
  lemma BetweenNeighbours(s: seq<real>, x: real)
    requires Inside(s, x) && Sorted(s)
    ensures s[x.Floor] <= Interpolate(s, x) <= s[Next(s, x.Floor)]
  {
    BlendGrows(s[x.Floor], s[Next(s, x.Floor)], x - x.Floor as real, x - x.Floor as real);
  }

  lemma InterpolateGrows(s: seq<real>, x: real, y: real)
    requires Inside(s, x) && Inside(s, y) && x <= y && Sorted(s)
    ensures Interpolate(s, x) <= Interpolate(s, y)
  {
    if x.Floor == y.Floor {
      BlendGrows(s[x.Floor], s[Next(s, x.Floor)], x - x.Floor as real, y - x.Floor as real);
    } else {
      hide Interpolate, Blend;
      BetweenNeighbours(s, x);
      BetweenNeighbours(s, y);
      assert s[Next(s, x.Floor)] <= s[y.Floor];
    }
  }

  /** A percentile of a sorted sample lies between its extremes and does not fall as the percentage grows. */
  lemma PercentileIsMonotone(s: seq<real>, p: real, q: real)
    requires s != [] && Sorted(s) && 0.0 <= p <= q <= 100.0
    ensures s[0] <= Percentile(s, p) <= Percentile(s, q) <= s[|s| - 1]
  {
    if |s| > 1 {
      Positions(s, p, q);
      hide Interpolate, Percentile, Position, Blend;
      InterpolateGrows(s, Position(s, p), Position(s, q));
      BetweenNeighbours(s, Position(s, p));
      BetweenNeighbours(s, Position(s, q));
    }
  }

  /** At a whole position the percentile is the value found there: 0 gives the minimum, 100 the maximum. */
  lemma PercentileAtRank(s: seq<real>, k: nat, p: real)
    requires |s| > 1 && k < |s| && 0.0 <= p <= 100.0 && (|s| - 1) as real * p / 100.0 == k as real
    ensures Percentile(s, p) == s[k]
  {
    assert Position(s, p) == k as real;
  }

  /** Half way between two positions it is the mean of the two values. */
  lemma PercentileHalfWay(s: seq<real>, k: nat, p: real)
    requires k + 1 < |s| && 0.0 <= p <= 100.0 && (|s| - 1) as real * p / 100.0 == k as real + 0.5
    ensures Percentile(s, p) == (s[k] + s[k + 1]) / 2.0
  {
    assert Position(s, p) == k as real + 0.5;
  }

  // ---------------------------------------------------------------- means

  function Total(s: seq<real>): real {
    if s == [] then 0.0 else Total(s[..|s| - 1]) + s[|s| - 1]
  }

  function Mean(s: seq<real>): real
    requires s != []
  {
    Total(s) / |s| as real
  }

  lemma {:induction false} TotalBounds(s: seq<real>, low: real, high: real)
    requires Bounded(s, low, high)
    ensures |s| as real * low <= Total(s) <= |s| as real * high
  {
    if s != [] {
      var front := s[..|s| - 1];
      TotalBounds(front, low, high);
      assert |s| as real * low == |front| as real * low + low && |s| as real * high == |front| as real * high + high;
    }
  }

  lemma MeanBounds(s: seq<real>, low: real, high: real)
    requires s != [] && Bounded(s, low, high)
    ensures low <= Mean(s) <= high
  {
    TotalBounds(s, low, high);
  }

  lemma SortedBounds(s: seq<real>, ordered: seq<real>)
    requires s != [] && Sorted(ordered) && multiset(ordered) == multiset(s) && |ordered| == |s|
    ensures Bounded(s, ordered[0], ordered[|s| - 1]) && Bounded(ordered, ordered[0], ordered[|s| - 1])
  {
    forall i | 0 <= i < |s| ensures ordered[0] <= s[i] <= ordered[|s| - 1] {
      var j := SameValues(s, ordered, i);
    }
  }

  // ---------------------------------------------------------------- variance

  function Square(x: real): real {
    x * x
  }

  function SquaredDeviations(s: seq<real>, mean: real): real {
    if s == [] then 0.0 else Square(s[0] - mean) + SquaredDeviations(s[1..], mean)
  }

  /** The population variance. */
  function Variance(s: seq<real>): real
    requires s != []
  {
    SquaredDeviations(s, Mean(s)) / |s| as real
  }

  lemma SquareSign(x: real)
    ensures Square(x) >= 0.0
  {
  }

  lemma {:induction false} DeviationsSign(s: seq<real>, mean: real)
    ensures SquaredDeviations(s, mean) >= 0.0
  {
    if s != [] {
      SquareSign(s[0] - mean);
      DeviationsSign(s[1..], mean);
    }
  }

  lemma VarianceSign(s: seq<real>)
    requires s != []
    ensures Variance(s) >= 0.0
  {
    hide Mean;
    DeviationsSign(s, Mean(s));
  }

  lemma {:induction false} TotalCons(x: real, s: seq<real>)
    ensures Total([x] + s) == x + Total(s)
  {
    if s == [] {
      assert ([x] + s)[..0] == [];
    } else {
      assert ([x] + s)[..|s|] == [x] + s[..|s| - 1];
      TotalCons(x, s[..|s| - 1]);
    }
  }

  lemma {:induction false} InsertTotals(x: real, s: seq<real>)
    ensures Total(Insert(x, s)) == x + Total(s)
  {
    if s == [] || x <= s[0] {
      TotalCons(x, s);
    } else {
      assert s == [s[0]] + s[1..];
      InsertTotals(x, s[1..]);
      TotalCons(s[0], Insert(x, s[1..]));
      TotalCons(s[0], s[1..]);
    }
  }

  lemma DeviationsCons(x: real, s: seq<real>, mean: real)
    ensures SquaredDeviations([x] + s, mean) == Square(x - mean) + SquaredDeviations(s, mean)
  {
    assert ([x] + s)[1..] == s;
  }

  lemma {:induction false} InsertDeviations(x: real, s: seq<real>, mean: real)
    ensures SquaredDeviations(Insert(x, s), mean) == Square(x - mean) + SquaredDeviations(s, mean)
  {
    if s == [] || x <= s[0] {
      DeviationsCons(x, s, mean);
    } else {
      assert s == [s[0]] + s[1..];
      InsertDeviations(x, s[1..], mean);
      DeviationsCons(s[0], Insert(x, s[1..]), mean);
      DeviationsCons(s[0], s[1..], mean);
    }
  }

  /** Sums do not depend on the order of the values. */
  lemma {:induction false} SortedTotals(s: seq<real>, mean: real)
    ensures Total(SortedOf(s)) == Total(s) && SquaredDeviations(SortedOf(s), mean) == SquaredDeviations(s, mean)
  {
    if s != [] {
      SortedTotals(s[1..], mean);
      InsertTotals(s[0], SortedOf(s[1..]));
      InsertDeviations(s[0], SortedOf(s[1..]), mean);
      assert s == [s[0]] + s[1..];
      TotalCons(s[0], s[1..]);
      DeviationsCons(s[0], s[1..], mean);
    }
  }

  lemma SortedMoments(s: seq<real>)
    requires s != [] && |SortedOf(s)| == |s|
    ensures Mean(SortedOf(s)) == Mean(s) && Variance(SortedOf(s)) == Variance(s)
  {
    SortedTotals(s, Mean(s));
  }

  /** The sum of the squares. */
  function SquareTotal(s: seq<real>): real {
    if s == [] then 0.0 else Square(s[0]) + SquareTotal(s[1..])
  }

  lemma SquareOfDifference(x: real, m: real)
    ensures Square(x - m) == Square(x) - 2.0 * m * x + Square(m)
  {
  }

  lemma {:induction false} DeviationsAre(s: seq<real>, m: real)
    ensures SquaredDeviations(s, m) == SquareTotal(s) - 2.0 * m * Total(s) + |s| as real * Square(m)
  {
    if s != [] {
      var x, t, n := s[0], Total(s[1..]), |s[1..]| as real;
      assert s == [x] + s[1..];
      TotalCons(x, s[1..]);
      DeviationsAre(s[1..], m);
      SquareOfDifference(x, m);
      hide *;
      Distribute(m, x, t, n, Square(m));
    }
  }

  lemma Distribute(m: real, x: real, t: real, n: real, q: real)
    ensures 2.0 * m * (x + t) == 2.0 * m * x + 2.0 * m * t && (n + 1.0) * q == n * q + q
  {
  }

  /** The variance is the mean of the squares less the square of the mean. */
  lemma VarianceIs(s: seq<real>)
    requires s != []
    ensures Variance(s) == SquareTotal(s) / |s| as real - Square(Mean(s))
  {
    hide *;
    TotalIs(s);
    DeviationsAre(s, Mean(s));
    CompleteSquare(SquareTotal(s), |s| as real, Mean(s), Total(s), SquaredDeviations(s, Mean(s)));
  }

  lemma TotalIs(s: seq<real>)
    requires s != []
    ensures Total(s) == |s| as real * Mean(s)
    ensures Variance(s) == SquaredDeviations(s, Mean(s)) / |s| as real
  {
  }

  lemma CompleteSquare(q: real, n: real, m: real, t: real, v: real)
    requires n > 0.0 && t == n * m && v == q - 2.0 * m * t + n * Square(m)
    ensures v / n == q / n - Square(m)
  {
    assert m * t == n * Square(m);
    assert q - 2.0 * m * t + n * Square(m) == q - n * Square(m);
    RatioLess(q, n, Square(m));
  }

  lemma RatioLess(q: real, n: real, x: real)
    requires n > 0.0
    ensures (q - n * x) / n == q / n - x
  {
  }

  // ---------------------------------------------------------------- the summary

  datatype Summary = Summary(mean: real, p50: real, p95: real, min: real, max: real, std: real, count: nat)

  /** Square roots of what has one. */
  ghost predicate Roots(root: real -> real) {
    forall x | x >= 0.0 :: root(x) >= 0.0 && Square(root(x)) == x
  }

  /** `latency_summary`: the extremes are values of the sample, and everything else lies between them in order. */
  method LatencySummary(values: seq<real>, root: real -> real) returns (r: Summary)
    requires Roots(root)
    ensures values == [] ==> r == Summary(0.0, 0.0, 0.0, 0.0, 0.0, 0.0, 0)
    ensures values != [] ==> r.min in values && r.max in values && Bounded(values, r.min, r.max)
    ensures values != [] ==> r.min <= r.p50 <= r.p95 <= r.max && r.min <= r.mean <= r.max && r.count == |values|
    ensures values != [] ==>
      && r.p50 == Percentile(SortedOf(values), 50.0) && r.p95 == Percentile(SortedOf(values), 95.0)
      && r.mean == Mean(values) && r.std >= 0.0 && (|values| > 1 ==> Square(r.std) == Variance(values))
  {
    if values == [] {
      return Summary(0.0, 0.0, 0.0, 0.0, 0.0, 0.0, 0);
    }
    hide Percentile, Mean, Sorted, Variance, Square;
    var ordered := SortedOf(values);
    SortedOfIs(values);
    SortedBounds(values, ordered);
    SortedMoments(values);
    VarianceSign(values);
    PercentileIsMonotone(ordered, 50.0, 95.0);
    MeanBounds(ordered, ordered[0], ordered[|ordered| - 1]);
    var first := SameValues(ordered, values, 0);
    var last := SameValues(ordered, values, |ordered| - 1);
    var std := if |ordered| > 1 then root(Variance(ordered)) else 0.0;
    r := Summary(Mean(ordered), Percentile(ordered, 50.0), Percentile(ordered, 95.0), ordered[0],
                 ordered[|ordered| - 1], std, |ordered|);
  }

  // ---------------------------------------------------------------- bootstrap

  datatype Interval = Interval(mean: real, low: real, high: real)

  function Lowest(s: seq<real>): (low: real)
    requires s != []
  {
    SortedOfIs(s);
    SortedOf(s)[0]
  }

  function Highest(s: seq<real>): (high: real)
    requires s != []
  {
    SortedOfIs(s);
    SortedOf(s)[|s| - 1]
  }

  lemma Extremes(s: seq<real>)
    requires s != []
    ensures Bounded(s, Lowest(s), Highest(s))
  {
    SortedOfIs(s);
    SortedBounds(s, SortedOf(s));
  }

  type Draws = (nat, nat) -> nat

  /** Every draw is a choice among the deltas. */
  ghost predicate Chooses(draw: Draws, n: nat) {
    forall k, i | 0 <= i < n :: draw(k, i) < n
  }

  /** Resample `round`: as many draws as there are deltas. */
  function Resample(deltas: seq<real>, draw: Draws, round: nat): (r: seq<real>)
    requires Chooses(draw, |deltas|)
    ensures |r| == |deltas| && forall i | 0 <= i < |r| :: r[i] == deltas[draw(round, i)]
  {
    seq(|deltas|, i requires 0 <= i < |deltas| => deltas[draw(round, i)])
  }

  /** The means of the resamples, in the order in which they are drawn. */
  ghost predicate MeansOf(deltas: seq<real>, draw: Draws, means: seq<real>)
    requires deltas != [] && Chooses(draw, |deltas|)
  {
    forall k | 0 <= k < |means| :: means[k] == Mean(Resample(deltas, draw, k))
  }

  /** sum(rng.choice(values) for _ in values) / len(values) */
  method ResampleMean(deltas: seq<real>, draw: Draws, round: nat) returns (mean: real)
    requires deltas != [] && Chooses(draw, |deltas|)
    ensures mean == Mean(Resample(deltas, draw, round)) && Lowest(deltas) <= mean <= Highest(deltas)
  {
    Extremes(deltas);
    hide Lowest, Highest, Mean;
    ghost var sample := Resample(deltas, draw, round);
    var total := 0.0;
    for i := 0 to |deltas|
      invariant total == Total(sample[..i])
    {
      assert sample[..i + 1][..i] == sample[..i];
      total := total + deltas[draw(round, i)];
    }
    assert sample[..|deltas|] == sample;
    MeanBounds(sample, Lowest(deltas), Highest(deltas));
    mean := total / |deltas| as real;
  }

  lemma Indices(resamples: nat)
    ensures (0.025 * resamples as real).Floor == resamples / 40
    ensures (0.975 * resamples as real).Floor == 39 * resamples / 40
  {
    Fortieth(resamples);
    Fortieth(39 * resamples);
  }

  lemma Fortieth(n: nat)
    ensures (n as real / 40.0).Floor == n / 40
  {
    assert (n / 40 * 40) as real == (n / 40) as real * 40.0;
    assert (n / 40) as real <= n as real / 40.0 < (n / 40) as real + 1.0;
  }

  /** `paired_bootstrap`; `draw(k, i)` is the i-th random choice of resample k. None stands for the
      index error of an empty list of means, which takes deltas but no resample. */
  method PairedBootstrap(deltas: seq<real>, resamples: int, draw: Draws)
    returns (r: Option<Interval>, ghost means: seq<real>)
    requires Chooses(draw, |deltas|)
    ensures r.None? <==> deltas != [] && resamples <= 0
    ensures deltas == [] ==> r == Some(Interval(0.0, 0.0, 0.0))
    ensures r.Some? && deltas != [] ==>
      && |means| == resamples && MeansOf(deltas, draw, means) && r.value.mean == Mean(deltas)
      && var low := (0.025 * resamples as real).Floor - 1;
      && var high := (0.975 * resamples as real).Floor;
      && low < |SortedOf(means)| == resamples
      && r.value.low == SortedOf(means)[if low < 0 then 0 else low]
      && r.value.high == SortedOf(means)[if high < resamples then high else resamples - 1]
      && Lowest(deltas) <= r.value.low <= r.value.high <= Highest(deltas)
  {
    means := [];
    if deltas == [] {
      return Some(Interval(0.0, 0.0, 0.0)), means;
    }
    hide Lowest, Highest, Mean, Resample;
    if resamples > 0 {
      Indices(resamples);
    }
    var drawn: seq<real> := [];
    for round := 0 to if resamples > 0 then resamples else 0
      invariant |drawn| == round && MeansOf(deltas, draw, drawn) && Bounded(drawn, Lowest(deltas), Highest(deltas))
    {
      var mean := ResampleMean(deltas, draw, round);
      drawn := drawn + [mean];
    }
    means := drawn;
    var ordered := SortedOf(drawn);
    SortedOfIs(drawn);
    var lowIndex := if resamples / 40 - 1 > 0 then resamples / 40 - 1 else 0;
    var highIndex := if 39 * resamples / 40 < |ordered| - 1 then 39 * resamples / 40 else |ordered| - 1;
    if lowIndex >= |ordered| || highIndex < 0 {
      return None, means;
    }
    var low := SameValues(ordered, drawn, lowIndex);
    var high := SameValues(ordered, drawn, highIndex);
    return Some(Interval(Mean(deltas), ordered[lowIndex], ordered[highIndex])), means;
  }
}
