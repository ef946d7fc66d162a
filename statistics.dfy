/** Descriptive statistics of one numeric column (`calculateStatistics`, js/ml-analyzer.js): count, mean,
    population variance, median, positional quartiles, minimum, maximum, interquartile range and range.
    The standard deviation, a square root, is not part of this model. */
module Statistics {
  import opened Numeric
  import opened Sorting

  datatype Stats = Stats(
    count: nat, mean: real, median: real, variance: real,
    min: real, max: real, q1: real, q3: real, iqr: real, range: real)

  /** The comparator `(a, b) => a - b`, as "may come first". */
  function Ascending(): (real, real) -> bool {
    (a: real, b: real) => a <= b
  }

  lemma AscendingIsTotalPreorder()
    ensures TotalPreorder(Ascending())
  {
  }

  /** `Math.floor(n * 0.25)` and `Math.floor(n * 0.75)`. */
  function Q1Index(n: nat): int {
    ((n as real) * 0.25).Floor
  }

  function Q3Index(n: nat): int {
    ((n as real) * 0.75).Floor
  }

  /** Both quartile positions are in range, the lower one first. */
  lemma QuartileIndices(n: nat)
    requires n > 0
    ensures Q1Index(n) == n / 4 && Q3Index(n) == 3 * n / 4
    ensures 0 <= Q1Index(n) <= Q3Index(n) < n
  {
    var q, r := n / 4, n % 4;
    assert n == 4 * q + r;
    assert (n as real) * 0.25 == q as real + r as real * 0.25;
    assert (n as real) * 0.75 == (3 * q) as real + r as real * 0.75;
    assert 3 * n / 4 == 3 * q + (3 * r) / 4;
  }

  /** The middle of a sorted sequence: the middle element, or the mean of the two middle ones. */
  function Median(sorted: seq<real>): real
    requires |sorted| > 0
  {
    var n := |sorted|;
    if n % 2 == 0 then (sorted[n / 2 - 1] + sorted[n / 2]) / 2.0 else sorted[n / 2]
  }

  /** `calculateStatistics` on the column's values: the error variant for no values. */
  function CalculateStatistics(xs: seq<real>): (r: Result<Stats>)
    ensures r.Err? <==> |xs| == 0
    ensures r.Err? ==> r.error == InsufficientData
    ensures r.Ok? ==> r.value.count == |xs|
  {
    if |xs| == 0 then Err(InsufficientData)
    else
      var sorted := SortBy(xs, Ascending());
      var n := |xs|;
      var mean := Sum(xs) / n as real;
      var variance := SquaredDeviations(xs, mean) / n as real;
      QuartileIndices(n);
      var q1 := sorted[Q1Index(n)];
      var q3 := sorted[Q3Index(n)];
      Ok(Stats(n, mean, Median(sorted), variance, sorted[0], sorted[n - 1], q1, q3, q3 - q1, sorted[n - 1] - sorted[0]))
  }

  lemma SortedMonotone(s: seq<real>, a: nat, b: nat)
    requires SortedBy(s, Ascending())
    requires a <= b < |s|
    ensures s[a] <= s[b]
  {
    if a < b {
      assert Ascending()(s[a], s[b]);
    }
  }

  /** `min` and `max` are the least and the greatest value, and each is one of the values. */
  lemma StatisticsExtremes(xs: seq<real>)
    requires |xs| > 0
    ensures var s := CalculateStatistics(xs).value;
      && (forall i :: 0 <= i < |xs| ==> s.min <= xs[i] <= s.max)
      && s.min in xs && s.max in xs
  {
    var sorted := SortBy(xs, Ascending());
    var n := |xs|;
    AscendingIsTotalPreorder();
    SortBySorted(xs, Ascending());
    SortByMultiset(xs, Ascending());
    forall i | 0 <= i < n ensures sorted[0] <= xs[i] <= sorted[n - 1] {
      assert xs[i] in multiset(sorted);
      var k :| 0 <= k < n && sorted[k] == xs[i];
      SortedMonotone(sorted, 0, k);
      SortedMonotone(sorted, k, n - 1);
    }
    assert sorted[0] in multiset(xs) && sorted[n - 1] in multiset(xs);
  }

  /** The order of the five-number summary: `min <= q1 <= median <= q3 <= max`, so `iqr` and `range` are
      non-negative. */
  lemma StatisticsOrder(xs: seq<real>)
    requires |xs| > 0
    ensures var s := CalculateStatistics(xs).value;
      && s.min <= s.q1 <= s.median <= s.q3 <= s.max
      && s.iqr >= 0.0 && s.range >= 0.0
  {
    var sorted := SortBy(xs, Ascending());
    var n := |xs|;
    AscendingIsTotalPreorder();
    SortBySorted(xs, Ascending());
    QuartileIndices(n);
    var q1i, q3i := Q1Index(n), Q3Index(n);
    SortedMonotone(sorted, 0, q1i);
    SortedMonotone(sorted, q3i, n - 1);
    if n % 2 == 0 {
      SortedMonotone(sorted, q1i, n / 2 - 1);
      SortedMonotone(sorted, n / 2 - 1, n / 2);
      SortedMonotone(sorted, n / 2, q3i);
    } else {
      SortedMonotone(sorted, q1i, n / 2);
      SortedMonotone(sorted, n / 2, q3i);
    }
  }

  /** The mean lies between `min` and `max`, and the variance, the mean squared deviation from the mean,
      is never negative. */
  lemma StatisticsMoments(xs: seq<real>, s: Stats)
    requires CalculateStatistics(xs) == Ok(s)
    ensures s.min <= s.mean <= s.max
    ensures s.variance >= 0.0
  {
    assert s.mean == Mean(xs);
    StatisticsExtremes(xs);
    MeanBounds(xs, s.min, s.max);
    DivideByCount(SquaredDeviations(xs, s.mean), |xs| as real, s.variance);
  }

  lemma DivideByCount(a: real, n: real, q: real)
    requires n > 0.0 && q == a / n
    ensures q * n == a
    ensures a >= 0.0 ==> q >= 0.0
  {
  }

  /** The values 3, 1, 2: mean 2, median 2, variance 2/3, quartiles at sorted positions 0 and 2. */
  lemma StatisticsExample()
    ensures CalculateStatistics([3.0, 1.0, 2.0]) ==
      Ok(Stats(3, 2.0, 2.0, 2.0 / 3.0, 1.0, 3.0, 1.0, 3.0, 2.0, 2.0))
  {
    var xs := [3.0, 1.0, 2.0];
    assert xs[..2] == [3.0, 1.0] && [3.0, 1.0][..1] == [3.0] && [3.0][..0] == [];
    assert SortBy([3.0, 1.0], Ascending()) == [1.0, 3.0];
    assert Insert([1.0, 3.0], 2.0, Ascending()) == [1.0, 2.0, 3.0] by {
      assert [1.0, 3.0][..1] == [1.0];
    }
    assert SortBy(xs, Ascending()) == [1.0, 2.0, 3.0];
    assert Sum(xs) == 6.0 by {
      assert Sum([3.0, 1.0]) == 4.0;
    }
    assert SquaredDeviations(xs, 2.0) == 2.0 by {
      assert SquaredDeviations([3.0, 1.0], 2.0) == 2.0;
    }
    QuartileIndices(3);
  }
}
