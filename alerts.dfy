/**
 * The epidemic alert of Dash.py's Alerts tab: a period is flagged when its
 * count exceeds baseline + 2 sigma, the baseline being the mean of the grouped
 * counts and sigma their sample standard deviation (pandas `std`, n - 1 in the
 * denominator). The comparison is stated over exact reals and without the
 * square root: c > m + 2 sigma  iff  c - m > 0 and (c - m)^2 > 4 sigma^2.
 */
module Alerting {
  import opened Dataset
  import opened TimeSeries
  import opened Aggregate
  import opened Masking

  function Sum(cs: seq<int>): int {
    if cs == [] then 0 else cs[0] + Sum(cs[1..])
  }

  function Sq(x: real): real {
    x * x
  }

  /** `grouped.mean()`, the baseline: n times the mean is the sum of the counts. */
  function Mean(cs: seq<int>): (m: real)
    requires |cs| > 0
    ensures IsAverage(m, |cs|, Sum(cs))
  {
    MeanTimesCount(Sum(cs) as real, |cs| as real);
    Sum(cs) as real / |cs| as real
  }

  /** m is the average of n numbers adding up to total: n times m is total. */
  predicate IsAverage(m: real, n: nat, total: int) {
    m * n as real == total as real
  }

  /** Sum of squared distances from m. */
  function SquaredDeviations(cs: seq<int>, m: real): (q: real)
    ensures q >= 0.0
  {
    if cs == [] then 0.0 else Sq(cs[0] as real - m) + SquaredDeviations(cs[1..], m)
  }

  /**
   * `grouped.std() ** 2`: the sample variance, defined from two periods on
   * (pandas gives NaN below). It spreads the squared deviations from the mean
   * over n - 1 degrees of freedom and is never negative.
   */
  function SampleVariance(cs: seq<int>): (v: real)
    requires |cs| >= 2
    ensures IsSpreadOver(v, SquaredDeviations(cs, Mean(cs)), (|cs| - 1) as real)
  {
    QuotientFacts(SquaredDeviations(cs, Mean(cs)), (|cs| - 1) as real);
    SquaredDeviations(cs, Mean(cs)) / (|cs| - 1) as real
  }

  /**
   * `c > mean + 2 * std`; false whenever the threshold is NaN (fewer than two
   * periods). Without the division by n - 1 it reads
   * (n - 1) * (c - mean)^2 > 4 * (sum of squared deviations), c above the mean.
   */
  function AboveThreshold(cs: seq<int>, c: int): (b: bool)
    ensures b ==> |cs| >= 2 && c as real > Mean(cs)
    ensures |cs| >= 2 ==>
              (b <==> c as real > Mean(cs)
                      && (|cs| - 1) as real * Sq(c as real - Mean(cs)) > 4.0 * SquaredDeviations(cs, Mean(cs)))
  {
    if |cs| < 2 then false
    else
      ScaledCompare(Sq(c as real - Mean(cs)), SampleVariance(cs), (|cs| - 1) as real, SquaredDeviations(cs, Mean(cs)));
      c as real - Mean(cs) > 0.0 && Sq(c as real - Mean(cs)) > 4.0 * SampleVariance(cs)
  }

  /** Scaling both sides of y > 4v by k > 0, where v * k == q. */
  lemma ScaledCompare(y: real, v: real, k: real, q: real)
    requires k > 0.0 && IsSpreadOver(v, q, k)
    ensures y > 4.0 * v <==> k * y > 4.0 * q
  {
    assert k * y - 4.0 * q == k * (y - 4.0 * v);
    if y > 4.0 * v {
      MulPositive(k, y - 4.0 * v);
    } else {
      MulNonneg(k, 4.0 * v - y);
    }
  }

  /** v is q spread over k: v * k == q, and v is not negative. */
  predicate IsSpreadOver(v: real, q: real, k: real) {
    v * k == q && v >= 0.0
  }

  lemma QuotientFacts(q: real, k: real)
    requires q >= 0.0 && k > 0.0
    ensures IsSpreadOver(q / k, q, k)
  {
    MeanTimesCount(q, k);
    PositiveFactor(k, q / k);
  }

  /**
   * For sigma the standard deviation (the non-negative square root of the
   * sample variance), the test is the source's `c > mean + 2 * sigma`.
   */
  lemma ThresholdIsTwoSigma(cs: seq<int>, c: int, sigma: real)
    requires |cs| >= 2 && sigma >= 0.0 && sigma * sigma == SampleVariance(cs)
    ensures AboveThreshold(cs, c) <==> c as real > Mean(cs) + 2.0 * sigma
  {
    TwoSigmaArith(c as real - Mean(cs), sigma, SampleVariance(cs));
  }

  lemma TwoSigmaArith(d: real, sigma: real, v: real)
    requires sigma >= 0.0 && sigma * sigma == v
    ensures (d > 0.0 && Sq(d) > 4.0 * v) <==> d > 2.0 * sigma
  {
    assert Sq(d) - 4.0 * v == (d - 2.0 * sigma) * (d + 2.0 * sigma);
    if d > 2.0 * sigma {
      MulPositive(d - 2.0 * sigma, d + 2.0 * sigma);
    } else if d > 0.0 {
      MulNonneg(2.0 * sigma - d, d + 2.0 * sigma);
    }
  }

  function IsAlertIn(s: Series): Bucket -> bool {
    (b: Bucket) => AboveThreshold(Counts(s), b.count)
  }

  /** `grouped[grouped > threshold]`: the flagged periods, in series order. */
  function Alerts(s: Series): (a: Series)
    ensures forall b :: b in a <==> b in s && AboveThreshold(Counts(s), b.count)
    ensures forall b :: multiset(a)[b] == if AboveThreshold(Counts(s), b.count) then multiset(s)[b] else 0
    ensures IsSubsequence(a, s)
    ensures a != [] ==> |s| >= 2 && forall i :: 0 <= i < |a| ==> a[i].count as real > Mean(Counts(s))
  {
    WhereFacts(s, IsAlertIn(s));
    Where(s, IsAlertIn(s))
  }

  /** The sum the baseline is taken over is the series total, `grouped.sum()`. */
  lemma {:induction false} SumCountsIsTotal(s: Series)
    ensures Sum(Counts(s)) == Total(s)
  {
    if s != [] {
      assert Counts(s)[1..] == Counts(s[1..]);
      SumCountsIsTotal(s[1..]);
    }
  }

  /**
   * The alert baseline of the grouped series is its mean over the periods: n
   * times the baseline is the disease column summed over the dated records,
   * the same total the KPI card shows.
   */
  lemma BaselineIsDatedMean(rows: seq<Row>, col: string, g: Granularity)
    requires GroupData(rows, col, g) != []
    ensures var s := GroupData(rows, col, g);
            IsAverage(Mean(Counts(s)), |s|, DatedSum(rows, col))
  {
    BaselineOfTotal(GroupData(rows, col, g), DatedSum(rows, col));
  }

  lemma BaselineOfTotal(s: Series, t: int)
    requires s != [] && Total(s) == t
    ensures IsAverage(Mean(Counts(s)), |s|, t)
  {
    SumCountsIsTotal(s);
  }

  /** With fewer than two periods the standard deviation is NaN and nothing is flagged. */
  lemma NoAlertsBelowTwoPeriods(s: Series)
    requires |s| < 2
    ensures Alerts(s) == []
  {
    WhereNone(s, IsAlertIn(s));
  }

  lemma {:induction false} SumConstant(cs: seq<int>, c: int)
    requires forall i :: 0 <= i < |cs| ==> cs[i] == c
    ensures Sum(cs) == |cs| * c
  {
    if cs != [] {
      SumConstant(cs[1..], c);
    }
  }

  /** A flat series raises no alert: every count equals the baseline. */
  lemma NoAlertsWhenFlat(s: Series)
    requires forall i, j :: 0 <= i < |s| && 0 <= j < |s| ==> s[i].count == s[j].count
    ensures Alerts(s) == []
  {
    var cs := Counts(s);
    if |s| > 0 {
      SumConstant(cs, s[0].count);
      assert Mean(cs) == s[0].count as real;
    }
    WhereNone(s, IsAlertIn(s));
  }

  lemma {:induction false} SumAtLeast(cs: seq<int>, lo: int)
    requires forall i :: 0 <= i < |cs| ==> lo <= cs[i]
    ensures |cs| * lo <= Sum(cs)
  {
    if cs != [] {
      SumAtLeast(cs[1..], lo);
    }
  }

  /** The smallest count is never above the baseline, so some period is never flagged. */
  lemma SomePeriodNotAlert(s: Series) returns (i: int)
    requires |s| > 0
    ensures 0 <= i < |s| && s[i] !in Alerts(s)
  {
    i := MinIndex(s);
    var cs := Counts(s);
    SumAtLeast(cs, s[i].count);
    BelowMean(|cs| as real, s[i].count as real, Sum(cs) as real);
    assert !AboveThreshold(cs, s[i].count);
  }

  lemma BelowMean(n: real, lo: real, total: real)
    requires n > 0.0 && n * lo <= total
    ensures lo <= total / n
  {
    assert total / n == total * (1.0 / n);
    assert lo == (n * lo) * (1.0 / n);
  }

  function MinIndex(s: Series): (i: int)
    requires |s| > 0
    ensures 0 <= i < |s| && forall j :: 0 <= j < |s| ==> s[i].count <= s[j].count
  {
    if |s| == 1 then 0
    else
      var k := MinIndex(s[..|s| - 1]);
      if s[|s| - 1].count < s[k].count then |s| - 1 else k
  }

  // ---------------------------------------------------------------------------
  // How far from the mean a single count can be (Samuelson's inequality), and
  // what it means for the alert: with five periods or fewer nothing is flagged.

  lemma {:induction false} SumAppend(a: seq<int>, b: seq<int>, m: real)
    ensures Sum(a + b) == Sum(a) + Sum(b)
    ensures SquaredDeviations(a + b, m) == SquaredDeviations(a, m) + SquaredDeviations(b, m)
  {
    if a == [] {
      assert a + b == b;
    } else {
      assert (a + b)[0] == a[0];
      assert (a + b)[1..] == a[1..] + b;
      SumAppend(a[1..], b, m);
    }
  }

  lemma MulNonneg(a: real, b: real)
    requires a >= 0.0 && b >= 0.0
    ensures a * b >= 0.0
  {
  }

  lemma SquareNonneg(x: real)
    ensures x * x >= 0.0
  {
    if x >= 0.0 {
      MulNonneg(x, x);
    } else {
      MulNonneg(-x, -x);
      assert (-x) * (-x) == x * x;
    }
  }

  lemma MulPositive(a: real, b: real)
    requires a > 0.0 && b > 0.0
    ensures a * b > 0.0
  {
  }

  lemma PositiveFactor(k: real, x: real)
    requires k > 0.0 && k * x >= 0.0
    ensures x >= 0.0
  {
    if x < 0.0 {
      MulPositive(k, -x);
    }
  }

  /** The induction step of Cauchy-Schwarz, on plain numbers. */
  lemma CauchySchwarzStep(k: real, a: real, t: real, q: real)
    requires k > 0.0 && t * t <= k * q
    ensures (a + t) * (a + t) <= (k + 1.0) * (a * a + q)
  {
    var d := k * a * a + q - 2.0 * a * t;
    assert (k + 1.0) * (a * a + q) - (a + t) * (a + t) == d + (k * q - t * t);
    assert k * d == (k * a - t) * (k * a - t) + (k * q - t * t);
    SquareNonneg(k * a - t);
    PositiveFactor(k, d);
  }

  lemma ShiftCount(total: real, x: real, k: real, m: real)
    ensures (x + total) - (k + 1.0) * m == (x - m) + (total - k * m)
  {
  }

  /** The distances of the counts from m. */
  function Deviations(cs: seq<int>, m: real): (ds: seq<real>)
    ensures |ds| == |cs|
  {
    if cs == [] then [] else [cs[0] as real - m] + Deviations(cs[1..], m)
  }

  function RealSum(ys: seq<real>): real {
    if ys == [] then 0.0 else ys[0] + RealSum(ys[1..])
  }

  function SumOfSquares(ys: seq<real>): real {
    if ys == [] then 0.0 else Sq(ys[0]) + SumOfSquares(ys[1..])
  }

  lemma {:induction false} DeviationsSum(cs: seq<int>, m: real)
    ensures RealSum(Deviations(cs, m)) == Sum(cs) as real - |cs| as real * m
  {
    if cs != [] {
      DeviationsSum(cs[1..], m);
      ShiftCount(Sum(cs[1..]) as real, cs[0] as real, |cs[1..]| as real, m);
    }
  }

  lemma {:induction false} DeviationsSquares(cs: seq<int>, m: real)
    ensures SumOfSquares(Deviations(cs, m)) == SquaredDeviations(cs, m)
  {
    if cs != [] {
      DeviationsSquares(cs[1..], m);
    }
  }

  /** Cauchy-Schwarz for a sum: (sum of y)^2 <= n * sum of y^2. */
  lemma {:induction false} CauchySchwarz(ys: seq<real>)
    ensures Sq(RealSum(ys)) <= |ys| as real * SumOfSquares(ys)
  {
    if ys != [] {
      var rest := ys[1..];
      CauchySchwarz(rest);
      CauchySchwarzCons(|rest| as real, ys[0], RealSum(rest), SumOfSquares(rest));
    }
  }

  /** One more term keeps the Cauchy-Schwarz bound. */
  lemma CauchySchwarzCons(k: real, a: real, t: real, q: real)
    requires k >= 0.0 && q >= 0.0
    requires k == 0.0 ==> t == 0.0 && q == 0.0
    requires Sq(t) <= k * q
    ensures Sq(a + t) <= (k + 1.0) * (Sq(a) + q)
  {
    if k > 0.0 {
      CauchySchwarzStep(k, a, t, q);
    }
  }

  lemma MeanTimesCount(total: real, n: real)
    requires n > 0.0
    ensures (total / n) * n == total
  {
  }

  /** The counts with the one at position j taken out. */
  function Without(cs: seq<int>, j: int): seq<int>
    requires 0 <= j < |cs|
  {
    cs[..j] + cs[j + 1..]
  }

  lemma SplitSum(cs: seq<int>, j: int)
    requires 0 <= j < |cs|
    ensures |Without(cs, j)| == |cs| - 1
    ensures Sum(cs) == cs[j] + Sum(Without(cs, j))
  {
    SplitAt(cs, j, 0.0);
  }

  lemma SplitAt(cs: seq<int>, j: int, m: real)
    requires 0 <= j < |cs|
    ensures |Without(cs, j)| == |cs| - 1
    ensures Sum(cs) == cs[j] + Sum(Without(cs, j))
    ensures SquaredDeviations(cs, m) == Sq(cs[j] as real - m) + SquaredDeviations(Without(cs, j), m)
  {
    assert cs == cs[..j] + ([cs[j]] + cs[j + 1..]);
    SumAppend(cs[..j], [cs[j]] + cs[j + 1..], m);
    SumAppend([cs[j]], cs[j + 1..], m);
    SumAppend(cs[..j], cs[j + 1..], m);
  }

  /** The other counts lie, in total, exactly as far below m as cs[j] lies above it, m being the mean. */
  lemma OthersDeviation(cs: seq<int>, j: int, m: real)
    requires 0 <= j < |cs| && m * |cs| as real == Sum(cs) as real
    ensures RealSum(Deviations(Without(cs, j), m)) == m - cs[j] as real
  {
    var others := Without(cs, j);
    SplitSum(cs, j);
    DeviationsSum(others, m);
    OthersArith(|cs|, cs[j], Sum(others), m, RealSum(Deviations(others, m)));
  }

  /** n counts with mean m, one of them c and the rest summing to rest: the rest lie m - c below their share. */
  lemma OthersArith(n: int, c: int, rest: int, m: real, t: real)
    requires m * n as real == (c + rest) as real
    requires t == rest as real - (n - 1) as real * m
    ensures t == m - c as real
  {
  }

  /** Cauchy-Schwarz on the other counts: (m - c)^2 <= (n - 1) * their squared deviations. */
  lemma OthersBound(cs: seq<int>, j: int, m: real)
    requires 0 <= j < |cs| && m * |cs| as real == Sum(cs) as real
    ensures Sq(m - cs[j] as real) <= (|cs| - 1) as real * SquaredDeviations(Without(cs, j), m)
  {
    var others := Without(cs, j);
    var ds := Deviations(others, m);
    assert |ds| == |cs| - 1 by {
      SplitSum(cs, j);
    }
    OthersDeviation(cs, j, m);
    DeviationsSquares(others, m);
    CauchySchwarz(ds);
    BoundArith(RealSum(ds), m - cs[j] as real, |ds| as real, (|cs| - 1) as real,
               SumOfSquares(ds), SquaredDeviations(others, m));
  }

  /** Cauchy-Schwarz for k numbers summing to t, rewritten with d == t, n == k, q == s. */
  lemma BoundArith(t: real, d: real, k: real, n: real, s: real, q: real)
    requires Sq(t) <= k * s && t == d && k == n && s == q
    ensures Sq(d) <= n * q
  {
  }

  /** n * d^2 <= (n - 1) * q: a count at distance d from the mean of n counts whose squared deviations sum to q. */
  predicate WithinSamuelson(n: real, d: real, q: real) {
    n * Sq(d) <= (n - 1.0) * q
  }

  /**
   * Samuelson's inequality: n * (c - m)^2 <= (n - 1) * sum of squared deviations from m,
   * for every count c, m being the mean (m * n equals the sum).
   */
  lemma Samuelson(cs: seq<int>, j: int, m: real)
    requires 0 <= j < |cs| && m * |cs| as real == Sum(cs) as real
    ensures WithinSamuelson(|cs| as real, cs[j] as real - m, SquaredDeviations(cs, m))
  {
    OthersBound(cs, j, m);
    SplitAt(cs, j, m);
    SamuelsonArith(|cs| as real, (|cs| - 1) as real, m, cs[j] as real,
                   SquaredDeviations(Without(cs, j), m), SquaredDeviations(cs, m));
  }

  lemma SamuelsonArith(n: real, k: real, m: real, c: real, q: real, total: real)
    requires k == n - 1.0
    requires Sq(m - c) <= k * q
    requires total == Sq(c - m) + q
    ensures WithinSamuelson(n, c - m, total)
  {
    assert Sq(m - c) == Sq(c - m);
  }

  /** With two to five periods no count can exceed mean + 2 sigma. */
  lemma NoAlertUpToFivePeriods(cs: seq<int>, j: int)
    requires 0 <= j < |cs| <= 5
    ensures !AboveThreshold(cs, cs[j])
  {
    if |cs| >= 2 {
      Samuelson(cs, j, Mean(cs));
      var y2 := Sq(cs[j] as real - Mean(cs));
      var q := SquaredDeviations(cs, Mean(cs));
      var n := |cs|;
      assert n as real * y2 <= (n as real - 1.0) * q;
      assert y2 <= 4.0 * SampleVariance(cs) by {
        assert SampleVariance(cs) == q / (n - 1) as real;
        if n == 2 { assert 2.0 * y2 <= q; }
        else if n == 3 { assert 3.0 * y2 <= 2.0 * q; }
        else if n == 4 { assert 4.0 * y2 <= 3.0 * q; }
        else { assert 5.0 * y2 <= 4.0 * q; }
      }
    }
  }

  /** A series of at most five periods never raises an alert. */
  lemma NoAlertsUpToFivePeriods(s: Series)
    requires |s| <= 5
    ensures Alerts(s) == []
  {
    forall i | 0 <= i < |s| ensures !IsAlertIn(s)(s[i]) {
      NoAlertUpToFivePeriods(Counts(s), i);
    }
    WhereNone(s, IsAlertIn(s));
  }

  /** Six quiet periods of one case each and an outbreak of 100: exactly the outbreak is flagged. */
  lemma OutbreakIsFlagged(s: Series)
    requires Counts(s) == [1, 1, 1, 1, 1, 1, 100]
    ensures Alerts(s) == [s[6]]
  {
    OutbreakStatistics();
    forall i | 0 <= i < 6
      ensures !IsAlertIn(s)(s[i])
    {
      assert s[i].count == 1;
    }
    OnlyLastFlagged(s);
  }

  lemma OutbreakStatistics()
    ensures !AboveThreshold([1, 1, 1, 1, 1, 1, 100], 1)
    ensures AboveThreshold([1, 1, 1, 1, 1, 1, 100], 100)
  {
    var cs := [1, 1, 1, 1, 1, 1, 100];
    assert Sum(cs) == 106;
    var m := 106.0 / 7.0;
    assert Mean(cs) == m;
    assert SquaredDeviations(cs, m) == 6.0 * Sq(1.0 - m) + Sq(100.0 - m);
  }

  /** The five-period bound is tight: five empty periods followed by one case flag that case. */
  lemma SixPeriodsCanAlert(s: Series)
    requires Counts(s) == [0, 0, 0, 0, 0, 1]
    ensures Alerts(s) == [s[5]]
  {
    SixPeriodStatistics();
    forall i | 0 <= i < 5
      ensures !IsAlertIn(s)(s[i])
    {
      assert s[i].count == 0;
    }
    OnlyLastFlagged(s);
  }

  lemma SixPeriodStatistics()
    ensures !AboveThreshold([0, 0, 0, 0, 0, 1], 0)
    ensures AboveThreshold([0, 0, 0, 0, 0, 1], 1)
  {
    var cs := [0, 0, 0, 0, 0, 1];
    assert Sum(cs) == 1;
    var m := 1.0 / 6.0;
    assert Mean(cs) == m;
    assert SquaredDeviations(cs, m) == 5.0 * Sq(m) + Sq(1.0 - m);
  }

  /** When only the last period is above the threshold, it is the only alert. */
  lemma OnlyLastFlagged(s: Series)
    requires |s| > 0 && IsAlertIn(s)(s[|s| - 1])
    requires forall i :: 0 <= i < |s| - 1 ==> !IsAlertIn(s)(s[i])
    ensures Alerts(s) == [s[|s| - 1]]
  {
    WhereOnlyLast(s, IsAlertIn(s));
  }
}
