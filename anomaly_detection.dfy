/** Daily-total anomaly detection (uidai-dashboard/src/components/analytics/
    AnomalyDetection.jsx, the `model` memo): the rows' totals per day, oldest day first;
    with at least ten days, each day's z-score against the population mean and standard
    deviation, and the days whose |z| reaches the threshold. The square root is avoided:
    a day is flagged when its squared deviation reaches threshold² times the variance. */
module AnomalyDetection {
  import opened Common
  import opened Aggregates
  import DashboardForecast

  const MinPoints: nat := 10
  const DefaultThreshold: real := 3.0

  /** A scored day; its z-score is `dev / std`. */
  datatype Scored = Scored(day: int, value: real, dev: real)

  /** What the memo returns. `stdSquared` is the square of the reported `std` (0 when
      too few days are scored); `scored` is empty when the days are returned unscored. */
  datatype Detection = Detection(
    points: seq<Bucket<int>>,
    scored: seq<Scored>,
    anomalies: seq<Scored>,
    mean: real,
    stdSquared: real)

  function Mean(h: seq<Bucket<int>>): real
    requires |h| > 0
  {
    Total(h) / |h| as real
  }

  /** The sum of the squared deviations from m. */
  function SquaredDeviations(h: seq<Bucket<int>>, m: real): (r: real)
    ensures r >= 0.0
  {
    if |h| == 0 then 0.0
    else
      var d := h[|h| - 1].value - m;
      SquaredDeviations(h[..|h| - 1], m) + d * d
  }

  /** The population variance (divided by N). */
  function Variance(h: seq<Bucket<int>>): (r: real)
    requires |h| > 0
    ensures r >= 0.0
  {
    SquaredDeviations(h, Mean(h)) / |h| as real
  }

  /** `Math.sqrt(variance) || 1`, squared: the variance, or 1 for a zero variance. */
  function StdSquared(variance: real): (r: real)
    requires variance >= 0.0
    ensures r > 0.0
    ensures variance > 0.0 ==> r == variance
  {
    if variance == 0.0 then 1.0 else variance
  }

  function Score(h: seq<Bucket<int>>, m: real): (r: seq<Scored>)
    ensures |r| == |h|
    ensures forall i :: 0 <= i < |r| ==> r[i] == Scored(h[i].key, h[i].value, h[i].value - m)
  {
    seq(|h|, i requires 0 <= i < |h| => Scored(h[i].key, h[i].value, h[i].value - m))
  }

  /** `Math.abs(z) >= zThreshold` for a standard deviation whose square is stdSq. */
  predicate Anomalous(p: Scored, stdSq: real, k: real) {
    k <= 0.0 || p.dev * p.dev >= k * k * stdSq
  }

  function Flagged(scored: seq<Scored>, stdSq: real, k: real): (r: seq<Scored>)
    ensures forall p :: p in r <==> p in scored && Anomalous(p, stdSq, k)
  {
    Filter(scored, p => Anomalous(p, stdSq, k))
  }

  /** The memo from the sorted daily totals h. */
  function DetectIn(h: seq<Bucket<int>>, k: real): Detection {
    if |h| < MinPoints then Detection(h, [], [], 0.0, 0.0)
    else
      var m := Mean(h);
      var sq := StdSquared(Variance(h));
      var scored := Score(h, m);
      Detection(h, scored, Flagged(scored, sq, k), m, sq)
  }

  /** The memo: the daily totals of the dated rows (a row's missing total counts 0), by
      ascending day, then scored. */
  function DetectionOf(data: seq<Row>, k: real): Detection {
    DetectIn(DashboardForecast.History(data), k)
  }

  /** The memo as the component runs it: the daily map filled row by row, its entries
      sorted by day, then scored. */
  method Detect(data: seq<Row>, k: real) returns (d: Detection)
    ensures d == DetectionOf(data, k)
  {
    var daily := DashboardForecast.DailyTotals(data);
    var points := DashboardForecast.SortDays(daily);
    d := DetectIn(points, k);
  }

  // ---------------------------------------------------------------------------

  /** The days come out distinct and in ascending order. */
  lemma DaysAscending(data: seq<Row>, k: real)
    ensures var p := DetectionOf(data, k).points;
      forall i, j :: 0 <= i < j < |p| ==> p[i].key < p[j].key
  {
  }

  /** Fewer than ten days: the days come back unscored, with no anomaly, mean 0 and
      std 0. */
  lemma FewPoints(h: seq<Bucket<int>>, k: real)
    requires |h| < MinPoints
    ensures DetectIn(h, k) == Detection(h, [], [], 0.0, 0.0)
  {
  }

  /** Ten days or more: every day is scored against the mean, the standard deviation is
      never 0, and the anomalies are exactly the scored days whose |z| reaches the
      threshold, in day order. */
  lemma Scoring(h: seq<Bucket<int>>, k: real)
    requires |h| >= MinPoints
    ensures var d := DetectIn(h, k);
      && d.mean == Mean(h)
      && d.stdSquared > 0.0
      && (Variance(h) > 0.0 ==> d.stdSquared == Variance(h))
      && (Variance(h) == 0.0 ==> d.stdSquared == 1.0)
      && |d.scored| == |h|
      && (forall i :: 0 <= i < |h| ==> d.scored[i] == Scored(h[i].key, h[i].value, h[i].value - Mean(h)))
      && (forall p :: p in d.anomalies <==> p in d.scored && Anomalous(p, d.stdSquared, k))
  {
  }

  lemma MulPositive(x: real, y: real)
    requires x > 0.0 && y > 0.0
    ensures x * y > 0.0
  {
  }

  /** For non-negative a and positive k, a >= k exactly when a² s² reaches k² s². */
  lemma ScaledSquares(a: real, k: real, s: real)
    requires a >= 0.0 && k > 0.0 && s > 0.0
    ensures a >= k ==> (a * a) * (s * s) >= (k * k) * (s * s)
    ensures a < k ==> (a * a) * (s * s) < (k * k) * (s * s)
  {
    assert s * s > 0.0;
    if a >= k {
      assert a * a >= k * k;
    } else {
      MulPositive(k - a, k + a);
      assert a * a < k * k;
    }
  }

  /** `dev² >= k² std²` exactly when `|dev / std| >= k`. */
  lemma ZScoreSquared(dev: real, std: real, k: real)
    requires std > 0.0 && k > 0.0
    ensures dev * dev >= (k * k) * (std * std) <==> Abs(dev / std) >= k
  {
    assert dev == (dev / std) * std;
    assert Abs(dev / std) * Abs(dev / std) == (dev / std) * (dev / std);
    assert dev * dev == (Abs(dev / std) * Abs(dev / std)) * (std * std);
    ScaledSquares(Abs(dev / std), k, std);
    if Abs(dev / std) < k {
      calc {
        dev * dev;
        (Abs(dev / std) * Abs(dev / std)) * (std * std);
      <
        (k * k) * (std * std);
      }
    }
  }

  /** Comparing squares is the source's test: for a positive standard deviation,
      `dev^2 >= k^2 * std^2` exactly when `|dev / std| >= k`. */
  lemma AnomalousIsZScore(p: Scored, std: real, k: real)
    requires std > 0.0
    ensures Anomalous(p, std * std, k) <==> Abs(p.dev / std) >= k
  {
    if k > 0.0 {
      ZScoreSquared(p.dev, std, k);
    }
  }

  /** The sum of the deviations from m. */
  function SumDev(s: seq<Scored>): real {
    if |s| == 0 then 0.0 else SumDev(s[..|s| - 1]) + s[|s| - 1].dev
  }

  lemma {:induction false} SumDevScore(h: seq<Bucket<int>>, m: real)
    ensures SumDev(Score(h, m)) == Total(h) - |h| as real * m
  {
    if |h| > 0 {
      var n := |h| - 1;
      assert Score(h, m)[..n] == Score(h[..n], m);
      SumDevScore(h[..n], m);
      TotalSnoc(h);
    }
  }

  /** The deviations from the mean cancel out. */
  lemma DeviationsCancel(h: seq<Bucket<int>>, k: real)
    requires |h| >= MinPoints
    ensures SumDev(DetectIn(h, k).scored) == 0.0
  {
    SumDevScore(h, Mean(h));
  }

  lemma SquareZero(d: real)
    ensures d * d >= 0.0
    ensures d != 0.0 ==> d * d > 0.0
  {
    if d > 0.0 {
      MulPositive(d, d);
    } else if d < 0.0 {
      MulPositive(-d, -d);
      assert (-d) * (-d) == d * d;
    }
  }

  lemma {:induction false} NoSquaredDeviation(h: seq<Bucket<int>>, m: real)
    ensures SquaredDeviations(h, m) == 0.0 <==> forall i :: 0 <= i < |h| ==> h[i].value == m
  {
    if |h| > 0 {
      var n := |h| - 1;
      var prefix := h[..n];
      var d := h[n].value - m;
      NoSquaredDeviation(prefix, m);
      SquareZero(d);
      assert forall i :: 0 <= i < n ==> prefix[i] == h[i];
      if d != 0.0 {
        calc {
          SquaredDeviations(h, m);
          SquaredDeviations(prefix, m) + d * d;
        >=
          d * d;
        >
          0.0;
        }
      } else {
        calc {
          SquaredDeviations(h, m);
          SquaredDeviations(prefix, m) + d * d;
          SquaredDeviations(prefix, m) + 0.0 * 0.0;
          SquaredDeviations(prefix, m);
        }
      }
    }
  }

  /** The variance is 0 exactly when every day has the mean total. */
  lemma ZeroVariance(h: seq<Bucket<int>>)
    requires |h| > 0
    ensures Variance(h) == 0.0 <==> forall i :: 0 <= i < |h| ==> h[i].value == Mean(h)
  {
    NoSquaredDeviation(h, Mean(h));
  }

  /** A day with no deviation is not flagged at a positive threshold. */
  lemma ZeroDeviation(p: Scored, sq: real, k: real)
    requires k > 0.0 && sq > 0.0 && p.dev == 0.0
    ensures !Anomalous(p, sq, k)
  {
    calc {
      p.dev * p.dev;
      0.0 * 0.0;
      0.0;
    <
      k * k * sq;
    }
  }

  /** Nothing is flagged at a positive threshold when every deviation is 0. */
  lemma NoneFlagged(scored: seq<Scored>, sq: real, k: real)
    requires k > 0.0 && sq > 0.0
    requires forall i :: 0 <= i < |scored| ==> scored[i].dev == 0.0
    ensures Flagged(scored, sq, k) == []
  {
    var r := Flagged(scored, sq, k);
    if |r| > 0 {
      ZeroDeviation(r[0], sq, k);
      assert false;
    }
  }

  /** A flat series has no anomaly at a positive threshold (the zero standard deviation
      becomes 1 and every deviation is 0). */
  lemma FlatSeries(h: seq<Bucket<int>>, k: real)
    requires |h| >= MinPoints && k > 0.0
    requires forall i :: 0 <= i < |h| ==> h[i].value == Mean(h)
    ensures DetectIn(h, k).anomalies == []
  {
    var scored := Score(h, Mean(h));
    ZeroVariance(h);
    NoneFlagged(scored, 1.0, k);
  }

  lemma {:induction false} DeviationsBelow(h: seq<Bucket<int>>, m: real, c: real)
    requires forall i :: 0 <= i < |h| ==> (h[i].value - m) * (h[i].value - m) < c
    ensures |h| > 0 ==> SquaredDeviations(h, m) < |h| as real * c
    ensures |h| == 0 ==> SquaredDeviations(h, m) == 0.0
  {
    if |h| > 0 {
      var n := |h| - 1;
      assert forall i :: 0 <= i < n ==> h[..n][i] == h[i];
      DeviationsBelow(h[..n], m, c);
      assert |h| as real * c == n as real * c + c;
    }
  }

  lemma MulNonNegative(x: real, y: real)
    requires x >= 0.0 && y >= 0.0
    ensures x * y >= 0.0
  {
    if x > 0.0 && y > 0.0 {
      MulPositive(x, y);
    }
  }

  lemma UnitScale(k: real, s: real)
    requires 0.0 < k <= 1.0 && s > 0.0
    ensures k * k * s <= s
  {
    MulNonNegative(1.0 - k, k);
    assert (1.0 - k) * k == k - k * k;
    MulNonNegative(k - k * k, s);
    assert (k - k * k) * s == k * s - k * k * s;
    MulNonNegative(1.0 - k, s);
    assert (1.0 - k) * s == s - k * s;
  }

  /** A day whose squared deviation reaches sq is flagged at a threshold of at most 1. */
  lemma OneFlagged(scored: seq<Scored>, sq: real, k: real, i: nat)
    requires sq > 0.0 && k <= 1.0 && i < |scored|
    requires scored[i].dev * scored[i].dev >= sq
    ensures |Flagged(scored, sq, k)| > 0
  {
    if k > 0.0 {
      UnitScale(k, sq);
      calc {
        scored[i].dev * scored[i].dev;
      >=
        sq;
      >=
        k * k * sq;
      }
    }
    assert Anomalous(scored[i], sq, k);
    assert scored[i] in Flagged(scored, sq, k);
  }

  /** Some day deviates from the mean by at least one standard deviation, so at a
      threshold of at most 1 a series that is not flat always has an anomaly. */
  lemma LowThresholdFlags(h: seq<Bucket<int>>, k: real)
    requires |h| >= MinPoints && k <= 1.0
    requires Variance(h) > 0.0
    ensures |DetectIn(h, k).anomalies| > 0
  {
    var i := WideDeviation(h);
    var scored := Score(h, Mean(h));
    OneFlagged(scored, Variance(h), k, i);
  }

  lemma VarianceTimesCount(h: seq<Bucket<int>>)
    requires |h| > 0
    ensures |h| as real * Variance(h) == SquaredDeviations(h, Mean(h))
  {
  }

  /** Some day's squared deviation from m reaches v when v is the mean of the squared
      deviations. */
  lemma WideDeviationFrom(h: seq<Bucket<int>>, m: real, v: real) returns (i: nat)
    requires |h| > 0
    requires |h| as real * v == SquaredDeviations(h, m)
    ensures i < |h|
    ensures (h[i].value - m) * (h[i].value - m) >= v
  {
    if exists j :: 0 <= j < |h| && (h[j].value - m) * (h[j].value - m) >= v {
      i :| 0 <= i < |h| && (h[i].value - m) * (h[i].value - m) >= v;
    } else {
      DeviationsBelow(h, m, v);
      assert false;
    }
  }

  /** A day whose squared deviation is at least the variance. */
  lemma WideDeviation(h: seq<Bucket<int>>) returns (i: nat)
    requires |h| > 0
    ensures i < |h|
    ensures (h[i].value - Mean(h)) * (h[i].value - Mean(h)) >= Variance(h)
  {
    VarianceTimesCount(h);
    i := WideDeviationFrom(h, Mean(h), Variance(h));
  }
}
