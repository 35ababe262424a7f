/** The 30-day enrollment forecast of the dashboard page
    (uidai-dashboard/src/pages/Dashboard.jsx, the `forecast` memo): daily totals of the
    filtered rows, a least-squares line through the most recent 180 days, and its
    projection over the next 30 days. Days are day numbers (local midnight). */
module DashboardForecast {
  import opened Common
  import opened Aggregates

  /** One labelled point of the history or of the forecast. */
  datatype Point = Point(day: int, enrollments: int)

  datatype Forecast = Forecast(history: seq<Point>, forecast: seq<Point>, slope: real, predicted30Total: int)

  /** `y = intercept + slope * x`. */
  datatype Fit = Fit(slope: real, intercept: real)

  const WindowDays: nat := 180
  const Horizon: nat := 30

  /** A row whose date the browser can read; the others are skipped. */
  predicate HasDay(r: Row) {
    r.date.Some? && ValidDate(r.date.value)
  }

  /** The (day, total) entry of a dated row; nothing for the others. */
  function Entry(r: Row): (e: seq<Bucket<int>>)
    ensures |e| <= 1
  {
    if HasDay(r) then [Bucket(DayNumber(r.date.value), r.total)] else []
  }

  /** The entries of the dated rows, in row order. */
  function Dated(data: seq<Row>): (r: seq<Bucket<int>>)
    ensures |r| <= |data|
  {
    if |data| == 0 then [] else Dated(data[..|data| - 1]) + Entry(data[|data| - 1])
  }

  /** Strictly increasing days. */
  predicate Ascending(h: seq<Bucket<int>>) {
    forall i, j :: 0 <= i < j < |h| ==> h[i].key < h[j].key
  }

  function InsertDay(x: Bucket<int>, s: seq<Bucket<int>>): (r: seq<Bucket<int>>)
    ensures |r| == |s| + 1
    ensures multiset(r) == multiset(s) + multiset{x}
  {
    if |s| == 0 then [x]
    else if x.key <= s[0].key then [x] + s
    else
      assert s == [s[0]] + s[1..];
      [s[0]] + InsertDay(x, s[1..])
  }

  lemma {:induction false} InsertDayAscending(x: Bucket<int>, s: seq<Bucket<int>>)
    requires Ascending(s)
    requires forall y :: y in s ==> y.key != x.key
    ensures Ascending(InsertDay(x, s))
  {
    if |s| > 0 && x.key > s[0].key {
      var rest := InsertDay(x, s[1..]);
      InsertDayAscending(x, s[1..]);
      forall j | 0 <= j < |rest| ensures s[0].key < rest[j].key {
        assert rest[j] in multiset(rest);
        if rest[j] != x {
          assert rest[j] in multiset(s[1..]);
          var q :| 0 <= q < |s[1..]| && s[1..][q] == rest[j];
          assert s[q + 1] == rest[j];
        }
      }
    }
  }

  /** `.sort((a, b) => a.date - b.date)` over days that are all different: the same
      buckets in strictly increasing day order. */
  function SortDays(s: seq<Bucket<int>>): (r: seq<Bucket<int>>)
    requires DistinctKeys(s)
    ensures multiset(r) == multiset(s)
    ensures |r| == |s|
    ensures Ascending(r)
  {
    if |s| == 0 then []
    else
      assert s == [s[0]] + s[1..];
      assert DistinctKeys(s[1..]) by {
        forall i, j | 0 <= i < j < |s[1..]| ensures s[1..][i].key != s[1..][j].key {
          assert s[1..][i] == s[i + 1] && s[1..][j] == s[j + 1];
        }
      }
      var t := SortDays(s[1..]);
      forall y | y in t ensures y.key != s[0].key {
        assert y in multiset(s[1..]);
        var q :| 0 <= q < |s[1..]| && s[1..][q] == y;
        assert s[q + 1] == y;
      }
      InsertDayAscending(s[0], t);
      InsertDay(s[0], t)
  }

  /** The daily totals, oldest day first. */
  function History(data: seq<Row>): (r: seq<Bucket<int>>)
    ensures Ascending(r)
  {
    SortDays(GroupSum(Dated(data)))
  }

  /** Math.round of each day's total. */
  function Labels(h: seq<Bucket<int>>): (r: seq<Point>)
    ensures |r| == |h|
  {
    seq(|h|, i requires 0 <= i < |h| => Point(h[i].key, Round(h[i].value)))
  }

  /** Sum of the positions 0 .. n-1. */
  function SumX(n: nat): real {
    if n == 0 then 0.0 else SumX(n - 1) + (n - 1) as real
  }

  /** Sum of the squared positions 0 .. n-1. */
  function SumXX(n: nat): real {
    if n == 0 then 0.0 else SumXX(n - 1) + ((n - 1) * (n - 1)) as real
  }

  /** Sum of the values. */
  function SumY(s: seq<Bucket<int>>): real {
    if |s| == 0 then 0.0 else SumY(s[..|s| - 1]) + s[|s| - 1].value
  }

  /** Sum of position times value. */
  function SumXY(s: seq<Bucket<int>>): real {
    if |s| == 0 then 0.0 else SumXY(s[..|s| - 1]) + (|s| - 1) as real * s[|s| - 1].value
  }

  /** The regression denominator `n * sumXX - sumX * sumX`. */
  function Denominator(n: nat): real {
    n as real * SumXX(n) - SumX(n) * SumX(n)
  }

  /** Slope and intercept from the four sums over n points; a zero denominator gives
      slope 0. */
  function FitOf(n: nat, sumX: real, sumY: real, sumXX: real, sumXY: real): Fit
    requires n > 0
  {
    var denom := n as real * sumXX - sumX * sumX;
    var slope := if denom == 0.0 then 0.0 else (n as real * sumXY - sumX * sumY) / denom;
    Fit(slope, (sumY - slope * sumX) / n as real)
  }

  /** The least-squares line through the points (i, s[i].value). */
  function FitLine(s: seq<Bucket<int>>): Fit
    requires |s| > 0
  {
    FitOf(|s|, SumX(|s|), SumY(s), SumXX(|s|), SumXY(s))
  }

  /** The projected value at position x, clamped at zero. */
  function Projection(fit: Fit, x: int): (r: int)
    ensures r >= 0
  {
    var y := Round(fit.intercept + fit.slope * x as real);
    if y >= 0 then y else 0
  }

  /** The forecast points for the `Horizon` days after `last`, for a window of n days. */
  function Projected(last: int, fit: Fit, n: nat): (r: seq<Point>)
    ensures |r| == Horizon
  {
    seq(Horizon, i requires 0 <= i < Horizon => Point(last + i + 1, Projection(fit, n - 1 + i + 1)))
  }

  function SumEnrollments(p: seq<Point>): int {
    if |p| == 0 then 0 else SumEnrollments(p[..|p| - 1]) + p[|p| - 1].enrollments
  }

  /** What the memo returns: null for no rows, the bare history for fewer than two days,
      and otherwise the window, the projection, the slope and the projected total. */
  function ForecastOf(data: seq<Row>): (r: Option<Forecast>)
    ensures r.None? <==> |data| == 0
  {
    if |data| == 0 then None else Some(ForecastFrom(History(data)))
  }

  /** The forecast from the day totals: the history alone for fewer than two days, else
      the window's history and its projection. */
  function ForecastFrom(h: seq<Bucket<int>>): Forecast {
    if |h| < 2 then Forecast(Labels(h), [], 0.0, 0)
    else
      var s := TakeLast(h, WindowDays);
      var fit := FitLine(s);
      var pts := Projected(s[|s| - 1].key, fit, |s|);
      Forecast(Labels(s), pts, fit.slope, SumEnrollments(pts))
  }

  lemma DatedStep(data: seq<Row>, k: nat)
    requires k < |data|
    ensures Dated(data[..k + 1]) == Dated(data[..k]) + Entry(data[k])
  {
    assert data[..k + 1][..k] == data[..k];
  }

  lemma SumsStep(s: seq<Bucket<int>>, i: nat)
    requires i < |s|
    ensures SumY(s[..i + 1]) == SumY(s[..i]) + s[i].value
    ensures SumXY(s[..i + 1]) == SumXY(s[..i]) + i as real * s[i].value
  {
    assert s[..i + 1][..i] == s[..i];
  }

  lemma ProjectedStep(last: int, fit: Fit, n: nat, i: nat, points: seq<Point>, y: int)
    requires 1 <= i <= Horizon
    requires points == Projected(last, fit, n)[..i - 1]
    requires y == Projection(fit, n - 1 + i)
    ensures Projected(last, fit, n)[..i] == points + [Point(last + i, y)]
    ensures (points + [Point(last + i, y)])[..i - 1] == points
  {
    var p := Projected(last, fit, n);
    assert p[i - 1] == Point(last + i, y);
    assert p[..i] == p[..i - 1] + [p[i - 1]];
  }

  /** The daily-totals loop: each dated row adds its total to its day's entry. */
  method DailyTotals(data: seq<Row>) returns (daily: seq<Bucket<int>>)
    ensures daily == GroupSum(Dated(data))
  {
    daily := [];
    assert Dated(data[..0]) == [];
    for k := 0 to |data|
      invariant daily == GroupSum(Dated(data[..k]))
    {
      DatedStep(data, k);
      var e := Dated(data[..k]);
      var entry := Entry(data[k]);
      if |entry| == 1 {
        var x := entry[0];
        assert entry == [x];
        GroupSumStep(e, x);
        daily := Bump(daily, x.key, x.value);
      } else {
        assert e + entry == e;
      }
    }
    assert data[..|data|] == data;
  }

  /** The accumulator loop of the regression. */
  method RegressionSums(series: seq<Bucket<int>>) returns (sumX: real, sumY: real, sumXX: real, sumXY: real)
    ensures sumX == SumX(|series|) && sumXX == SumXX(|series|)
    ensures sumY == SumY(series) && sumXY == SumXY(series)
  {
    sumX, sumY, sumXX, sumXY := 0.0, 0.0, 0.0, 0.0;
    for i := 0 to |series|
      invariant sumX == SumX(i) && sumXX == SumXX(i)
      invariant sumY == SumY(series[..i]) && sumXY == SumXY(series[..i])
    {
      SumsStep(series, i);
      var x := i as real;
      var y := series[i].value;
      sumX := sumX + x;
      sumY := sumY + y;
      sumXX := sumXX + (i * i) as real;
      sumXY := sumXY + x * y;
    }
    assert series[..|series|] == series;
  }

  /** The projection loop: one point per day after `last`, and their running total. */
  method ProjectPoints(last: int, fit: Fit, n: nat) returns (points: seq<Point>, predicted: int)
    ensures points == Projected(last, fit, n)
    ensures predicted == SumEnrollments(points)
  {
    points := [];
    predicted := 0;
    for i := 1 to Horizon + 1
      invariant points == Projected(last, fit, n)[..i - 1]
      invariant predicted == SumEnrollments(points)
    {
      var y := Round(fit.intercept + fit.slope * (n - 1 + i) as real);
      if y < 0 {
        y := 0;
      }
      assert y == Projection(fit, n - 1 + i);
      ProjectedStep(last, fit, n, i, points, y);
      predicted := predicted + y;
      points := points + [Point(last + i, y)];
    }
    assert Projected(last, fit, n)[..Horizon] == Projected(last, fit, n);
  }

  /** The memo as the page runs it: the daily map is filled, sorted, cut to the window,
      the four sums are accumulated and the 30 points pushed. */
  method ComputeForecast(data: seq<Row>) returns (r: Option<Forecast>)
    ensures r == ForecastOf(data)
  {
    if |data| == 0 {
      return None;
    }
    var daily := DailyTotals(data);
    var history := SortDays(daily);
    if |history| < 2 {
      return Some(Forecast(Labels(history), [], 0.0, 0));
    }
    var series := TakeLast(history, WindowDays);
    var n := |series|;
    var sumX, sumY, sumXX, sumXY := RegressionSums(series);
    var fit := FitOf(n, sumX, sumY, sumXX, sumXY);
    var points, predicted := ProjectPoints(series[n - 1].key, fit, n);
    return Some(Forecast(Labels(series), points, fit.slope, predicted));
  }

  /** Fewer than two distinct days: no projection, slope 0 and projected total 0, with
      the (at most one) day as history. */
  lemma FewDays(data: seq<Row>)
    requires |data| > 0 && |History(data)| < 2
    ensures ForecastOf(data).value.forecast == []
    ensures ForecastOf(data).value.slope == 0.0
    ensures ForecastOf(data).value.predicted30Total == 0
    ensures ForecastOf(data).value.history == Labels(History(data))
  {
  }

  /** Two days or more: the history is the latest min(180, days) days, oldest first,
      each with its rounded total. */
  lemma ManyDaysHistory(data: seq<Row>)
    requires |History(data)| >= 2
    ensures var h := History(data);
      var n := MinInt(WindowDays, |h|);
      var f := ForecastOf(data).value;
      && |f.history| == n
      && (forall i :: 0 <= i < n ==> f.history[i] == Point(h[|h| - n + i].key, Round(h[|h| - n + i].value)))
      && (forall i, j :: 0 <= i < j < n ==> f.history[i].day < f.history[j].day)
  {
    var h := History(data);
    var n := MinInt(WindowDays, |h|);
    assert TakeLast(h, WindowDays) == h[|h| - n..];
    assert ForecastOf(data).value.history == Labels(h[|h| - n..]);
    WindowLabels(h, n, h[|h| - n..]);
  }

  /** The labels of the last n days: those days in order, each with its rounded total. */
  lemma WindowLabels(h: seq<Bucket<int>>, n: nat, s: seq<Bucket<int>>)
    requires Ascending(h) && n <= |h| && s == h[|h| - n..]
    ensures |Labels(s)| == n
    ensures forall i :: 0 <= i < n ==> Labels(s)[i] == Point(h[|h| - n + i].key, Round(h[|h| - n + i].value))
    ensures forall i, j :: 0 <= i < j < n ==> Labels(s)[i].day < Labels(s)[j].day
  {
    forall i | 0 <= i < n ensures Labels(s)[i] == Point(h[|h| - n + i].key, Round(h[|h| - n + i].value)) {
      assert s[i] == h[|h| - n + i];
    }
  }

  /** Two days or more: exactly 30 points, on the 30 days after the last one, each the
      line fitted to the window at x = n-1+i, rounded and clamped at 0; the slope is the
      fitted one and the projected total is the sum of the points, never negative. */
  lemma ManyDaysProjection(data: seq<Row>)
    requires |History(data)| >= 2
    ensures var h := History(data);
      var n := MinInt(WindowDays, |h|);
      var fit := FitLine(h[|h| - n..]);
      var f := ForecastOf(data).value;
      && |f.forecast| == Horizon
      && (forall i :: 0 <= i < Horizon ==>
            f.forecast[i] == Point(h[|h| - 1].key + i + 1, Projection(fit, n - 1 + i + 1)))
      && f.slope == fit.slope
      && f.predicted30Total == SumEnrollments(f.forecast)
      && f.predicted30Total >= 0
  {
    WindowProjection(History(data));
  }

  lemma WindowProjection(h: seq<Bucket<int>>)
    requires |h| >= 2
    ensures var n := MinInt(WindowDays, |h|);
      var fit := FitLine(h[|h| - n..]);
      var f := ForecastFrom(h);
      && |f.forecast| == Horizon
      && (forall i :: 0 <= i < Horizon ==>
            f.forecast[i] == Point(h[|h| - 1].key + i + 1, Projection(fit, n - 1 + i + 1)))
      && f.slope == fit.slope
      && f.predicted30Total == SumEnrollments(f.forecast)
      && f.predicted30Total >= 0
  {
    var n := MinInt(WindowDays, |h|);
    var s := TakeLast(h, WindowDays);
    assert s == h[|h| - n..];
    assert s[|s| - 1] == h[|h| - 1];
    ProjectedPoints(h[|h| - 1].key, FitLine(s), n);
  }

  /** The projection's points and their total. */
  lemma ProjectedPoints(last: int, fit: Fit, n: nat)
    ensures forall i :: 0 <= i < Horizon ==> Projected(last, fit, n)[i] == Point(last + i + 1, Projection(fit, n - 1 + i + 1))
    ensures SumEnrollments(Projected(last, fit, n)) >= 0
  {
    var p := Projected(last, fit, n);
    assert forall i :: 0 <= i < |p| ==> p[i].enrollments >= 0 by {
      forall i | 0 <= i < |p| ensures p[i].enrollments >= 0 {
        assert p[i].enrollments == Projection(fit, n - 1 + i + 1);
      }
    }
    SumEnrollmentsNonNegative(p);
  }

  lemma {:induction false} SumEnrollmentsNonNegative(p: seq<Point>)
    requires forall i :: 0 <= i < |p| ==> p[i].enrollments >= 0
    ensures SumEnrollments(p) >= 0
  {
    if |p| > 0 {
      SumEnrollmentsNonNegative(p[..|p| - 1]);
    }
  }

  /** The history holds one entry per day on which a dated row falls, with the sum of
      those rows' totals. */
  lemma HistoryTotals(data: seq<Row>)
    ensures forall b :: b in History(data) ==> b.key in KeysOf(Dated(data)) && b.value == SumFor(Dated(data), b.key)
    ensures forall d :: d in KeysOf(Dated(data)) ==> exists b :: b in History(data) && b.key == d
  {
    forall b | b in History(data) ensures b.key in KeysOf(Dated(data)) && b.value == SumFor(Dated(data), b.key) {
      HistoryEntry(data, b);
    }
    forall d | d in KeysOf(Dated(data)) ensures exists b :: b in History(data) && b.key == d {
      HistoryCovers(data, d);
    }
  }

  lemma HistoryEntry(data: seq<Row>, b: Bucket<int>)
    requires b in History(data)
    ensures b.key in KeysOf(Dated(data)) && b.value == SumFor(Dated(data), b.key)
  {
    var g := GroupSum(Dated(data));
    assert b in multiset(g);
    var i :| 0 <= i < |g| && g[i] == b;
    LookupAt(g, i);
    assert KeysOf(g)[i] == b.key;
  }

  lemma HistoryCovers(data: seq<Row>, d: int)
    requires d in KeysOf(Dated(data))
    ensures exists b :: b in History(data) && b.key == d
  {
    var g := GroupSum(Dated(data));
    assert d in KeysOf(g);
    var i :| 0 <= i < |g| && KeysOf(g)[i] == d;
    assert g[i] in multiset(History(data));
  }

  /** Twice the sum of 0 .. n-1 is n(n-1). */
  lemma {:induction false} SumXClosed(n: nat)
    ensures 2.0 * SumX(n) == (n * (n - 1)) as real
  {
    if n > 0 {
      SumXClosed(n - 1);
      assert (n - 1) * (n - 2) + 2 * (n - 1) == n * (n - 1);
    }
  }

  /** Six times the sum of the squares of 0 .. n-1 is n(n-1)(2n-1). */
  lemma {:induction false} SumXXClosed(n: nat)
    ensures 6.0 * SumXX(n) == (n * (n - 1) * (2 * n - 1)) as real
  {
    if n > 0 {
      SumXXClosed(n - 1);
      SquaresStep(n);
    }
  }

  /** The closed form for n - 1 plus six times the last square is the closed form for n. */
  lemma SquaresStep(n: int)
    ensures (n - 1) * (n - 1 - 1) * (2 * (n - 1) - 1) + 6 * ((n - 1) * (n - 1)) == n * (n - 1) * (2 * n - 1)
  {
    assert (n - 1) * (n - 1 - 1) * (2 * (n - 1) - 1) == 2 * n * n * n - 9 * n * n + 13 * n - 6;
    assert 6 * ((n - 1) * (n - 1)) == 6 * n * n - 12 * n + 6;
    assert n * (n - 1) * (2 * n - 1) == 2 * n * n * n - 3 * n * n + n;
  }

  /** With two points or more the denominator is n^2(n^2-1)/12 > 0, so the zero guard
      never applies to a window the memo fits. */
  lemma DenominatorPositive(n: nat)
    requires n >= 2
    ensures 12.0 * Denominator(n) == (n * n * (n * n - 1)) as real
    ensures Denominator(n) > 0.0
  {
    SumXClosed(n);
    SumXXClosed(n);
    var a := n * (n - 1);
    var b := n * (n - 1) * (2 * n - 1);
    assert 12.0 * Denominator(n) == (2 * n * b - 3 * a * a) as real;
    assert 2 * n * b - 3 * a * a == n * n * (n * n - 1) by {
      assert 2 * n * b == n * n * (n - 1) * (4 * n - 2);
      assert 3 * a * a == n * n * (n - 1) * (3 * n - 3);
      assert n * n * (n - 1) * (4 * n - 2) - n * n * (n - 1) * (3 * n - 3) == n * n * (n - 1) * (n + 1);
    }
    assert n * n >= 4;
    assert n * n * (n * n - 1) > 0;
  }

  /** Values lying exactly on the line a + b*i. */
  predicate OnLine(s: seq<Bucket<int>>, a: real, b: real) {
    forall i :: 0 <= i < |s| ==> s[i].value == a + b * i as real
  }

  lemma {:induction false} LineSums(s: seq<Bucket<int>>, a: real, b: real)
    requires OnLine(s, a, b)
    ensures SumY(s) == |s| as real * a + b * SumX(|s|)
    ensures SumXY(s) == a * SumX(|s|) + b * SumXX(|s|)
  {
    if |s| > 0 {
      var k := |s| - 1;
      assert OnLine(s[..k], a, b) by {
        forall i | 0 <= i < k ensures s[..k][i].value == a + b * i as real {
          assert s[..k][i] == s[i];
        }
      }
      LineSums(s[..k], a, b);
      assert s[k].value == a + b * k as real;
      LineStep(a, b, SumX(k), SumXX(k), k);
    }
  }

  /** Adding the point at position k to the sums of the points before it. */
  lemma LineStep(a: real, b: real, sx: real, sxx: real, k: int)
    ensures k as real * a + b * sx + (a + b * k as real) == (k + 1) as real * a + b * (sx + k as real)
    ensures a * sx + b * sxx + k as real * (a + b * k as real) == a * (sx + k as real) + b * (sxx + (k * k) as real)
  {
    assert (k * k) as real == k as real * k as real;
  }

  /** The regression is exact on points already on a line: it returns that line's slope
      and intercept. */
  lemma FitRecoversLine(s: seq<Bucket<int>>, a: real, b: real)
    requires |s| >= 2 && OnLine(s, a, b)
    ensures FitLine(s) == Fit(b, a)
  {
    LineSums(s, a, b);
    DenominatorNonZero(|s|);
    FitOfLine(|s|, a, b, SumX(|s|), SumXX(|s|), SumY(s), SumXY(s));
  }

  lemma DenominatorNonZero(n: nat)
    requires n >= 2
    ensures n as real * SumXX(n) - SumX(n) * SumX(n) != 0.0
  {
    DenominatorPositive(n);
  }

  lemma FitOfLine(n: nat, a: real, b: real, sx: real, sxx: real, sy: real, sxy: real)
    requires n > 0 && n as real * sxx - sx * sx != 0.0
    requires sy == n as real * a + b * sx && sxy == a * sx + b * sxx
    ensures FitOf(n, sx, sy, sxx, sxy) == Fit(b, a)
  {
    var nr := n as real;
    var d := nr * sxx - sx * sx;
    LineAlgebra(nr, a, b, sx, sxx, sy, sxy);
    QuotientCancels(b, d);
    QuotientCancels(a, nr);
  }

  lemma LineAlgebra(nr: real, a: real, b: real, sx: real, sxx: real, sy: real, sxy: real)
    requires sy == nr * a + b * sx && sxy == a * sx + b * sxx
    ensures nr * sxy - sx * sy == b * (nr * sxx - sx * sx)
    ensures sy - b * sx == a * nr
  {
    assert nr * sxy == nr * a * sx + nr * b * sxx;
    assert sx * sy == sx * nr * a + sx * b * sx;
  }

  lemma QuotientCancels(x: real, d: real)
    requires d != 0.0
    ensures (x * d) / d == x
  {
  }
}
