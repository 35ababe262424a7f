/** The enrollment trend chart (uidai-dashboard/src/components/charts/LineChart.jsx): a
    reduce into one accumulator per `row.month`, a sort by the parsed month, and the last
    twelve months. Month-label parsing (`new Date(month)`) is a parameter `time` giving a
    label's time stamp. */
module LineChart {
  import opened Common
  import opened Aggregates
  import InsightPanel

  const MonthsShown: nat := 12

  type Month = Bucket<string>

  /** A row's contribution: `acc[row.month].enrollments += row.total_enrolments`. */
  function MonthEntry(r: Row): (e: seq<Month>)
    ensures |e| == 1 && e[0].key == r.month && e[0].value == r.total
  {
    [Bucket(r.month, r.total)]
  }

  /** Sum of the totals of the rows of one month (a reference definition). */
  function MonthTotal(data: seq<Row>, month: string): real {
    if |data| == 0 then 0.0
    else
      var last := data[|data| - 1];
      MonthTotal(data[..|data| - 1], month) + (if last.month == month then last.total else 0.0)
  }

  /** The month buckets in first-appearance order (`Object.values(monthlyData)`). */
  function MonthTotals(data: seq<Row>): seq<Month> {
    GroupSum(Entries(data, MonthEntry))
  }

  /** Each month bucket weighed by its parsed time, so that sorting by weight is the sort
      `(a, b) => new Date(a.month) - new Date(b.month)`. */
  function Timed(m: seq<Month>, time: string -> real): (r: seq<Bucket<Month>>)
    ensures |r| == |m|
    ensures forall i :: 0 <= i < |m| ==> r[i] == Bucket(m[i], time(m[i].key))
  {
    seq(|m|, i requires 0 <= i < |m| => Bucket(m[i], time(m[i].key)))
  }

  /** The month buckets sorted by time, oldest first (stable). */
  function ByTime(data: seq<Row>, time: string -> real): (r: seq<Bucket<Month>>)
    ensures |r| == |MonthTotals(data)|
    ensures multiset(r) == multiset(Timed(MonthTotals(data), time))
    ensures SortedBy(r, false)
  {
    SortBy(Timed(MonthTotals(data), time), false)
  }

  /** The chart data: None ("No data available") for empty data, otherwise the last
      twelve months by time (`slice(-12)`). */
  function TrendOf(data: seq<Row>, time: string -> real): (r: Option<seq<Month>>)
    ensures r.None? <==> |data| == 0
    ensures r.Some? ==> |r.value| == MinInt(MonthsShown, |MonthTotals(data)|)
  {
    if |data| == 0 then None else Some(KeysOf(TakeLast(ByTime(data, time), MonthsShown)))
  }

  /** The component body: the reduce, then the sort and the slice. */
  method TrendData(data: seq<Row>, time: string -> real) returns (chart: Option<seq<Month>>)
    ensures chart == TrendOf(data, time)
  {
    if |data| == 0 {
      return None;
    }
    var months := GroupRows(data, MonthEntry);
    var sorted := SortBy(Timed(months, time), false);
    chart := Some(KeysOf(TakeLast(sorted, MonthsShown)));
  }

  lemma {:induction false} EntriesByMonth(data: seq<Row>, month: string)
    ensures SumFor(Entries(data, MonthEntry), month) == MonthTotal(data, month)
  {
    if |data| > 0 {
      var n := |data| - 1;
      EntriesByMonth(data[..n], month);
      SumForAppend(Entries(data[..n], MonthEntry), MonthEntry(data[n]), month);
      assert MonthEntry(data[n])[..0] == [];
    }
  }

  lemma {:induction false} EntriesTotal(data: seq<Row>)
    ensures Total(Entries(data, MonthEntry)) == InsightPanel.GrandTotal(data)
  {
    if |data| > 0 {
      var n := |data| - 1;
      EntriesTotal(data[..n]);
      TotalAppend(Entries(data[..n], MonthEntry), MonthEntry(data[n]));
      TotalOfAtMostOne(MonthEntry(data[n]));
    }
  }

  /** Before the slice the month buckets hold every row once: they add up to the sum of
      all row totals. */
  lemma MonthTotalsConserve(data: seq<Row>)
    ensures Total(MonthTotals(data)) == InsightPanel.GrandTotal(data)
  {
    GroupSumConserves(Entries(data, MonthEntry));
    EntriesTotal(data);
  }

  /** Every element of the sorted list is a month bucket weighed by its time, and no
      bucket occurs twice. */
  lemma ByTimeFacts(data: seq<Row>, time: string -> real)
    ensures DistinctKeys(ByTime(data, time))
    ensures forall p :: 0 <= p < |ByTime(data, time)| ==>
      ByTime(data, time)[p].key in MonthTotals(data) && ByTime(data, time)[p].value == time(ByTime(data, time)[p].key.key)
  {
    var g := MonthTotals(data);
    var t := ByTime(data, time);
    assert DistinctKeys(Timed(g, time));
    SubMultisetDistinctKeys(t, Timed(g, time));
    forall p | 0 <= p < |t| ensures t[p].key in g && t[p].value == time(t[p].key.key) {
      assert t[p] in multiset(Timed(g, time));
    }
  }

  /** Every month bucket is in the sorted list, weighed by its time. */
  lemma ByTimeCovers(data: seq<Row>, time: string -> real)
    ensures forall y :: y in MonthTotals(data) ==> Bucket(y, time(y.key)) in ByTime(data, time)
  {
    var g := MonthTotals(data);
    forall y | y in g ensures Bucket(y, time(y.key)) in ByTime(data, time) {
      var x :| 0 <= x < |g| && g[x] == y;
      assert Timed(g, time)[x] == Bucket(y, time(y.key));
      assert Bucket(y, time(y.key)) in multiset(ByTime(data, time));
    }
  }

  /** A suffix of a list of distinct buckets drawn from months with distinct names names
      each month at most once. */
  lemma SuffixMonths(t: seq<Bucket<Month>>, g: seq<Month>, k: nat)
    requires DistinctKeys(g) && DistinctKeys(t)
    requires forall p :: 0 <= p < |t| ==> t[p].key in g
    ensures forall b :: b in KeysOf(TakeLast(t, k)) ==> b in g
    ensures forall i, j :: 0 <= i < j < |KeysOf(TakeLast(t, k))| ==>
      KeysOf(TakeLast(t, k))[i].key != KeysOf(TakeLast(t, k))[j].key
  {
    var n := |t| - MinInt(k, |t|);
    var chart := KeysOf(TakeLast(t, k));
    assert TakeLast(t, k) == t[n..];
    assert forall i :: 0 <= i < |chart| ==> chart[i] == t[n + i].key;
    forall i, j | 0 <= i < j < |chart| ensures chart[i].key != chart[j].key {
      var x :| 0 <= x < |g| && g[x] == t[n + i].key;
      var y :| 0 <= y < |g| && g[y] == t[n + j].key;
      assert t[n + i].key != t[n + j].key;
    }
  }

  /** The last k of a list sorted by time are in time order, and nothing before them is
      later than any of them. */
  lemma SuffixLatest(t: seq<Bucket<Month>>, g: seq<Month>, k: nat, time: string -> real)
    requires SortedBy(t, false)
    requires forall p :: 0 <= p < |t| ==> t[p].value == time(t[p].key.key)
    requires forall y :: y in g ==> Bucket(y, time(y.key)) in t
    ensures forall i, j :: 0 <= i < j < |KeysOf(TakeLast(t, k))| ==>
      time(KeysOf(TakeLast(t, k))[i].key) <= time(KeysOf(TakeLast(t, k))[j].key)
    ensures forall y, b :: y in g && y !in KeysOf(TakeLast(t, k)) && b in KeysOf(TakeLast(t, k)) ==>
      time(y.key) <= time(b.key)
  {
    var n := |t| - MinInt(k, |t|);
    var chart := KeysOf(TakeLast(t, k));
    SuffixKeys(t, k, n, chart);
    forall i, j | 0 <= i < j < |chart| ensures time(chart[i].key) <= time(chart[j].key) {
      assert Before(t[n + i], t[n + j], false);
    }
    forall y, b | y in g && y !in chart && b in chart ensures time(y.key) <= time(b.key) {
      SuffixBeats(t, n, chart, time, y, b);
    }
  }

  lemma SuffixKeys(t: seq<Bucket<Month>>, k: nat, n: nat, chart: seq<Month>)
    requires n == |t| - MinInt(k, |t|) && chart == KeysOf(TakeLast(t, k))
    ensures chart == KeysOf(t[n..]) && |chart| == |t| - n
    ensures forall i :: 0 <= i < |chart| ==> chart[i] == t[n + i].key
  {
    assert TakeLast(t, k) == t[n..];
  }

  /** A month of the list outside the suffix from n is no later than one inside it. */
  lemma SuffixBeats(t: seq<Bucket<Month>>, n: nat, chart: seq<Month>, time: string -> real, y: Month, b: Month)
    requires SortedBy(t, false) && n <= |t|
    requires forall p :: 0 <= p < |t| ==> t[p].value == time(t[p].key.key)
    requires chart == KeysOf(t[n..]) && |chart| == |t| - n
    requires forall i :: 0 <= i < |chart| ==> chart[i] == t[n + i].key
    requires Bucket(y, time(y.key)) in t && y !in chart && b in chart
    ensures time(y.key) <= time(b.key)
  {
    var p :| 0 <= p < |t| && t[p] == Bucket(y, time(y.key));
    var q :| 0 <= q < |chart| && chart[q] == b;
    OutsideSuffix(t, n, p);
    assert Before(t[p], t[n + q], false);
  }

  /** An element whose key is not among the keys of the suffix from n stands before n. */
  lemma OutsideSuffix<K>(t: seq<Bucket<K>>, n: nat, p: nat)
    requires n <= |t| && p < |t|
    ensures t[p].key !in KeysOf(t[n..]) ==> p < n
  {
    if p >= n {
      assert KeysOf(t[n..])[p - n] == t[p].key;
    }
  }

  /** The months shown are distinct and each carries the sum of its rows' totals. */
  lemma TrendMonthsAreTotals(data: seq<Row>, time: string -> real)
    requires |data| > 0
    ensures var chart := TrendOf(data, time).value;
      (forall i, j :: 0 <= i < j < |chart| ==> chart[i].key != chart[j].key)
      && (forall b :: b in chart ==> b.value == MonthTotal(data, b.key))
  {
    ByTimeFacts(data, time);
    SuffixMonths(ByTime(data, time), MonthTotals(data), MonthsShown);
    forall b | b in TrendOf(data, time).value ensures b.value == MonthTotal(data, b.key) {
      GroupMember(Entries(data, MonthEntry), b);
      EntriesByMonth(data, b.key);
    }
  }

  /** The months shown are in time order, and they are the latest: a month left out is
      no later than any month shown. */
  lemma TrendIsLatestMonths(data: seq<Row>, time: string -> real)
    requires |data| > 0
    ensures var chart := TrendOf(data, time).value;
      (forall i, j :: 0 <= i < j < |chart| ==> time(chart[i].key) <= time(chart[j].key))
      && (forall y, b :: y in MonthTotals(data) && y !in chart && b in chart ==> time(y.key) <= time(b.key))
  {
    ByTimeFacts(data, time);
    ByTimeCovers(data, time);
    SuffixLatest(ByTime(data, time), MonthTotals(data), MonthsShown, time);
  }

  /** With at most twelve months nothing is cut: every month is shown. */
  lemma ShortSeriesShowsAll(data: seq<Row>, time: string -> real)
    requires |data| > 0 && |MonthTotals(data)| <= MonthsShown
    ensures forall y :: y in MonthTotals(data) ==> y in TrendOf(data, time).value
  {
    var g := MonthTotals(data);
    var t := ByTime(data, time);
    assert TakeLast(t, MonthsShown) == t;
    forall y | y in g ensures y in KeysOf(t) {
      var x :| 0 <= x < |g| && g[x] == y;
      assert Timed(g, time)[x] == Bucket(y, time(y.key));
      assert Bucket(y, time(y.key)) in multiset(t);
      var p :| 0 <= p < |t| && t[p] == Bucket(y, time(y.key));
      assert KeysOf(t)[p] == y;
    }
  }
}
