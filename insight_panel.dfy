/** The key-insights card (uidai-dashboard/src/components/InsightPanel.jsx): state
    totals as a reduce into an object, the three largest of them, and their combined
    share of all enrollments. */
module InsightPanel {
  import opened Common
  import opened Aggregates

  /** What the card shows. `share` is the top-three share in percent, before `toFixed(1)`;
      None where the browser divides by a zero total and shows "NaN" or "Infinity". */
  datatype Insight = Insight(topStates: seq<Bucket<string>>, grand: real, share: Option<real>)

  const TopCount: nat := 3

  /** A row's contribution to the state totals: `acc[row.state] += row.total_enrolments`. */
  function StateEntry(r: Row): (e: seq<Bucket<string>>)
    ensures |e| == 1 && e[0].key == r.state && e[0].value == r.total
  {
    [Bucket(r.state, r.total)]
  }

  /** Sum of the totals of the rows of one state (a reference definition). */
  function StateTotal(data: seq<Row>, state: string): real {
    if |data| == 0 then 0.0
    else
      var last := data[|data| - 1];
      StateTotal(data[..|data| - 1], state) + (if last.state == state then last.total else 0.0)
  }

  /** `data.reduce((sum, row) => sum + row.total_enrolments, 0)`. */
  function GrandTotal(data: seq<Row>): real {
    if |data| == 0 then 0.0 else GrandTotal(data[..|data| - 1]) + data[|data| - 1].total
  }

  /** The state totals in first-appearance order. */
  function StateTotals(data: seq<Row>): seq<Bucket<string>> {
    GroupSum(Entries(data, StateEntry))
  }

  /** The k states with the largest totals, largest first (`Object.entries(...)
      .sort(([, a], [, b]) => b - a).slice(0, k)`). */
  function TopStates(data: seq<Row>, k: nat): (r: seq<Bucket<string>>)
    ensures |r| == MinInt(k, |StateTotals(data)|)
    ensures SortedBy(r, true)
  {
    TopK(StateTotals(data), k, true)
  }

  /** The card; None (nothing rendered) for empty data. */
  function InsightOf(data: seq<Row>): (r: Option<Insight>)
    ensures r.None? <==> |data| == 0
    ensures r.Some? ==> |r.value.topStates| == MinInt(TopCount, |StateTotals(data)|)
    ensures r.Some? ==> SortedBy(r.value.topStates, true)
    ensures r.Some? ==> (r.value.share.None? <==> r.value.grand == 0.0)
  {
    if |data| == 0 then None
    else
      var top := TopStates(data, TopCount);
      var grand := GrandTotal(data);
      Some(Insight(top, grand, if grand == 0.0 then None else Some(Total(top) / grand * 100.0)))
  }

  /** The entries of the reduce sum, key by key, to the state totals of the reference. */
  lemma {:induction false} EntriesByState(data: seq<Row>, state: string)
    ensures SumFor(Entries(data, StateEntry), state) == StateTotal(data, state)
  {
    if |data| > 0 {
      var n := |data| - 1;
      EntriesByState(data[..n], state);
      SumForAppend(Entries(data[..n], StateEntry), StateEntry(data[n]), state);
      assert StateEntry(data[n])[..0] == [];
    }
  }

  /** The entries of the reduce sum to the grand total. */
  lemma {:induction false} EntriesTotal(data: seq<Row>)
    ensures Total(Entries(data, StateEntry)) == GrandTotal(data)
  {
    if |data| > 0 {
      var n := |data| - 1;
      EntriesTotal(data[..n]);
      TotalAppend(Entries(data[..n], StateEntry), StateEntry(data[n]));
      TotalOfAtMostOne(StateEntry(data[n]));
    }
  }

  /** The state totals cover every row once: they add up to the grand total. */
  lemma StateTotalsConserve(data: seq<Row>)
    ensures Total(StateTotals(data)) == GrandTotal(data)
  {
    GroupSumConserves(Entries(data, StateEntry));
    EntriesTotal(data);
  }

  /** Each top state appears once and carries the sum of its rows' totals. */
  lemma TopStatesAreTotals(data: seq<Row>, k: nat)
    ensures DistinctKeys(TopStates(data, k))
    ensures forall b :: b in TopStates(data, k) ==> b.value == StateTotal(data, b.key)
  {
    TopKOfGroup(Entries(data, StateEntry), k, true);
    forall b | b in TopStates(data, k) ensures b.value == StateTotal(data, b.key) {
      EntriesByState(data, b.key);
    }
  }

  /** Every state left out has a total no larger than any state kept. */
  lemma TopStatesBeatTheRest(data: seq<Row>, k: nat)
    ensures forall b, y ::
      b in TopStates(data, k) && y in StateTotals(data) && y !in TopStates(data, k) ==> b.value >= y.value
  {
    var top := TopStates(data, k);
    forall b, y | b in top && y in StateTotals(data) && y !in top ensures b.value >= y.value {
      assert y in multiset(StateTotals(data)) - multiset(top);
    }
  }

  /** With non-negative row totals the largest states never sum to more than the grand
      total. */
  lemma TopStatesWithinTotal(data: seq<Row>, k: nat)
    requires forall r :: r in data ==> r.total >= 0.0
    ensures 0.0 <= Total(TopStates(data, k)) <= GrandTotal(data)
  {
    var e := Entries(data, StateEntry);
    EntriesNonNegative(data, StateEntry);
    GroupSumNonNegative(e);
    TopKTotalBound(StateTotals(data), k, true);
    StateTotalsConserve(data);
    assert forall b :: b in TopStates(data, k) ==> b in multiset(StateTotals(data));
    TotalNonNegative(TopStates(data, k));
  }

  /** So a defined share lies between 0 and 100 percent. */
  lemma ShareIsPercentage(data: seq<Row>)
    requires |data| > 0
    requires forall r :: r in data ==> r.total >= 0.0
    requires GrandTotal(data) != 0.0
    ensures var s := InsightOf(data).value.share; s.Some? && 0.0 <= s.value <= 100.0
  {
    TopStatesWithinTotal(data, TopCount);
    FractionBounds(Total(TopStates(data, TopCount)), GrandTotal(data));
  }

  lemma FractionBounds(part: real, whole: real)
    requires 0.0 <= part <= whole && whole != 0.0
    ensures 0.0 <= part / whole * 100.0 <= 100.0
  {
    assert part / whole <= 1.0;
  }
}
