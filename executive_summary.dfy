/** The executive summary report
    (uidai-dashboard/src/components/reports/ExecutiveSummaryReport.jsx): the length of the
    analysis period in days, one pass over the rows that sums the enrolments and the three
    age columns of every row with a named state and totals them per state, the rankings of
    those state totals, the dominant age group, and the record counts taken from the
    server's metadata. Dates arrive as millisecond time stamps, `None` when the value is not
    a date; the per-state totals are the ones the comparison charts build
    (`ComparisonGraphs.StateTotals`, by the same trimmed-name rule). */
module ExecutiveSummary {
  import opened Common
  import opened Text
  import opened Aggregates
  import FiltersPanel
  import DashboardKpis
  import ComparisonGraphs

  const MsPerDay: int := 86400000

  /** `daysBetween`: 0 unless both ends are dates and the end is not before the start;
      otherwise the number of whole days between them plus one, so that a period is
      counted inclusive of both ends. */
  function DaysBetween(start: Option<int>, end: Option<int>): (r: nat)
    ensures start.None? || end.None? ==> r == 0
    ensures start.Some? && end.Some? && end.value < start.value ==> r == 0
    ensures start.Some? && end.Some? && start.value <= end.value ==>
      r >= 1 && (r - 1) * MsPerDay <= end.value - start.value < r * MsPerDay
  {
    if start.None? || end.None? then 0
    else
      var ms := end.value - start.value;
      if ms < 0 then 0 else ms / MsPerDay + 1
  }

  /** For two dates at midnight the period is the number of calendar days from the first
      to the last, both included; a reversed period has no days. */
  lemma DaysBetweenDates(a: Date, b: Date)
    requires ValidDate(a) && ValidDate(b)
    ensures DayNumber(a) <= DayNumber(b) ==>
      DaysBetween(Some(DayNumber(a) * MsPerDay), Some(DayNumber(b) * MsPerDay)) == DayNumber(b) - DayNumber(a) + 1
    ensures DayNumber(a) > DayNumber(b) ==>
      DaysBetween(Some(DayNumber(a) * MsPerDay), Some(DayNumber(b) * MsPerDay)) == 0
  {
    var d := DayNumber(b) - DayNumber(a);
    assert DayNumber(b) * MsPerDay - DayNumber(a) * MsPerDay == d * MsPerDay;
  }

  /** A row the summary counts: its trimmed state is neither blank nor "unknown". */
  predicate Counted(r: Row) {
    FiltersPanel.Named(Trim(r.state))
  }

  /** Sum of the enrolments of the counted rows. */
  function CountedTotal(rows: seq<Row>): real {
    if |rows| == 0 then 0.0
    else
      var last := rows[|rows| - 1];
      CountedTotal(rows[..|rows| - 1]) + (if Counted(last) then last.total else 0.0)
  }

  /** Sum of one age column over the counted rows. */
  function CountedAge(rows: seq<Row>, g: AgeGroup): real {
    if |rows| == 0 then 0.0
    else
      var last := rows[|rows| - 1];
      CountedAge(rows[..|rows| - 1], g) + (if Counted(last) then AgeValue(last, g) else 0.0)
  }

  /** The district column, untrimmed. */
  function Districts(rows: seq<Row>): (ds: seq<string>)
    ensures |ds| == |rows|
    ensures forall i :: 0 <= i < |rows| ==> ds[i] == rows[i].district
  {
    seq(|rows|, i requires 0 <= i < |rows| => rows[i].district)
  }

  /** A ranked state of `topStates`: its place (from 1), name and total. */
  datatype Ranked = Ranked(rank: nat, name: string, value: real)

  /** `map(([name, value], idx) => ({rank: idx + 1, name, value}))`. */
  function Ranks(s: seq<Bucket<string>>): (r: seq<Ranked>)
    ensures |r| == |s|
    ensures forall i :: 0 <= i < |s| ==> r[i] == Ranked(i + 1, s[i].key, s[i].value)
  {
    seq(|s|, i requires 0 <= i < |s| => Ranked(i + 1, s[i].key, s[i].value))
  }

  /** The three age groups in the order the report lists them, with their sums. */
  function AgePairs(a0: real, a5: real, a18: real): seq<Bucket<string>> {
    [Bucket("0-5 Years", a0), Bucket("5-17 Years", a5), Bucket("18+ Years", a18)]
  }

  /** `dominantAge`: the label first after a stable descending sort of the three pairs,
      or "N/A" when that label is empty. */
  function DominantAge(a0: real, a5: real, a18: real): string {
    var pairs := SortBy(AgePairs(a0, a5, a18), true);
    if |pairs| > 0 && pairs[0].key != "" then pairs[0].key else "N/A"
  }

  /** The dominant group has the largest sum, and a tie goes to the group listed first:
      0-5 before 5-17 before 18+. "N/A" never comes out. */
  lemma DominantAgeRule(a0: real, a5: real, a18: real)
    ensures DominantAge(a0, a5, a18) == "0-5 Years" <==> a0 >= a5 && a0 >= a18
    ensures DominantAge(a0, a5, a18) == "5-17 Years" <==> a5 > a0 && a5 >= a18
    ensures DominantAge(a0, a5, a18) == "18+ Years" <==> a18 > a0 && a18 > a5
  {
    var top := SortedAgesTop(a0, a5, a18);
    AgeLabelsDistinct();
    assert DominantAge(a0, a5, a18) == top.key;
  }

  /** The first pair after the stable descending sort: 0-5 unless another sum is larger,
      then 5-17 unless 18+ is larger still. */
  lemma SortedAgesTop(a0: real, a5: real, a18: real) returns (top: Bucket<string>)
    ensures |SortBy(AgePairs(a0, a5, a18), true)| > 0 && SortBy(AgePairs(a0, a5, a18), true)[0] == top
    ensures top == if a0 >= a5 && a0 >= a18 then Bucket("0-5 Years", a0)
      else if a5 >= a18 then Bucket("5-17 Years", a5) else Bucket("18+ Years", a18)
  {
    var p := AgePairs(a0, a5, a18);
    var two := SortedTailTop(a0, a5, a18);
    var all := SortBy(p, true);
    assert all == Insert(p[0], SortBy(p[1..], true), true);
    top := all[0];
  }

  lemma SortedTailTop(a0: real, a5: real, a18: real) returns (top: Bucket<string>)
    ensures var p := AgePairs(a0, a5, a18);
      |SortBy(p[1..], true)| > 0 && SortBy(p[1..], true)[0] == top
      && top == (if a5 >= a18 then p[1] else p[2])
  {
    var p := AgePairs(a0, a5, a18);
    var last := SortBy(p[2..], true);
    assert p[2..][1..] == [];
    assert last == [p[2]];
    var two := SortBy(p[1..], true);
    assert p[1..][1..] == p[2..];
    assert two == Insert(p[1], last, true);
    top := two[0];
  }

  lemma AgeLabelsDistinct()
    ensures "0-5 Years" != "5-17 Years" && "0-5 Years" != "18+ Years" && "5-17 Years" != "18+ Years"
  {
    assert "0-5 Years"[0] != "5-17 Years"[0];
    assert "0-5 Years"[0] != "18+ Years"[0];
    assert "5-17 Years"[0] != "18+ Years"[0];
  }

  /** The report's figures. `start` and `end` are the normalised range, passed through. */
  datatype Metrics = Metrics(
    start: Option<int>,
    end: Option<int>,
    periodDays: nat,
    topStates: seq<Ranked>,
    attention: seq<Bucket<string>>,
    performanceTop10: seq<Bucket<string>>,
    statesCovered: nat,
    districtsCovered: nat,
    total: real,
    dominantAge: string)

  /** The `metrics` memo over the rows: the state totals ranked three ways, the number of
      counted states, the number of distinct named districts over all rows, the counted
      total and the dominant age group of the counted rows. */
  function MetricsOf(rows: seq<Row>, start: Option<int>, end: Option<int>): Metrics {
    var byState := ComparisonGraphs.StateTotals(rows);
    Metrics(start, end, DaysBetween(start, end),
      Ranks(TopK(byState, 3, true)),
      TopK(byState, 2, false),
      TopK(byState, 10, true),
      |byState|,
      DashboardKpis.LocalDistrictsCount(rows),
      CountedTotal(rows),
      DominantAge(CountedAge(rows, Age0To5), CountedAge(rows, Age5To17), CountedAge(rows, Age18Plus)))
  }

  /** The accumulators after a prefix of the rows: the per-state map, the total and the
      three age sums of the counted rows. */
  ghost predicate Tallied(byState: seq<Bucket<string>>, total: real, age0: real, age5: real, age18: real, done: seq<Row>) {
    byState == ComparisonGraphs.StateTotals(done)
    && total == CountedTotal(done)
    && age0 == CountedAge(done, Age0To5)
    && age5 == CountedAge(done, Age5To17)
    && age18 == CountedAge(done, Age18Plus)
  }

  /** One pass of the loop body: a row whose trimmed state is blank or "unknown" is
      skipped; any other adds its enrolments to the total and to its state, and its age
      columns to the three sums. */
  method AddRow(byState: seq<Bucket<string>>, total: real, age0: real, age5: real, age18: real, ghost done: seq<Row>, r: Row)
    returns (byState': seq<Bucket<string>>, total': real, age0': real, age5': real, age18': real)
    requires Tallied(byState, total, age0, age5, age18, done)
    ensures Tallied(byState', total', age0', age5', age18', done + [r])
  {
    TallyStep(done, r);
    var state := Trim(r.state);
    if !FiltersPanel.Named(state) {
      byState', total', age0', age5', age18' := byState, total, age0, age5, age18;
    } else {
      var t := r.total;
      total' := total + t;
      byState' := BumpEntry(byState, Entries(done, ComparisonGraphs.StateEntry), ComparisonGraphs.StateEntry(r));
      age0' := age0 + r.age0To5;
      age5' := age5 + r.age5To17;
      age18' := age18 + r.age18Plus;
    }
  }

  /** One more row: its entry, and its enrolments and ages when it is counted. */
  lemma TallyStep(done: seq<Row>, r: Row)
    ensures Entries(done + [r], ComparisonGraphs.StateEntry) == Entries(done, ComparisonGraphs.StateEntry) + ComparisonGraphs.StateEntry(r)
    ensures !Counted(r) ==> Entries(done + [r], ComparisonGraphs.StateEntry) == Entries(done, ComparisonGraphs.StateEntry)
    ensures CountedTotal(done + [r]) == CountedTotal(done) + (if Counted(r) then r.total else 0.0)
    ensures CountedAge(done + [r], Age0To5) == CountedAge(done, Age0To5) + (if Counted(r) then r.age0To5 else 0.0)
    ensures CountedAge(done + [r], Age5To17) == CountedAge(done, Age5To17) + (if Counted(r) then r.age5To17 else 0.0)
    ensures CountedAge(done + [r], Age18Plus) == CountedAge(done, Age18Plus) + (if Counted(r) then r.age18Plus else 0.0)
  {
    var rows := done + [r];
    assert rows[..|done|] == done;
    if !Counted(r) {
      assert Entries(done, ComparisonGraphs.StateEntry) + [] == Entries(done, ComparisonGraphs.StateEntry);
    }
    AgeStep(done, r, Age0To5);
    AgeStep(done, r, Age5To17);
    AgeStep(done, r, Age18Plus);
  }

  lemma AgeStep(done: seq<Row>, r: Row, g: AgeGroup)
    ensures CountedAge(done + [r], g) == CountedAge(done, g) + (if Counted(r) then AgeValue(r, g) else 0.0)
  {
    assert (done + [r])[..|done|] == done;
  }

  /** The `metrics` memo: the loop over the rows, then the counts and rankings. */
  method ComputeMetrics(rows: seq<Row>, start: Option<int>, end: Option<int>) returns (m: Metrics)
    ensures m == MetricsOf(rows, start, end)
  {
    var byState: seq<Bucket<string>> := [];
    var total, age0, age5, age18 := 0.0, 0.0, 0.0, 0.0;
    for k := 0 to |rows|
      invariant Tallied(byState, total, age0, age5, age18, rows[..k])
    {
      ComparisonGraphs.PrefixSnoc(rows, k);
      byState, total, age0, age5, age18 := AddRow(byState, total, age0, age5, age18, rows[..k], rows[k]);
    }
    assert rows[..|rows|] == rows;
    var statesCovered := |byState|;
    var districtsCovered := DashboardKpis.LocalDistrictsCount(rows);
    var topStates := Ranks(TopK(byState, 3, true));
    var performanceTop10 := TopK(byState, 10, true);
    var attention := TopK(byState, 2, false);
    var dominantAge := DominantAge(age0, age5, age18);
    m := Metrics(start, end, DaysBetween(start, end), topStates, attention, performanceTop10,
      statesCovered, districtsCovered, total, dominantAge);
  }

  /** The counted total is the sum of the state totals: every counted row lands in exactly
      one state. */
  lemma TotalIsSumOfStates(rows: seq<Row>, start: Option<int>, end: Option<int>)
    ensures MetricsOf(rows, start, end).total == Total(ComparisonGraphs.StateTotals(rows))
  {
    GroupSumConserves(Entries(rows, ComparisonGraphs.StateEntry));
    EntriesTotal(rows);
  }

  lemma {:induction false} EntriesTotal(rows: seq<Row>)
    ensures Total(Entries(rows, ComparisonGraphs.StateEntry)) == CountedTotal(rows)
  {
    if |rows| > 0 {
      var n := |rows| - 1;
      EntriesTotal(rows[..n]);
      assert Entries(rows, ComparisonGraphs.StateEntry) == Entries(rows[..n], ComparisonGraphs.StateEntry) + ComparisonGraphs.StateEntry(rows[n]);
      assert CountedTotal(rows) == CountedTotal(rows[..n]) + (if Counted(rows[n]) then rows[n].total else 0.0);
      TotalAppend(Entries(rows[..n], ComparisonGraphs.StateEntry), ComparisonGraphs.StateEntry(rows[n]));
      TotalOfAtMostOne(ComparisonGraphs.StateEntry(rows[n]));
    }
  }

  /** A row whose trimmed state is blank or "unknown" changes nothing the state pass
      computes (total, state totals and rankings, states covered, dominant age group),
      while its district still counts towards the districts covered. */
  lemma UncountedRowIgnored(rows: seq<Row>, r: Row, start: Option<int>, end: Option<int>)
    requires !Counted(r)
    ensures MetricsOf(rows + [r], start, end).total == MetricsOf(rows, start, end).total
    ensures MetricsOf(rows + [r], start, end).topStates == MetricsOf(rows, start, end).topStates
    ensures MetricsOf(rows + [r], start, end).attention == MetricsOf(rows, start, end).attention
    ensures MetricsOf(rows + [r], start, end).performanceTop10 == MetricsOf(rows, start, end).performanceTop10
    ensures MetricsOf(rows + [r], start, end).statesCovered == MetricsOf(rows, start, end).statesCovered
    ensures MetricsOf(rows + [r], start, end).dominantAge == MetricsOf(rows, start, end).dominantAge
    ensures FiltersPanel.Named(Trim(r.district)) ==>
      Trim(r.district) in DashboardKpis.CountedNames(Districts(rows + [r]))
  {
    var all := rows + [r];
    assert all[..|rows|] == rows;
    assert Entries(all, ComparisonGraphs.StateEntry) == Entries(rows, ComparisonGraphs.StateEntry);
    assert CountedTotal(all) == CountedTotal(rows);
    assert forall g :: CountedAge(all, g) == CountedAge(rows, g);
    assert r.district in Districts(all) by {
      assert Districts(all)[|rows|] == r.district;
    }
  }

  /** The districts covered are the distinct named districts of every row, counted state
      or not. */
  lemma DistrictsCovered(rows: seq<Row>, start: Option<int>, end: Option<int>)
    ensures MetricsOf(rows, start, end).districtsCovered == |DashboardKpis.CountedNames(Districts(rows))|
    ensures forall s :: s in DashboardKpis.CountedNames(Districts(rows)) <==>
      FiltersPanel.Named(s) && exists r :: r in rows && Trim(r.district) == s
  {
    var ds := Districts(rows);
    assert DashboardKpis.LocalDistrictsCount(rows) == |DashboardKpis.CountedNames(ds)|;
    forall x | x in ds ensures exists r :: r in rows && r.district == x {
      var i :| 0 <= i < |ds| && ds[i] == x;
      assert rows[i] in rows;
    }
    forall r | r in rows ensures r.district in ds {
      var i :| 0 <= i < |rows| && rows[i] == r;
      assert ds[i] == r.district;
    }
  }

  /** The states covered are the counted states, each once. */
  lemma StatesCovered(rows: seq<Row>, start: Option<int>, end: Option<int>)
    ensures MetricsOf(rows, start, end).statesCovered == |KeysOf(ComparisonGraphs.StateTotals(rows))|
    ensures forall i, j :: 0 <= i < j < |KeysOf(ComparisonGraphs.StateTotals(rows))| ==>
      KeysOf(ComparisonGraphs.StateTotals(rows))[i] != KeysOf(ComparisonGraphs.StateTotals(rows))[j]
    ensures forall s :: s in KeysOf(ComparisonGraphs.StateTotals(rows)) <==>
      exists r :: r in rows && Counted(r) && Trim(r.state) == s
  {
    forall s {
      StateKey(rows, s);
    }
  }

  lemma StateKey(rows: seq<Row>, s: string)
    ensures s in KeysOf(Entries(rows, ComparisonGraphs.StateEntry)) <==> exists r :: r in rows && Counted(r) && Trim(r.state) == s
  {
    var e := Entries(rows, ComparisonGraphs.StateEntry);
    if s in KeysOf(e) {
      var p :| 0 <= p < |e| && KeysOf(e)[p] == s;
      EntriesFrom(rows, ComparisonGraphs.StateEntry, e[p]);
    }
    if exists r :: r in rows && Counted(r) && Trim(r.state) == s {
      var r :| r in rows && Counted(r) && Trim(r.state) == s;
      StateEntryReaches(rows, r);
      MemberKey(e, Bucket(s, r.total));
    }
  }

  /** A counted row's entry is among the entries of the rows. */
  lemma {:induction false} StateEntryReaches(rows: seq<Row>, r: Row)
    requires r in rows && Counted(r)
    ensures Bucket(Trim(r.state), r.total) in Entries(rows, ComparisonGraphs.StateEntry)
  {
    var n := |rows| - 1;
    if rows[n] != r {
      assert r in rows[..n] by {
        var i :| 0 <= i < |rows| && rows[i] == r;
        assert rows[..n][i] == r;
      }
      StateEntryReaches(rows[..n], r);
    }
  }

  /** A ranking of the state totals, k long at most: each entry is a counted state with its
      total, no state twice, in order (largest first when desc, smallest first otherwise),
      and no counted state left out ranks ahead of one kept. */
  lemma RankingOfStates(rows: seq<Row>, k: nat, desc: bool)
    ensures |TopK(ComparisonGraphs.StateTotals(rows), k, desc)| <= k
    ensures forall i :: 0 <= i < |TopK(ComparisonGraphs.StateTotals(rows), k, desc)| ==>
      TopK(ComparisonGraphs.StateTotals(rows), k, desc)[i].value == ComparisonGraphs.StateTotal(rows, TopK(ComparisonGraphs.StateTotals(rows), k, desc)[i].key)
      && FiltersPanel.Named(TopK(ComparisonGraphs.StateTotals(rows), k, desc)[i].key)
    ensures forall i, j :: 0 <= i < j < |TopK(ComparisonGraphs.StateTotals(rows), k, desc)| ==>
      TopK(ComparisonGraphs.StateTotals(rows), k, desc)[i].key != TopK(ComparisonGraphs.StateTotals(rows), k, desc)[j].key
      && Before(TopK(ComparisonGraphs.StateTotals(rows), k, desc)[i], TopK(ComparisonGraphs.StateTotals(rows), k, desc)[j], desc)
    ensures forall x, b ::
      x in KeysOf(Entries(rows, ComparisonGraphs.StateEntry)) && x !in KeysOf(TopK(ComparisonGraphs.StateTotals(rows), k, desc))
      && b in TopK(ComparisonGraphs.StateTotals(rows), k, desc) ==>
        Before(b, Bucket(x, ComparisonGraphs.StateTotal(rows, x)), desc)
  {
    var e := Entries(rows, ComparisonGraphs.StateEntry);
    TopKOfGroup(e, k, desc);
    TopKeysOfGroup(e, k, desc);
    RankedAreStates(rows, TopK(GroupSum(e), k, desc));
    LeftOutStates(rows, TopK(GroupSum(e), k, desc), desc);
  }

  /** Buckets drawn from the grouped state entries hold counted states and their totals. */
  lemma RankedAreStates(rows: seq<Row>, r: seq<Bucket<string>>)
    requires forall b :: b in r ==>
      b.key in KeysOf(Entries(rows, ComparisonGraphs.StateEntry)) && b.value == SumFor(Entries(rows, ComparisonGraphs.StateEntry), b.key)
    ensures forall i :: 0 <= i < |r| ==> r[i].value == ComparisonGraphs.StateTotal(rows, r[i].key) && FiltersPanel.Named(r[i].key)
  {
    var e := Entries(rows, ComparisonGraphs.StateEntry);
    forall i | 0 <= i < |r|
      ensures r[i].value == ComparisonGraphs.StateTotal(rows, r[i].key) && FiltersPanel.Named(r[i].key)
    {
      assert r[i] in r;
      ComparisonGraphs.EntriesByState(rows, r[i].key);
      var p :| 0 <= p < |e| && KeysOf(e)[p] == r[i].key;
      EntriesFrom(rows, ComparisonGraphs.StateEntry, e[p]);
    }
  }

  /** The key-level left-out bound of a ranking, restated over state totals. */
  lemma LeftOutStates(rows: seq<Row>, r: seq<Bucket<string>>, desc: bool)
    requires forall b :: b in r ==> b.value == SumFor(Entries(rows, ComparisonGraphs.StateEntry), b.key)
    requires forall x, y ::
      x in KeysOf(Entries(rows, ComparisonGraphs.StateEntry)) && x !in KeysOf(r) && y in KeysOf(r) ==>
        Before(Bucket(y, SumFor(Entries(rows, ComparisonGraphs.StateEntry), y)),
          Bucket(x, SumFor(Entries(rows, ComparisonGraphs.StateEntry), x)), desc)
    ensures forall x, b ::
      x in KeysOf(Entries(rows, ComparisonGraphs.StateEntry)) && x !in KeysOf(r) && b in r ==>
        Before(b, Bucket(x, ComparisonGraphs.StateTotal(rows, x)), desc)
  {
    forall x, b | x in KeysOf(Entries(rows, ComparisonGraphs.StateEntry)) && x !in KeysOf(r) && b in r
      ensures Before(b, Bucket(x, ComparisonGraphs.StateTotal(rows, x)), desc)
    {
      MemberKey(r, b);
      ComparisonGraphs.EntriesByState(rows, x);
    }
  }

  /** `topStates`: at most three counted states with their totals, ranked 1, 2, 3 from the
      largest total down; the first three of `performanceTop10`. */
  lemma TopStatesRanked(rows: seq<Row>, start: Option<int>, end: Option<int>)
    ensures |MetricsOf(rows, start, end).topStates| <= 3
    ensures forall i :: 0 <= i < |MetricsOf(rows, start, end).topStates| ==>
      MetricsOf(rows, start, end).topStates[i].rank == i + 1
    ensures forall i :: 0 <= i < |MetricsOf(rows, start, end).topStates| ==>
      MetricsOf(rows, start, end).topStates[i].value == ComparisonGraphs.StateTotal(rows, MetricsOf(rows, start, end).topStates[i].name)
    ensures forall i, j :: 0 <= i < j < |MetricsOf(rows, start, end).topStates| ==>
      MetricsOf(rows, start, end).topStates[i].value >= MetricsOf(rows, start, end).topStates[j].value
    ensures |MetricsOf(rows, start, end).topStates| <= |MetricsOf(rows, start, end).performanceTop10|
    ensures forall i :: 0 <= i < |MetricsOf(rows, start, end).topStates| ==>
      MetricsOf(rows, start, end).topStates[i].name == MetricsOf(rows, start, end).performanceTop10[i].key
      && MetricsOf(rows, start, end).topStates[i].value == MetricsOf(rows, start, end).performanceTop10[i].value
  {
    TopStatesNumbered(rows, start, end);
    TopStatesTotals(rows, start, end);
    TopStatesOrdered(rows, start, end);
    TopStatesLead(rows, start, end);
  }

  lemma TopStatesNumbered(rows: seq<Row>, start: Option<int>, end: Option<int>)
    ensures |MetricsOf(rows, start, end).topStates| <= 3
    ensures forall i :: 0 <= i < |MetricsOf(rows, start, end).topStates| ==> MetricsOf(rows, start, end).topStates[i].rank == i + 1
  {
    TopStatesPrep(rows);
    var s := ComparisonGraphs.StateTotals(rows);
    RankedPrefix(rows, MetricsOf(rows, start, end), TopK(s, 3, true), TopK(s, 10, true));
  }

  lemma TopStatesTotals(rows: seq<Row>, start: Option<int>, end: Option<int>)
    ensures forall i :: 0 <= i < |MetricsOf(rows, start, end).topStates| ==>
      MetricsOf(rows, start, end).topStates[i].value == ComparisonGraphs.StateTotal(rows, MetricsOf(rows, start, end).topStates[i].name)
  {
    TopStatesPrep(rows);
    var s := ComparisonGraphs.StateTotals(rows);
    RankedPrefix(rows, MetricsOf(rows, start, end), TopK(s, 3, true), TopK(s, 10, true));
  }

  lemma TopStatesOrdered(rows: seq<Row>, start: Option<int>, end: Option<int>)
    ensures forall i, j :: 0 <= i < j < |MetricsOf(rows, start, end).topStates| ==> MetricsOf(rows, start, end).topStates[i].value >= MetricsOf(rows, start, end).topStates[j].value
  {
    TopStatesPrep(rows);
    var s := ComparisonGraphs.StateTotals(rows);
    RankedPrefix(rows, MetricsOf(rows, start, end), TopK(s, 3, true), TopK(s, 10, true));
  }

  lemma TopStatesLead(rows: seq<Row>, start: Option<int>, end: Option<int>)
    ensures |MetricsOf(rows, start, end).topStates| <= |MetricsOf(rows, start, end).performanceTop10|
    ensures forall i :: 0 <= i < |MetricsOf(rows, start, end).topStates| ==>
      MetricsOf(rows, start, end).topStates[i].name == MetricsOf(rows, start, end).performanceTop10[i].key && MetricsOf(rows, start, end).topStates[i].value == MetricsOf(rows, start, end).performanceTop10[i].value
  {
    TopStatesPrep(rows);
    var s := ComparisonGraphs.StateTotals(rows);
    RankedPrefix(rows, MetricsOf(rows, start, end), TopK(s, 3, true), TopK(s, 10, true));
  }

  /** The three largest state totals, in order, are the head of the ten largest. */
  lemma TopStatesPrep(rows: seq<Row>)
    ensures |TopK(ComparisonGraphs.StateTotals(rows), 3, true)| <= 3
    ensures forall i :: 0 <= i < |TopK(ComparisonGraphs.StateTotals(rows), 3, true)| ==>
      TopK(ComparisonGraphs.StateTotals(rows), 3, true)[i].value
        == ComparisonGraphs.StateTotal(rows, TopK(ComparisonGraphs.StateTotals(rows), 3, true)[i].key)
    ensures forall i, j :: 0 <= i < j < |TopK(ComparisonGraphs.StateTotals(rows), 3, true)| ==>
      Before(TopK(ComparisonGraphs.StateTotals(rows), 3, true)[i], TopK(ComparisonGraphs.StateTotals(rows), 3, true)[j], true)
    ensures forall i :: 0 <= i < |TopK(ComparisonGraphs.StateTotals(rows), 3, true)| ==>
      i < |TopK(ComparisonGraphs.StateTotals(rows), 10, true)|
      && TopK(ComparisonGraphs.StateTotals(rows), 3, true)[i] == TopK(ComparisonGraphs.StateTotals(rows), 10, true)[i]
  {
    RankingOfStates(rows, 3, true);
    TakeOfSorted(ComparisonGraphs.StateTotals(rows), 3, 10, true);
  }

  /** Ranking a sorted prefix of a longer ranking numbers its states 1, 2, ... and keeps
      their totals and their order. */
  lemma RankedPrefix(rows: seq<Row>, m: Metrics, top: seq<Bucket<string>>, longer: seq<Bucket<string>>)
    requires m.topStates == Ranks(top) && m.performanceTop10 == longer && |top| <= 3
    requires forall i :: 0 <= i < |top| ==> top[i].value == ComparisonGraphs.StateTotal(rows, top[i].key)
    requires forall i, j :: 0 <= i < j < |top| ==> Before(top[i], top[j], true)
    requires forall i :: 0 <= i < |top| ==> i < |longer| && top[i] == longer[i]
    ensures |m.topStates| <= 3
    ensures forall i :: 0 <= i < |m.topStates| ==>
      m.topStates[i].rank == i + 1 && m.topStates[i].value == ComparisonGraphs.StateTotal(rows, m.topStates[i].name)
    ensures forall i, j :: 0 <= i < j < |m.topStates| ==> m.topStates[i].value >= m.topStates[j].value
    ensures |m.topStates| <= |m.performanceTop10|
    ensures forall i :: 0 <= i < |m.topStates| ==>
      m.topStates[i].name == m.performanceTop10[i].key && m.topStates[i].value == m.performanceTop10[i].value
  {
    assert |top| <= |longer| by {
      if |top| > 0 {
        var n := |top| - 1;
        assert 0 <= n < |top| && top[n] == top[n];
      }
    }
    forall i | 0 <= i < |m.topStates|
      ensures m.topStates[i].rank == i + 1 && m.topStates[i].value == ComparisonGraphs.StateTotal(rows, m.topStates[i].name)
    {
      assert m.topStates[i] == Ranked(i + 1, top[i].key, top[i].value);
    }
    forall i | 0 <= i < |m.topStates|
      ensures m.topStates[i].name == m.performanceTop10[i].key && m.topStates[i].value == m.performanceTop10[i].value
    {
      assert m.topStates[i] == Ranked(i + 1, top[i].key, top[i].value) && top[i] == longer[i];
    }
    forall i, j | 0 <= i < j < |m.topStates| ensures m.topStates[i].value >= m.topStates[j].value {
      assert Before(top[i], top[j], true);
    }
  }

  /** Two rankings of the same list in the same direction agree on their common
      prefix. */
  lemma TakeOfSorted(s: seq<Bucket<string>>, k1: nat, k2: nat, desc: bool)
    requires k1 <= k2
    ensures forall i :: 0 <= i < |TopK(s, k1, desc)| ==> i < |TopK(s, k2, desc)| && TopK(s, k1, desc)[i] == TopK(s, k2, desc)[i]
  {
  }

  /** `performanceTop10`: at most ten counted states with their totals, largest first. */
  lemma PerformanceTop10Ranked(rows: seq<Row>, start: Option<int>, end: Option<int>)
    ensures |MetricsOf(rows, start, end).performanceTop10| <= 10
    ensures forall i, j :: 0 <= i < j < |MetricsOf(rows, start, end).performanceTop10| ==>
      MetricsOf(rows, start, end).performanceTop10[i].value >= MetricsOf(rows, start, end).performanceTop10[j].value
    ensures forall b :: b in MetricsOf(rows, start, end).performanceTop10 ==> b.value == ComparisonGraphs.StateTotal(rows, b.key)
  {
    RankingOfStates(rows, 10, true);
  }

  /** `attention`: at most two counted states with their totals, smallest first, and no
      counted state left out has a smaller total. */
  lemma AttentionRanked(rows: seq<Row>, start: Option<int>, end: Option<int>)
    ensures |MetricsOf(rows, start, end).attention| <= 2
    ensures forall i, j :: 0 <= i < j < |MetricsOf(rows, start, end).attention| ==>
      MetricsOf(rows, start, end).attention[i].value <= MetricsOf(rows, start, end).attention[j].value
    ensures forall b :: b in MetricsOf(rows, start, end).attention ==> b.value == ComparisonGraphs.StateTotal(rows, b.key)
    ensures forall x, b ::
      x in KeysOf(Entries(rows, ComparisonGraphs.StateEntry)) && x !in KeysOf(MetricsOf(rows, start, end).attention)
      && b in MetricsOf(rows, start, end).attention ==>
        b.value <= ComparisonGraphs.StateTotal(rows, x)
  {
    RankingOfStates(rows, 2, false);
  }

  /** The dominant age group of the report is the group with the largest sum over the
      counted rows, ties going to the younger group. */
  lemma DominantAgeOfRows(rows: seq<Row>, start: Option<int>, end: Option<int>)
    ensures MetricsOf(rows, start, end).dominantAge == "0-5 Years" <==>
      CountedAge(rows, Age0To5) >= CountedAge(rows, Age5To17) && CountedAge(rows, Age0To5) >= CountedAge(rows, Age18Plus)
    ensures MetricsOf(rows, start, end).dominantAge == "5-17 Years" <==>
      CountedAge(rows, Age5To17) > CountedAge(rows, Age0To5) && CountedAge(rows, Age5To17) >= CountedAge(rows, Age18Plus)
    ensures MetricsOf(rows, start, end).dominantAge == "18+ Years" <==>
      CountedAge(rows, Age18Plus) > CountedAge(rows, Age0To5) && CountedAge(rows, Age18Plus) > CountedAge(rows, Age5To17)
  {
    DominantAgeRule(CountedAge(rows, Age0To5), CountedAge(rows, Age5To17), CountedAge(rows, Age18Plus));
  }

  /** A metadata field as `Number(meta?.field)` sees it: absent (also when there is no
      metadata at all), `null`, a finite number, or something that converts to NaN or an
      infinity. */
  datatype MetaField = Absent | Null | Finite(v: real) | NotFinite

  /** `Number.isFinite(Number(x)) ? Number(x) : null`: `Number(null)` is 0. */
  function FiniteOrNull(f: MetaField): (r: Option<real>)
    ensures r.Some? <==> f.Null? || f.Finite?
    ensures f.Finite? ==> r == Some(f.v)
    ensures f.Null? ==> r == Some(0.0)
  {
    match f
    case Absent => None
    case Null => Some(0.0)
    case Finite(v) => Some(v)
    case NotFinite => None
  }

  datatype Records = Records(totalRecords: Option<real>, sampledRows: Option<real>, filteredRows: Option<real>)

  /** The `records` memo; `data` is None when it is not an array. */
  function RecordsOf(totalRecords: MetaField, sampledRows: MetaField, filteredRows: MetaField, data: Option<seq<Row>>): (r: Records)
    ensures r.totalRecords == FiniteOrNull(totalRecords) && r.sampledRows == FiniteOrNull(sampledRows)
    ensures FiniteOrNull(filteredRows).Some? ==> r.filteredRows == FiniteOrNull(filteredRows)
    ensures FiniteOrNull(filteredRows).None? && data.Some? ==> r.filteredRows == Some(|data.value| as real)
    ensures FiniteOrNull(filteredRows).None? && data.None? ==> r.filteredRows == None
  {
    var filtered := FiniteOrNull(filteredRows);
    Records(FiniteOrNull(totalRecords), FiniteOrNull(sampledRows),
      if filtered.Some? then filtered else if data.Some? then Some(|data.value| as real) else None)
  }

  /** The report's rows: `data` when it is an array, none otherwise. */
  function RowsOf(data: Option<seq<Row>>): (rows: seq<Row>)
    ensures data.None? ==> rows == []
    ensures data.Some? ==> rows == data.value
  {
    if data.Some? then data.value else []
  }
}
