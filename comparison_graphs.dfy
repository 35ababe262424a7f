/** The comparison charts (uidai-dashboard/src/components/analytics/ComparisonGraphs.jsx):
    state totals over trimmed names without blank or "unknown" states, the top states,
    one month series per top state, the age series over all rows, the month axis they
    share, and the two chart tables. Two browser services are parameters: `labelOf` gives a
    date's short month-and-year label (`toLocaleString`), and `timeOf` gives the time stamp
    `new Date(label)` reads from a month label. Past `MonthKey`, everything is stated over
    the month-key function `key`, which the charts take to be `KeyOf(labelOf)`. */
module ComparisonGraphs {
  import opened Common
  import opened Text
  import opened Aggregates
  import FiltersPanel

  const DefaultTopStates: nat := 10

  /** `monthKeyFromRow`: the row's own month label when it has one, otherwise the label
      of its date, and "" for a row with neither. */
  function MonthKey(r: Row, labelOf: Date -> string): (m: string)
    ensures r.month != "" ==> m == r.month
    ensures r.month == "" && (r.date.None? || !ValidDate(r.date.value)) ==> m == ""
  {
    if r.month != "" then r.month
    else if r.date.Some? && ValidDate(r.date.value) then labelOf(r.date.value)
    else ""
  }

  function KeyOf(labelOf: Date -> string): Row -> string {
    (r: Row) => MonthKey(r, labelOf)
  }

  /** A row's contribution to `stateTotals`: its total under its trimmed state name,
      nothing for a blank or "unknown" (any case) state. */
  function StateEntry(r: Row): (e: seq<Bucket<string>>)
    ensures |e| <= 1
    ensures forall b :: b in e ==> FiltersPanel.Named(b.key) && IsTrimmed(b.key) && b.key == Trim(r.state)
    ensures FiltersPanel.Named(Trim(r.state)) ==> e == [Bucket(Trim(r.state), r.total)]
  {
    if FiltersPanel.Named(Trim(r.state)) then [Bucket(Trim(r.state), r.total)] else []
  }

  /** Sum of the totals of the rows whose trimmed state is s, when s is a name the totals
      keep (a reference definition). */
  function StateTotal(rows: seq<Row>, s: string): real {
    if |rows| == 0 then 0.0
    else
      var last := rows[|rows| - 1];
      StateTotal(rows[..|rows| - 1], s) + (if FiltersPanel.Named(s) && Trim(last.state) == s then last.total else 0.0)
  }

  function StateTotals(rows: seq<Row>): seq<Bucket<string>> {
    GroupSum(Entries(rows, StateEntry))
  }

  /** `top`: the names of the k largest state totals, largest first. */
  function TopStates(rows: seq<Row>, k: nat): seq<string> {
    KeysOf(TopK(StateTotals(rows), k, true))
  }

  /** `rows.filter((r) => r?.state === state)`: the exact, untrimmed name. */
  function OfState(state: string): Row -> bool {
    (r: Row) => r.state == state
  }

  /** A row's contribution to `byMonth`: its total under its month key, nothing when the
      key is "". */
  function MonthEntry(key: Row -> string): Row -> seq<Bucket<string>> {
    (r: Row) => if key(r) != "" then [Bucket(key(r), r.total)] else []
  }

  /** `byMonth` of one state's rows. */
  function Series(rows: seq<Row>, state: string, key: Row -> string): seq<Bucket<string>> {
    GroupSum(Entries(Filter(rows, OfState(state)), MonthEntry(key)))
  }

  function SeriesOf(rows: seq<Row>, key: Row -> string): string -> seq<Bucket<string>> {
    (s: string) => Series(rows, s, key)
  }

  /** Sum of the totals of the rows whose state is exactly s and whose month key is m, a
      month key being never "" (a reference definition). */
  function MonthSum(rows: seq<Row>, s: string, m: string, key: Row -> string): real {
    if |rows| == 0 then 0.0
    else
      var last := rows[|rows| - 1];
      MonthSum(rows[..|rows| - 1], s, m, key)
        + (if last.state == s && key(last) == m && m != "" then last.total else 0.0)
  }

  /** One bucket of `ageSeries`. */
  datatype AgeRow = AgeRow(month: string, age0To5: real, age5To17: real, age18Plus: real)

  function AgeValueOf(a: AgeRow, g: AgeGroup): real {
    match g
    case Age0To5 => a.age0To5
    case Age5To17 => a.age5To17
    case Age18Plus => a.age18Plus
  }

  /** Sum of one age group over the rows whose month key is m, a month key being never
      "" (a reference definition). */
  function AgeSum(rows: seq<Row>, m: string, key: Row -> string, g: AgeGroup): real {
    if |rows| == 0 then 0.0
    else
      var last := rows[|rows| - 1];
      AgeSum(rows[..|rows| - 1], m, key, g) + (if key(last) == m && m != "" then AgeValue(last, g) else 0.0)
  }

  function AgeRowOf(rows: seq<Row>, m: string, key: Row -> string): (a: AgeRow)
    ensures a.month == m
    ensures forall g :: AgeValueOf(a, g) == AgeSum(rows, m, key, g)
  {
    AgeRow(m, AgeSum(rows, m, key, Age0To5), AgeSum(rows, m, key, Age5To17), AgeSum(rows, m, key, Age18Plus))
  }

  /** The month keys of the rows that have one, in row order, repeats kept. */
  function RowMonths(rows: seq<Row>, key: Row -> string): (ms: seq<string>)
    ensures forall m :: m in ms ==> m != ""
  {
    if |rows| == 0 then []
    else
      var last := rows[|rows| - 1];
      RowMonths(rows[..|rows| - 1], key) + (if key(last) != "" then [key(last)] else [])
  }

  /** The months of the top states' series, state after state. */
  function TopMonths(series: string -> seq<Bucket<string>>, top: seq<string>): seq<string> {
    if |top| == 0 then []
    else TopMonths(series, top[..|top| - 1]) + KeysOf(series(top[|top| - 1]))
  }

  /** `monthSet` in insertion order: the top states' months, then every row's month, each
      once. */
  function MonthsInserted(rows: seq<Row>, top: seq<string>, key: Row -> string): seq<string> {
    Distinct(TopMonths(SeriesOf(rows, key), top) + RowMonths(rows, key))
  }

  /** Month labels weighed by their time stamps. */
  function Timed(ms: seq<string>, timeOf: string -> real): (r: seq<Bucket<string>>)
    ensures |r| == |ms|
    ensures forall i :: 0 <= i < |ms| ==> r[i] == Bucket(ms[i], timeOf(ms[i]))
  {
    seq(|ms|, i requires 0 <= i < |ms| => Bucket(ms[i], timeOf(ms[i])))
  }

  /** `months`: `[...monthSet].sort(safeSortMonthLabel)`, a stable sort by time. */
  function MonthAxis(rows: seq<Row>, top: seq<string>, key: Row -> string, timeOf: string -> real): seq<string> {
    KeysOf(SortBy(Timed(MonthsInserted(rows, top, key), timeOf), false))
  }

  /** One row of `stateChart`: the month and, for each top state whose series has the
      month, its value; a state without rows that month is absent. */
  datatype StateRow = StateRow(month: string, values: map<string, real>)

  function StateValues(series: string -> seq<Bucket<string>>, top: seq<string>, m: string): map<string, real> {
    map s | s in top && m in KeysOf(series(s)) :: Lookup(series(s), m)
  }

  function StateChart(series: string -> seq<Bucket<string>>, top: seq<string>, months: seq<string>): (r: seq<StateRow>)
    ensures |r| == |months|
    ensures forall i :: 0 <= i < |months| ==> r[i] == StateRow(months[i], StateValues(series, top, months[i]))
  {
    seq(|months|, i requires 0 <= i < |months| => StateRow(months[i], StateValues(series, top, months[i])))
  }

  function AgeChart(rows: seq<Row>, months: seq<string>, key: Row -> string): (r: seq<AgeRow>)
    ensures |r| == |months|
    ensures forall i :: 0 <= i < |months| ==> r[i] == AgeRowOf(rows, months[i], key)
  {
    seq(|months|, i requires 0 <= i < |months| => AgeRowOf(rows, months[i], key))
  }

  datatype Comparison = Comparison(topStates: seq<string>, stateChart: seq<StateRow>, ageChart: seq<AgeRow>)

  /** The `model` memo's result. */
  function ComparisonOf(rows: seq<Row>, k: nat, labelOf: Date -> string, timeOf: string -> real): Comparison {
    var key := KeyOf(labelOf);
    var top := TopStates(rows, k);
    var months := MonthAxis(rows, top, key, timeOf);
    Comparison(top, StateChart(SeriesOf(rows, key), top, months), AgeChart(rows, months, key))
  }

  /** `byMonthAll` after the series of the states in `done`: the value of state s in month
      m is kept under (m, s). */
  ghost predicate Filled(cells: map<(string, string), real>, done: seq<string>, series: string -> seq<Bucket<string>>) {
    (forall p :: p in cells <==> p.1 in done && p.0 in KeysOf(series(p.1)))
    && (forall p :: p in cells ==> cells[p] == Lookup(series(p.1), p.0))
  }

  /** `ageSeries` after the rows `done`. */
  ghost predicate AgesFilled(ages: map<string, AgeRow>, done: seq<Row>, key: Row -> string) {
    (forall m :: m in ages <==> m in RowMonths(done, key))
    && (forall m :: m in ages ==> ages[m] == AgeRowOf(done, m, key))
  }

  /** The `model` memo: the state totals loop, the loop over the top states, the age
      loop, the sort of `monthSet`, and the two chart tables. */
  method Model(rows: seq<Row>, k: nat, labelOf: Date -> string, timeOf: string -> real) returns (c: Comparison)
    ensures c == ComparisonOf(rows, k, labelOf, timeOf)
  {
    var key := KeyOf(labelOf);
    var stateTotals := GroupRows(rows, StateEntry);
    var top := KeysOf(TopK(stateTotals, k, true));
    var byMonthAll, monthSet, inserted := StateSeries(rows, key, top);
    var ageSeries;
    ageSeries, monthSet, inserted := AgeSeries(rows, key, monthSet, inserted);
    var months := KeysOf(SortBy(Timed(monthSet, timeOf), false));
    var stateChart, ageChart := Charts(months, top, byMonthAll, ageSeries, SeriesOf(rows, key), rows, key);
    c := Comparison(top, stateChart, ageChart);
  }

  /** The loop over the top states: each state's rows, by exact name, summed by month;
      each month joins `monthSet` and the state's value goes into `byMonthAll`. */
  method StateSeries(rows: seq<Row>, key: Row -> string, top: seq<string>)
    returns (byMonthAll: map<(string, string), real>, monthSet: seq<string>, ghost inserted: seq<string>)
    ensures monthSet == Distinct(inserted)
    ensures inserted == TopMonths(SeriesOf(rows, key), top)
    ensures Filled(byMonthAll, top, SeriesOf(rows, key))
  {
    ghost var series := SeriesOf(rows, key);
    byMonthAll, monthSet, inserted := map[], [], [];
    for i := 0 to |top|
      invariant monthSet == Distinct(inserted)
      invariant inserted == TopMonths(series, top[..i])
      invariant Filled(byMonthAll, top[..i], series)
    {
      var state := top[i];
      var s := GroupRows(Filter(rows, OfState(state)), MonthEntry(key));
      assert s == series(state);
      PrefixSnoc(top, i);
      monthSet, inserted, byMonthAll := AddSeries(series, top[..i], state, s, monthSet, inserted, byMonthAll);
      assert inserted == TopMonths(series, top[..i + 1]);
      assert Filled(byMonthAll, top[..i + 1], series);
    }
    assert top[..|top|] == top;
  }

  /** The age loop over all rows: each row with a month key adds the month to `monthSet`
      and its age counts to the month's bucket. */
  method AgeSeries(rows: seq<Row>, key: Row -> string, monthSet: seq<string>, ghost inserted: seq<string>)
    returns (ageSeries: map<string, AgeRow>, monthSet': seq<string>, ghost inserted': seq<string>)
    requires monthSet == Distinct(inserted)
    ensures monthSet' == Distinct(inserted')
    ensures inserted' == inserted + RowMonths(rows, key)
    ensures AgesFilled(ageSeries, rows, key)
  {
    ageSeries, monthSet', inserted' := map[], monthSet, inserted;
    for j := 0 to |rows|
      invariant monthSet' == Distinct(inserted')
      invariant inserted' == inserted + RowMonths(rows[..j], key)
      invariant AgesFilled(ageSeries, rows[..j], key)
    {
      monthSet', inserted', ageSeries := AddAges(rows, j, key, inserted, monthSet', inserted', ageSeries);
    }
    assert rows[..|rows|] == rows;
  }

  /** `stateChart` and `ageChart`: for each month, the top states' values spread into a
      row, and the month's age bucket or, failing that, zeros. */
  method Charts(months: seq<string>, top: seq<string>, byMonthAll: map<(string, string), real>, ageSeries: map<string, AgeRow>,
                ghost series: string -> seq<Bucket<string>>, ghost rows: seq<Row>, ghost key: Row -> string)
    returns (stateChart: seq<StateRow>, ageChart: seq<AgeRow>)
    requires Filled(byMonthAll, top, series)
    requires AgesFilled(ageSeries, rows, key)
    ensures stateChart == StateChart(series, top, months)
    ensures ageChart == AgeChart(rows, months, key)
  {
    stateChart := seq(|months|, i requires 0 <= i < |months| =>
      StateRow(months[i], map s | s in top && (months[i], s) in byMonthAll :: byMonthAll[(months[i], s)]));
    ageChart := seq(|months|, i requires 0 <= i < |months| =>
      if months[i] in ageSeries then ageSeries[months[i]] else AgeRow(months[i], 0.0, 0.0, 0.0));
    forall i | 0 <= i < |months|
      ensures stateChart[i] == StateRow(months[i], StateValues(series, top, months[i]))
      ensures ageChart[i] == AgeRowOf(rows, months[i], key)
    {
      FilledValues(byMonthAll, top, series, months[i]);
      if months[i] !in ageSeries {
        AgeRowAbsent(rows, months[i], key);
      }
    }
  }

  /** The inner loop over one state's series: each month joins `monthSet` and its value
      goes under (month, state). */
  method AddSeries(ghost series: string -> seq<Bucket<string>>, ghost done: seq<string>, state: string, s: seq<Bucket<string>>,
                   monthSet: seq<string>, ghost inserted: seq<string>, byMonthAll: map<(string, string), real>)
    returns (monthSet': seq<string>, ghost inserted': seq<string>, byMonthAll': map<(string, string), real>)
    requires s == series(state) && DistinctKeys(s)
    requires monthSet == Distinct(inserted)
    requires inserted == TopMonths(series, done)
    requires Filled(byMonthAll, done, series)
    ensures monthSet' == Distinct(inserted')
    ensures inserted' == TopMonths(series, done + [state])
    ensures Filled(byMonthAll', done + [state], series)
  {
    monthSet', inserted', byMonthAll' := monthSet, inserted, byMonthAll;
    PartialStart(byMonthAll, done, series, state);
    for j := 0 to |s|
      invariant monthSet' == Distinct(inserted')
      invariant inserted' == inserted + KeysOf(s[..j])
      invariant Partial(byMonthAll', done, series, state, KeysOf(s[..j]))
    {
      LookupAt(s, j);
      monthSet', inserted', byMonthAll' := AddCell(series, done, state, KeysOf(s[..j]), s[j].key, s[j].value, monthSet', inserted', byMonthAll');
      KeysOfSnoc(s, j);
    }
    SeriesAdded(series, done, state, s, inserted, inserted');
    assert s[..|s|] == s;
    PartialDone(byMonthAll', done, series, state);
  }

  lemma KeysOfSnoc(s: seq<Bucket<string>>, j: nat)
    requires j < |s|
    ensures KeysOf(s[..j + 1]) == KeysOf(s[..j]) + [s[j].key]
  {
  }

  /** After the whole of a state's series the inserted months are those of `done` and
      then that state's. */
  lemma SeriesAdded(series: string -> seq<Bucket<string>>, done: seq<string>, state: string, s: seq<Bucket<string>>,
                    inserted: seq<string>, inserted': seq<string>)
    requires s == series(state)
    requires inserted == TopMonths(series, done)
    requires inserted' == inserted + KeysOf(s[..|s|])
    ensures inserted' == TopMonths(series, done + [state])
  {
    assert s[..|s|] == s;
    assert (done + [state])[..|done|] == done;
  }

  /** One month of a series: `monthSet.add(m)` and `byMonthAll.get(m)[state] = v`. */
  method AddCell(ghost series: string -> seq<Bucket<string>>, ghost done: seq<string>, state: string, ghost ks: seq<string>,
                 m: string, v: real, monthSet: seq<string>, ghost inserted: seq<string>, byMonthAll: map<(string, string), real>)
    returns (monthSet': seq<string>, ghost inserted': seq<string>, byMonthAll': map<(string, string), real>)
    requires v == Lookup(series(state), m)
    requires monthSet == Distinct(inserted)
    requires Partial(byMonthAll, done, series, state, ks)
    ensures monthSet' == Distinct(inserted') && inserted' == inserted + [m]
    ensures Partial(byMonthAll', done, series, state, ks + [m])
  {
    DistinctSnoc(inserted, m);
    monthSet' := if m in monthSet then monthSet else monthSet + [m];
    inserted' := inserted + [m];
    PartialStep(byMonthAll, done, series, state, ks, m, v);
    byMonthAll' := byMonthAll[(m, state) := v];
  }

  /** `byMonthAll` part way through the series of `state`: the months `ks` of it are in. */
  ghost predicate Partial(cells: map<(string, string), real>, done: seq<string>, series: string -> seq<Bucket<string>>,
                          state: string, ks: seq<string>) {
    (forall p :: p in cells <==> (p.1 in done && p.0 in KeysOf(series(p.1))) || (p.1 == state && p.0 in ks))
    && (forall p :: p in cells ==> cells[p] == Lookup(series(p.1), p.0))
  }

  lemma PartialStart(cells: map<(string, string), real>, done: seq<string>, series: string -> seq<Bucket<string>>, state: string)
    requires Filled(cells, done, series)
    ensures Partial(cells, done, series, state, [])
  {
  }

  lemma PartialStep(cells: map<(string, string), real>, done: seq<string>, series: string -> seq<Bucket<string>>,
                    state: string, ks: seq<string>, m: string, v: real)
    requires Partial(cells, done, series, state, ks)
    requires v == Lookup(series(state), m)
    ensures Partial(cells[(m, state) := v], done, series, state, ks + [m])
  {
    var c := cells[(m, state) := v];
    forall p ensures p in c <==> (p.1 in done && p.0 in KeysOf(series(p.1))) || (p.1 == state && p.0 in ks + [m]) {
      if p == (m, state) {
      } else {
        assert p in c <==> p in cells;
        assert p.1 == state ==> (p.0 in ks + [m] <==> p.0 in ks);
      }
    }
    forall p | p in c ensures c[p] == Lookup(series(p.1), p.0) {
      if p != (m, state) {
        assert c[p] == cells[p];
      }
    }
  }

  lemma PartialDone(cells: map<(string, string), real>, done: seq<string>, series: string -> seq<Bucket<string>>, state: string)
    requires Partial(cells, done, series, state, KeysOf(series(state)))
    ensures Filled(cells, done + [state], series)
  {
    forall p: (string, string) ensures p.1 in done + [state] <==> p.1 in done || p.1 == state {
    }
  }

  /** One pass of the age loop: a row with a month key adds the month to `monthSet` and
      its three age counts to the month's bucket, which starts from zeros. */
  method AddAges(rows: seq<Row>, j: nat, key: Row -> string, ghost fromTop: seq<string>,
                 monthSet: seq<string>, ghost inserted: seq<string>, ageSeries: map<string, AgeRow>)
    returns (monthSet': seq<string>, ghost inserted': seq<string>, ageSeries': map<string, AgeRow>)
    requires j < |rows|
    requires monthSet == Distinct(inserted)
    requires inserted == fromTop + RowMonths(rows[..j], key)
    requires AgesFilled(ageSeries, rows[..j], key)
    ensures monthSet' == Distinct(inserted')
    ensures inserted' == fromTop + RowMonths(rows[..j + 1], key)
    ensures AgesFilled(ageSeries', rows[..j + 1], key)
  {
    var r := rows[j];
    var m := key(r);
    if m == "" {
      monthSet', inserted', ageSeries' := monthSet, inserted, ageSeries;
      AgesKeepAt(ageSeries, rows, j, key);
    } else {
      monthSet' := if m in monthSet then monthSet else monthSet + [m];
      inserted' := inserted + [m];
      var bucket := if m in ageSeries then ageSeries[m] else AgeRow(m, 0.0, 0.0, 0.0);
      ageSeries' := ageSeries[m := AgeRow(m, bucket.age0To5 + r.age0To5, bucket.age5To17 + r.age5To17, bucket.age18Plus + r.age18Plus)];
      AgesBumpAt(ageSeries, rows, j, key, bucket);
      MonthsBumpAt(rows, j, key, fromTop, monthSet, inserted);
    }
  }

  lemma MonthsBumpAt(rows: seq<Row>, j: nat, key: Row -> string, fromTop: seq<string>, monthSet: seq<string>, inserted: seq<string>)
    requires j < |rows| && key(rows[j]) != ""
    requires monthSet == Distinct(inserted)
    requires inserted == fromTop + RowMonths(rows[..j], key)
    requires RowMonths(rows[..j + 1], key) == RowMonths(rows[..j], key) + [key(rows[j])]
    ensures (if key(rows[j]) in monthSet then monthSet else monthSet + [key(rows[j])]) == Distinct(inserted + [key(rows[j])])
    ensures inserted + [key(rows[j])] == fromTop + RowMonths(rows[..j + 1], key)
  {
    DistinctSnoc(inserted, key(rows[j]));
  }

  lemma AgesKeepAt(ages: map<string, AgeRow>, rows: seq<Row>, j: nat, key: Row -> string)
    requires j < |rows| && key(rows[j]) == ""
    requires AgesFilled(ages, rows[..j], key)
    ensures RowMonths(rows[..j + 1], key) == RowMonths(rows[..j], key)
    ensures AgesFilled(ages, rows[..j + 1], key)
  {
    PrefixSnoc(rows, j);
    AgesKeep(ages, rows[..j], rows[j], key);
  }

  lemma AgesBumpAt(ages: map<string, AgeRow>, rows: seq<Row>, j: nat, key: Row -> string, bucket: AgeRow)
    requires j < |rows| && key(rows[j]) != ""
    requires AgesFilled(ages, rows[..j], key)
    requires bucket == if key(rows[j]) in ages then ages[key(rows[j])] else AgeRow(key(rows[j]), 0.0, 0.0, 0.0)
    ensures RowMonths(rows[..j + 1], key) == RowMonths(rows[..j], key) + [key(rows[j])]
    ensures AgesFilled(ages[key(rows[j]) := AgeRow(key(rows[j]), bucket.age0To5 + rows[j].age0To5,
      bucket.age5To17 + rows[j].age5To17, bucket.age18Plus + rows[j].age18Plus)], rows[..j + 1], key)
  {
    PrefixSnoc(rows, j);
    AgesBump(ages, rows[..j], rows[j], key, bucket);
  }

  /** A row without a month key changes neither the months nor the age buckets. */
  lemma AgesKeep(ages: map<string, AgeRow>, done: seq<Row>, r: Row, key: Row -> string)
    requires key(r) == ""
    requires AgesFilled(ages, done, key)
    ensures RowMonths(done + [r], key) == RowMonths(done, key)
    ensures AgesFilled(ages, done + [r], key)
  {
    AgeStep(done + [r], key);
    assert (done + [r])[..|done|] == done;
  }

  /** A row with month key m adds m to the months and its age counts to m's bucket,
      which starts from zeros. */
  lemma AgesBump(ages: map<string, AgeRow>, done: seq<Row>, r: Row, key: Row -> string, bucket: AgeRow)
    requires key(r) != ""
    requires AgesFilled(ages, done, key)
    requires bucket == if key(r) in ages then ages[key(r)] else AgeRow(key(r), 0.0, 0.0, 0.0)
    ensures RowMonths(done + [r], key) == RowMonths(done, key) + [key(r)]
    ensures AgesFilled(ages[key(r) := AgeRow(key(r), bucket.age0To5 + r.age0To5, bucket.age5To17 + r.age5To17,
      bucket.age18Plus + r.age18Plus)], done + [r], key)
  {
    AgeStep(done + [r], key);
    assert (done + [r])[..|done|] == done;
    if key(r) !in ages {
      AgeRowAbsent(done, key(r), key);
    }
  }

  lemma PrefixSnoc<T>(s: seq<T>, i: nat)
    requires i < |s|
    ensures s[..i + 1] == s[..i] + [s[i]]
  {
  }

  /** The last row adds its month key, if any, and its age counts to that month. */
  lemma AgeStep(rows: seq<Row>, key: Row -> string)
    requires |rows| > 0
    ensures var n := |rows| - 1;
      RowMonths(rows, key) == RowMonths(rows[..n], key) + (if key(rows[n]) != "" then [key(rows[n])] else [])
    ensures var n := |rows| - 1;
      forall m {:trigger AgeRowOf(rows, m, key)} ::
        AgeRowOf(rows, m, key) ==
          if key(rows[n]) == m && m != "" then
            AgeRow(m, AgeRowOf(rows[..n], m, key).age0To5 + rows[n].age0To5,
              AgeRowOf(rows[..n], m, key).age5To17 + rows[n].age5To17,
              AgeRowOf(rows[..n], m, key).age18Plus + rows[n].age18Plus)
          else AgeRowOf(rows[..n], m, key)
  {
  }

  /** A month no row has collects zeros. */
  lemma {:induction false} AgeRowAbsent(rows: seq<Row>, m: string, key: Row -> string)
    requires m !in RowMonths(rows, key)
    ensures AgeRowOf(rows, m, key) == AgeRow(m, 0.0, 0.0, 0.0)
  {
    if |rows| > 0 {
      AgeRowAbsent(rows[..|rows| - 1], m, key);
    }
  }

  /** The chart row read back from `byMonthAll` is the top states' values that month. */
  lemma FilledValues(cells: map<(string, string), real>, top: seq<string>, series: string -> seq<Bucket<string>>, m: string)
    requires Filled(cells, top, series)
    ensures (map s | s in top && (m, s) in cells :: cells[(m, s)]) == StateValues(series, top, m)
  {
    var a := map s | s in top && (m, s) in cells :: cells[(m, s)];
    var b := StateValues(series, top, m);
    assert forall s :: s in a <==> s in b by {
      forall s ensures s in a <==> s in b {
        assert (m, s).0 == m && (m, s).1 == s;
      }
    }
  }

  /** A month key is among the row months exactly when some row has it. */
  lemma {:induction false} RowMonthsHas(rows: seq<Row>, key: Row -> string, m: string)
    ensures m in RowMonths(rows, key) <==> m != "" && exists r :: r in rows && key(r) == m
  {
    if |rows| > 0 {
      var n := |rows| - 1;
      RowMonthsHas(rows[..n], key, m);
      assert rows == rows[..n] + [rows[n]];
      assert forall r :: r in rows <==> r in rows[..n] || r == rows[n];
    }
  }

  /** An entry of a row is among the entries. */
  lemma {:induction false} EntryReaches<T, K>(rows: seq<T>, entry: T -> seq<Bucket<K>>, t: T, b: Bucket<K>)
    requires t in rows && b in entry(t)
    ensures b in Entries(rows, entry)
  {
    var n := |rows| - 1;
    if rows[n] != t {
      assert t in rows[..n];
      EntryReaches(rows[..n], entry, t, b);
    }
  }

  /** The keys of a group-by-sum over the rows that pass f are the keys those rows
      contribute. */
  lemma GroupKeysOfFilter<T(!new), K(!new)>(rows: seq<T>, f: T -> bool, entry: T -> seq<Bucket<K>>, k: K)
    ensures k in KeysOf(GroupSum(Entries(Filter(rows, f), entry))) <==> exists t :: t in rows && f(t) && k in KeysOf(entry(t))
  {
    var sub := Filter(rows, f);
    var e := Entries(sub, entry);
    if k in KeysOf(e) {
      var p :| 0 <= p < |e| && KeysOf(e)[p] == k;
      EntriesFrom(sub, entry, e[p]);
      var t :| t in sub && e[p] in entry(t);
      MemberKey(entry(t), e[p]);
    }
    if exists t :: t in rows && f(t) && k in KeysOf(entry(t)) {
      var t :| t in rows && f(t) && k in KeysOf(entry(t));
      var q :| 0 <= q < |entry(t)| && KeysOf(entry(t))[q] == k;
      assert entry(t)[q] in entry(t);
      EntryReaches(sub, entry, t, entry(t)[q]);
      MemberKey(e, entry(t)[q]);
    }
  }

  /** Each month of a state's series is the month key of one of the rows with exactly
      that state, and each such key is in the series. */
  lemma SeriesMonths(rows: seq<Row>, state: string, key: Row -> string, m: string)
    ensures m in KeysOf(Series(rows, state, key)) <==> m != "" && exists r :: r in rows && r.state == state && key(r) == m
  {
    GroupKeysOfFilter(rows, OfState(state), MonthEntry(key), m);
    if m in KeysOf(Series(rows, state, key)) {
      var r :| r in rows && OfState(state)(r) && m in KeysOf(MonthEntry(key)(r));
      MonthEntryKeys(key, r, m);
    }
    if m != "" && exists r :: r in rows && r.state == state && key(r) == m {
      var r :| r in rows && r.state == state && key(r) == m;
      MonthEntryKeys(key, r, m);
      assert OfState(state)(r);
    }
  }

  lemma MonthEntryKeys(key: Row -> string, r: Row, m: string)
    ensures m in KeysOf(MonthEntry(key)(r)) <==> key(r) != "" && key(r) == m
  {
    if key(r) != "" {
      assert KeysOf(MonthEntry(key)(r)) == [key(r)];
    }
  }

  lemma {:induction false} TopMonthsAreRowMonths(rows: seq<Row>, top: seq<string>, key: Row -> string)
    ensures forall m :: m in TopMonths(SeriesOf(rows, key), top) ==> m in RowMonths(rows, key)
  {
    if |top| > 0 {
      TopMonthsAreRowMonths(rows, top[..|top| - 1], key);
      forall m | m in KeysOf(Series(rows, top[|top| - 1], key)) ensures m in RowMonths(rows, key) {
        SeriesMonths(rows, top[|top| - 1], key, m);
        RowMonthsHas(rows, key, m);
      }
    }
  }

  /** Sorting labels by their time stamps keeps each label once and puts them in time
      order. */
  lemma SortedByTime(ms: seq<string>, timeOf: string -> real)
    requires forall i, j :: 0 <= i < j < |ms| ==> ms[i] != ms[j]
    ensures forall m :: m in KeysOf(SortBy(Timed(ms, timeOf), false)) <==> m in ms
    ensures forall i, j :: 0 <= i < j < |ms| ==>
      KeysOf(SortBy(Timed(ms, timeOf), false))[i] != KeysOf(SortBy(Timed(ms, timeOf), false))[j]
    ensures forall i, j :: 0 <= i < j < |ms| ==>
      timeOf(KeysOf(SortBy(Timed(ms, timeOf), false))[i]) <= timeOf(KeysOf(SortBy(Timed(ms, timeOf), false))[j])
  {
    var t := Timed(ms, timeOf);
    var sorted := SortBy(t, false);
    TimedSortMembers(ms, timeOf);
    SubMultisetDistinctKeys(sorted, t);
    TimedSortValues(ms, timeOf);
  }

  lemma TimedSortMembers(ms: seq<string>, timeOf: string -> real)
    ensures forall m :: m in KeysOf(SortBy(Timed(ms, timeOf), false)) <==> m in ms
  {
    var t := Timed(ms, timeOf);
    var sorted := SortBy(t, false);
    var axis := KeysOf(sorted);
    forall m ensures m in axis <==> m in ms {
      if m in axis {
        var p :| 0 <= p < |axis| && axis[p] == m;
        assert sorted[p] in multiset(t);
      }
      if m in ms {
        var p :| 0 <= p < |ms| && ms[p] == m;
        assert t[p] in multiset(sorted);
        var q :| 0 <= q < |sorted| && sorted[q] == t[p];
        assert axis[q] == m;
      }
    }
  }

  lemma TimedSortValues(ms: seq<string>, timeOf: string -> real)
    ensures forall p :: 0 <= p < |SortBy(Timed(ms, timeOf), false)| ==>
      SortBy(Timed(ms, timeOf), false)[p].value == timeOf(SortBy(Timed(ms, timeOf), false)[p].key)
  {
    var t := Timed(ms, timeOf);
    var sorted := SortBy(t, false);
    forall p | 0 <= p < |sorted| ensures sorted[p].value == timeOf(sorted[p].key) {
      assert sorted[p] in multiset(t);
    }
  }

  /** The month axis: every month once, in time order, and exactly the months some row
      has: the months of the top states' series add none of their own. */
  lemma MonthAxisFacts(rows: seq<Row>, top: seq<string>, key: Row -> string, timeOf: string -> real)
    ensures forall m :: m in MonthAxis(rows, top, key, timeOf) <==> m != "" && exists r :: r in rows && key(r) == m
    ensures forall i, j :: 0 <= i < j < |MonthAxis(rows, top, key, timeOf)| ==>
      MonthAxis(rows, top, key, timeOf)[i] != MonthAxis(rows, top, key, timeOf)[j]
    ensures forall i, j :: 0 <= i < j < |MonthAxis(rows, top, key, timeOf)| ==>
      timeOf(MonthAxis(rows, top, key, timeOf)[i]) <= timeOf(MonthAxis(rows, top, key, timeOf)[j])
  {
    var ins := MonthsInserted(rows, top, key);
    TopMonthsAreRowMonths(rows, top, key);
    SortedByTime(ins, timeOf);
    forall m ensures m in ins <==> m != "" && exists r :: r in rows && key(r) == m {
      RowMonthsHas(rows, key, m);
    }
  }

  lemma FilterSingle<T(!new)>(x: T, f: T -> bool)
    ensures Filter([x], f) == if f(x) then [x] else []
  {
    assert [x][1..] == [];
  }

  lemma {:induction false} EntriesConcat<T, K>(a: seq<T>, b: seq<T>, entry: T -> seq<Bucket<K>>)
    ensures Entries(a + b, entry) == Entries(a, entry) + Entries(b, entry)
    decreases |b|
  {
    if |b| > 0 {
      var n := |b| - 1;
      assert (a + b)[..|a + b| - 1] == a + b[..n];
      EntriesConcat(a, b[..n], entry);
    } else {
      assert a + b == a;
    }
  }

  /** The sum for key k over the entries of the rows that pass f. */
  function SumWhere<T, K(==,!new)>(rows: seq<T>, f: T -> bool, entry: T -> seq<Bucket<K>>, k: K): real {
    if |rows| == 0 then 0.0
    else SumWhere(rows[..|rows| - 1], f, entry, k) + (if f(rows[|rows| - 1]) then SumFor(entry(rows[|rows| - 1]), k) else 0.0)
  }

  lemma {:induction false} FilteredEntries<T(!new), K(!new)>(rows: seq<T>, f: T -> bool, entry: T -> seq<Bucket<K>>, k: K)
    ensures SumFor(Entries(Filter(rows, f), entry), k) == SumWhere(rows, f, entry, k)
  {
    if |rows| > 0 {
      var n := |rows| - 1;
      var last := rows[n];
      FilteredEntries(rows[..n], f, entry, k);
      assert rows == rows[..n] + [last];
      FilterAppend(rows[..n], [last], f);
      FilterSingle(last, f);
      var a := Filter(rows[..n], f);
      var b := Filter([last], f);
      EntriesConcat(a, b, entry);
      SumForAppend(Entries(a, entry), Entries(b, entry), k);
      if f(last) {
        assert b[..0] == [];
        assert Entries(b, entry) == entry(last);
      } else {
        assert Entries(b, entry) == [];
      }
    }
  }

  lemma {:induction false} EntriesByMonth(rows: seq<Row>, s: string, m: string, key: Row -> string)
    ensures SumFor(Entries(Filter(rows, OfState(s)), MonthEntry(key)), m) == MonthSum(rows, s, m, key)
  {
    FilteredEntries(rows, OfState(s), MonthEntry(key), m);
    MonthSumWhere(rows, s, m, key);
  }

  lemma {:induction false} MonthSumWhere(rows: seq<Row>, s: string, m: string, key: Row -> string)
    ensures SumWhere(rows, OfState(s), MonthEntry(key), m) == MonthSum(rows, s, m, key)
  {
    if |rows| > 0 {
      var n := |rows| - 1;
      MonthSumWhere(rows[..n], s, m, key);
      MonthEntrySum(rows[n], m, key);
    }
  }

  lemma MonthEntrySum(r: Row, m: string, key: Row -> string)
    ensures SumFor(MonthEntry(key)(r), m) == if key(r) == m && m != "" then r.total else 0.0
  {
    var e := MonthEntry(key)(r);
    if key(r) != "" {
      assert e == [Bucket(key(r), r.total)];
      assert e[..0] == [];
    }
  }

  lemma {:induction false} EntriesByState(rows: seq<Row>, s: string)
    ensures SumFor(Entries(rows, StateEntry), s) == StateTotal(rows, s)
  {
    if |rows| > 0 {
      var n := |rows| - 1;
      EntriesByState(rows[..n], s);
      SumForAppend(Entries(rows[..n], StateEntry), StateEntry(rows[n]), s);
      StateTotalStep(rows, s);
      assert Entries(rows, StateEntry) == Entries(rows[..n], StateEntry) + StateEntry(rows[n]);
    }
  }

  lemma StateTotalStep(rows: seq<Row>, s: string)
    requires |rows| > 0
    ensures StateTotal(rows, s) == StateTotal(rows[..|rows| - 1], s) + SumFor(StateEntry(rows[|rows| - 1]), s)
  {
    StateEntrySum(rows[|rows| - 1], s);
  }

  lemma StateEntrySum(r: Row, s: string)
    ensures SumFor(StateEntry(r), s) == if FiltersPanel.Named(s) && Trim(r.state) == s then r.total else 0.0
  {
    assert StateEntry(r)[..0] == [];
  }

  /** The top states: at most k of them, each once, in descending order of their
      totals, and no counted state left out has a larger total than a state shown. */
  lemma TopStatesRanked(rows: seq<Row>, k: nat)
    ensures |TopStates(rows, k)| <= k
    ensures forall i, j :: 0 <= i < j < |TopStates(rows, k)| ==>
      TopStates(rows, k)[i] != TopStates(rows, k)[j] && StateTotal(rows, TopStates(rows, k)[i]) >= StateTotal(rows, TopStates(rows, k)[j])
    ensures forall x, y ::
      x in KeysOf(Entries(rows, StateEntry)) && x !in TopStates(rows, k) && y in TopStates(rows, k) ==>
        StateTotal(rows, y) >= StateTotal(rows, x)
  {
    var e := Entries(rows, StateEntry);
    TopKeysOfGroup(e, k, true);
    forall x {
      EntriesByState(rows, x);
    }
  }

  /** Every top state is a trimmed name, neither blank nor "unknown". */
  lemma TopStatesNamed(rows: seq<Row>, k: nat)
    ensures forall s :: s in TopStates(rows, k) ==> FiltersPanel.Named(s) && IsTrimmed(s)
  {
    var e := Entries(rows, StateEntry);
    var r := TopK(StateTotals(rows), k, true);
    TopKOfGroup(e, k, true);
    forall s | s in KeysOf(r) ensures FiltersPanel.Named(s) && IsTrimmed(s) {
      var q :| 0 <= q < |r| && KeysOf(r)[q] == s;
      assert r[q] in r;
      EntryKeyNamed(rows, s);
    }
  }

  /** A key of the state entries is a trimmed, usable name. */
  lemma EntryKeyNamed(rows: seq<Row>, s: string)
    requires s in KeysOf(Entries(rows, StateEntry))
    ensures FiltersPanel.Named(s) && IsTrimmed(s)
  {
    var e := Entries(rows, StateEntry);
    var p :| 0 <= p < |e| && KeysOf(e)[p] == s;
    EntriesFrom(rows, StateEntry, e[p]);
  }

  /** Each state row holds exactly the top states with a row of that month whose state
      is the exact name, each with the sum of those rows' totals. A row whose state only
      matches after trimming counts towards the state's total but not its series. */
  lemma StateCells(rows: seq<Row>, k: nat, labelOf: Date -> string, timeOf: string -> real, i: nat, s: string)
    requires i < |ComparisonOf(rows, k, labelOf, timeOf).stateChart|
    ensures var row := ComparisonOf(rows, k, labelOf, timeOf).stateChart[i];
      (s in row.values <==> s in TopStates(rows, k) && exists r :: r in rows && r.state == s && MonthKey(r, labelOf) == row.month)
      && (s in row.values ==> row.values[s] == MonthSum(rows, s, row.month, KeyOf(labelOf)))
  {
    var key := KeyOf(labelOf);
    var top := TopStates(rows, k);
    var months := MonthAxis(rows, top, key, timeOf);
    var m := months[i];
    MonthAxisFacts(rows, top, key, timeOf);
    assert m in months;
    SeriesMonths(rows, s, key, m);
    EntriesByMonth(rows, s, m, key);
  }

  /** The age table has a row for each month of the axis, the same months as the state
      table, holding the three age sums over all rows of that month, top state or not; the
      zeros fallback is never taken. */
  lemma AgeCells(rows: seq<Row>, k: nat, labelOf: Date -> string, timeOf: string -> real, i: nat)
    requires i < |ComparisonOf(rows, k, labelOf, timeOf).ageChart|
    ensures |ComparisonOf(rows, k, labelOf, timeOf).ageChart| == |ComparisonOf(rows, k, labelOf, timeOf).stateChart|
    ensures var c := ComparisonOf(rows, k, labelOf, timeOf);
      c.ageChart[i].month == c.stateChart[i].month
      && c.ageChart[i].month in RowMonths(rows, KeyOf(labelOf))
      && forall g :: AgeValueOf(c.ageChart[i], g) == AgeSum(rows, c.ageChart[i].month, KeyOf(labelOf), g)
  {
    var key := KeyOf(labelOf);
    var top := TopStates(rows, k);
    MonthAxisFacts(rows, top, key, timeOf);
    var months := MonthAxis(rows, top, key, timeOf);
    assert months[i] in months;
    RowMonthsHas(rows, key, months[i]);
  }
}
