/** The read-only handlers of the backend (backend/main.py) over the cleaned rows: the
    age-group selection every filtered handler shares, the size of the `/api/data`
    sample, the counts of `/api/summary` and `/api/filtered_summary`, and the state and
    district totals. Filtering is `CleaningFilter.Filtered`; `int(...)` of a pandas sum is
    `Trunc`. */
module BackendHandlers {
  import opened Common
  import opened Text
  import opened Aggregates
  import opened CleaningPipeline
  import CleaningFilter
  import DashboardFilters

  /** `int(x)` on a float: truncation toward zero. */
  function Trunc(x: real): (r: int)
    ensures x >= 0.0 ==> r as real <= x < r as real + 1.0
    ensures x < 0.0 ==> r as real - 1.0 < x <= r as real
  {
    if x >= 0.0 then x.Floor else -((-x).Floor)
  }

  /** Truncation keeps order. */
  lemma TruncMonotone(x: real, y: real)
    requires x <= y
    ensures Trunc(x) <= Trunc(y)
  {
  }

  /** One of the three age columns, by name. */
  predicate Allowed(g: string) {
    g in DashboardFilters.AllAgeKeys
  }

  /** `selected`: the requested groups that name an age column, in request order (a
      repeated name stays repeated), or all three when none does. A missing list and an
      empty one are the same. */
  function SelectedAgeGroups(requested: seq<string>): (r: seq<string>)
    ensures |r| > 0
    ensures forall g :: g in r ==> Allowed(g)
    ensures (exists g :: g in requested && Allowed(g)) ==> r == Filter(requested, Allowed)
    ensures (forall g :: g in requested ==> !Allowed(g)) ==> r == DashboardFilters.AllAgeKeys
  {
    var kept := Filter(requested, Allowed);
    if |kept| == 0 then DashboardFilters.AllAgeKeys
    else
      assert kept[0] in kept;
      kept
  }

  /** A row's value in an age column named by its key. */
  function AgeColumn(r: CleanRow, key: string): real {
    if key == AgeKey(Age0To5) then r.age0To5
    else if key == AgeKey(Age5To17) then r.age5To17
    else if key == AgeKey(Age18Plus) then r.age18Plus
    else 0.0
  }

  /** `filtered[selected].sum(axis=1)` for one row: the selected columns added up, a
      column selected twice counted twice. */
  function RowTotal(r: CleanRow, selected: seq<string>): real {
    if |selected| == 0 then 0.0
    else RowTotal(r, selected[..|selected| - 1]) + AgeColumn(r, selected[|selected| - 1])
  }

  /** With no usable selection every age column counts once. */
  lemma FallbackRowTotal(r: CleanRow, requested: seq<string>)
    requires forall g :: g in requested ==> !Allowed(g)
    ensures RowTotal(r, SelectedAgeGroups(requested)) == r.age0To5 + r.age5To17 + r.age18Plus
  {
    DashboardFilters.AgeKeysDistinct();
    var k := DashboardFilters.AllAgeKeys;
    assert k[..2] == [AgeKey(Age0To5), AgeKey(Age5To17)];
    assert k[..2][..1] == [AgeKey(Age0To5)];
    assert RowTotal(r, k[..2][..1]) == r.age0To5;
    assert RowTotal(r, k[..2]) == r.age0To5 + r.age5To17;
  }

  function StateOf(r: CleanRow): string {
    r.state
  }

  function DistrictOf(r: CleanRow): string {
    r.district
  }

  /** The (state, district) pair `get_district_totals` groups by. */
  function PlaceOf(r: CleanRow): (string, string) {
    (r.state, r.district)
  }

  /** A column of the rows, in row order. */
  function Column<K>(rows: seq<CleanRow>, key: CleanRow -> K): (c: seq<K>)
    ensures |c| == |rows|
    ensures forall i :: 0 <= i < |rows| ==> c[i] == key(rows[i])
  {
    seq(|rows|, i requires 0 <= i < |rows| => key(rows[i]))
  }

  /** `nunique()` of a column. */
  function Unique<K(==,!new)>(rows: seq<CleanRow>, key: CleanRow -> K): (n: nat)
    ensures n <= |rows|
    ensures |rows| > 0 ==> n >= 1
  {
    var d := Distinct(Column(rows, key));
    if |rows| > 0 then
      assert Column(rows, key)[0] in d;
      |d|
    else |d|
  }

  /** The size of the `/api/data` sample: `limit` raised to at least 1 and capped at the
      row count; all rows when that reaches the row count, otherwise the first row of each
      state and as many randomly drawn other rows as the limit leaves room for. */
  function SampleSize(limit: int, rows: seq<CleanRow>): (size: nat) {
    var lim := if limit < 1 then 1 else limit;
    var n := MinInt(lim, |rows|);
    if n >= |rows| then |rows|
    else
      var perState := Unique(rows, StateOf);
      var remaining := if n - perState > 0 then n - perState else 0;
      if remaining > 0 then
        var available := if |rows| - perState > 0 then |rows| - perState else 0;
        perState + MinInt(remaining, available)
      else perState
  }

  /** The sample holds every row when the limit reaches the row count; otherwise the
      larger of the limit (at least 1) and the number of states, so that every state is
      represented even when that exceeds the limit. */
  lemma SampleSizeRule(limit: int, rows: seq<CleanRow>)
    ensures (if limit < 1 then 1 else limit) >= |rows| ==> SampleSize(limit, rows) == |rows|
    ensures (if limit < 1 then 1 else limit) < |rows| ==>
      SampleSize(limit, rows) == if limit < 1 then Unique(rows, StateOf)
        else if limit >= Unique(rows, StateOf) then limit else Unique(rows, StateOf)
    ensures SampleSize(limit, rows) <= |rows|
  {
  }

  /** The number of groups among the rows' entries whose sum reaches `minTotal`. */
  function GroupsReaching<K(==,!new)>(e: seq<Bucket<K>>, minTotal: real): (n: nat) {
    |Filter(GroupSum(e), (b: Bucket<K>) => b.value >= minTotal)|
  }

  /** A row's entry under a key, valued by `value`. */
  function KeyEntry<K>(key: CleanRow -> K, value: CleanRow -> real): CleanRow -> seq<Bucket<K>> {
    (r: CleanRow) => [Bucket(key(r), value(r))]
  }

  /** `districts_active`: with a positive `min_total` and at least one row, the number of
      districts whose summed value reaches it; otherwise the number of districts. */
  function ActiveDistricts(rows: seq<CleanRow>, minTotal: nat, value: CleanRow -> real): (n: nat) {
    if minTotal > 0 && |rows| > 0 then GroupsReaching(Entries(rows, KeyEntry(DistrictOf, value)), minTotal as real)
    else Unique(rows, DistrictOf)
  }

  /** The keys of a one-entry-per-row pass are the key column. */
  lemma {:induction false} EntryKeys<K>(rows: seq<CleanRow>, key: CleanRow -> K, value: CleanRow -> real)
    ensures KeysOf(Entries(rows, KeyEntry(key, value))) == Column(rows, key)
  {
    if |rows| > 0 {
      var n := |rows| - 1;
      EntryKeys(rows[..n], key, value);
      assert Entries(rows, KeyEntry(key, value)) == Entries(rows[..n], KeyEntry(key, value)) + [Bucket(key(rows[n]), value(rows[n]))];
      assert Column(rows, key) == Column(rows[..n], key) + [key(rows[n])];
    }
  }

  /** The active districts never outnumber the districts, and are all of them when no
      minimum is set. */
  lemma ActiveAtMostDistricts(rows: seq<CleanRow>, minTotal: nat, value: CleanRow -> real)
    ensures ActiveDistricts(rows, minTotal, value) <= Unique(rows, DistrictOf)
    ensures minTotal == 0 ==> ActiveDistricts(rows, minTotal, value) == Unique(rows, DistrictOf)
  {
    var e := Entries(rows, KeyEntry(DistrictOf, value));
    EntryKeys(rows, DistrictOf, value);
    assert |GroupSum(e)| == |KeysOf(GroupSum(e))|;
  }

  /** The row total of the whole table (`total_enrolments`). */
  function TotalOf(r: CleanRow): real {
    r.total
  }

  /** Sum of a value over the rows. */
  function SumOver(rows: seq<CleanRow>, value: CleanRow -> real): real {
    if |rows| == 0 then 0.0 else SumOver(rows[..|rows| - 1], value) + value(rows[|rows| - 1])
  }

  /** The figures of `/api/summary` that are counts; the date range is `DateRange`. */
  datatype Summary = Summary(
    totalEnrollments: int,
    totalRecords: nat,
    states: nat,
    districts: nat,
    districtsActive: nat,
    districtMinTotal: nat)

  function SummaryOf(df: seq<CleanRow>, districtMinTotal: nat): (s: Summary)
    ensures s.totalRecords == |df|
    ensures s.districtsActive <= s.districts <= |df| && s.states <= |df|
    ensures districtMinTotal == 0 ==> s.districtsActive == s.districts
  {
    ActiveAtMostDistricts(df, districtMinTotal, TotalOf);
    Summary(Trunc(SumOver(df, TotalOf)), |df|, Unique(df, StateOf), Unique(df, DistrictOf),
      ActiveDistricts(df, districtMinTotal, TotalOf), districtMinTotal)
  }

  /** The `date_range` of both summaries: the earliest and the latest date of the whole
      table, the filtered summary included. On an empty table `min()` is NaT and its
      `strftime` raises; that failure is None. */
  function DateRange(df: seq<CleanRow>): (r: Option<(Date, Date)>)
    ensures r.None? <==> |df| == 0
    ensures r.Some? ==> (exists x :: x in df && x.date == r.value.0) && (exists x :: x in df && x.date == r.value.1)
    ensures r.Some? ==> forall x :: x in df ==> DateLe(r.value.0, x.date) && DateLe(x.date, r.value.1)
  {
    if |df| == 0 then None
    else
      var n := |df| - 1;
      var d := df[n].date;
      assert df == df[..n] + [df[n]];
      match DateRange(df[..n])
      case None => Some((d, d))
      case Some(range) =>
        Some((if DateLt(d, range.0) then d else range.0, if DateLt(range.1, d) then d else range.1))
  }

  /** The selected-age total of each row, as a function value. */
  function SelectedTotal(selected: seq<string>): CleanRow -> real {
    (r: CleanRow) => RowTotal(r, selected)
  }

  datatype FilteredSummary = FilteredSummary(
    totalRecords: nat,
    filteredRecords: nat,
    filteredEnrollments: int,
    states: nat,
    districts: nat,
    districtsActive: nat,
    districtMinTotal: nat)

  /** `/api/filtered_summary`: the rows `filter_df` keeps, their selected-age total, and
      their state and district counts; an empty selection counts nothing. */
  function FilteredSummaryOf(df: seq<CleanRow>, parse: DateParser, q: CleaningFilter.Query,
                             requested: seq<string>, districtMinTotal: nat): (s: FilteredSummary)
    ensures s.totalRecords == |df| && s.filteredRecords <= |df|
    ensures s.filteredRecords == |CleaningFilter.Filtered(parse, q, df)|
    ensures s.districtsActive <= s.districts <= s.filteredRecords && s.states <= s.filteredRecords
    ensures districtMinTotal == 0 ==> s.districtsActive == s.districts
    ensures s.filteredRecords == 0 ==> s.filteredEnrollments == 0 && s.states == 0 && s.districts == 0
  {
    var filtered := CleaningFilter.Filtered(parse, q, df);
    var value := SelectedTotal(SelectedAgeGroups(requested));
    ActiveAtMostDistricts(filtered, districtMinTotal, value);
    FilteredSummary(|df|, |filtered|,
      if |filtered| > 0 then Trunc(SumOver(filtered, value)) else 0,
      if |filtered| > 0 then Unique(filtered, StateOf) else 0,
      if |filtered| > 0 then Unique(filtered, DistrictOf) else 0,
      ActiveDistricts(filtered, districtMinTotal, value),
      districtMinTotal)
  }

  /** Sum of the value over the rows with key k: the reference for one group. */
  function KeySum<K(==)>(rows: seq<CleanRow>, key: CleanRow -> K, value: CleanRow -> real, k: K): real {
    if |rows| == 0 then 0.0
    else
      var last := rows[|rows| - 1];
      KeySum(rows[..|rows| - 1], key, value, k) + (if key(last) == k then value(last) else 0.0)
  }

  /** `row_totals.groupby(key, sort=False).sum().sort_values(ascending=False)`. */
  function KeyTotals<K(==,!new)>(rows: seq<CleanRow>, key: CleanRow -> K, value: CleanRow -> real): seq<Bucket<K>> {
    SortBy(GroupSum(Entries(rows, KeyEntry(key, value))), true)
  }

  lemma {:induction false} KeySumIsSumFor<K(!new)>(rows: seq<CleanRow>, key: CleanRow -> K, value: CleanRow -> real, k: K)
    ensures SumFor(Entries(rows, KeyEntry(key, value)), k) == KeySum(rows, key, value, k)
  {
    if |rows| > 0 {
      var n := |rows| - 1;
      var e := Entries(rows[..n], KeyEntry(key, value));
      KeySumIsSumFor(rows[..n], key, value, k);
      assert Entries(rows, KeyEntry(key, value)) == e + [Bucket(key(rows[n]), value(rows[n]))];
      SumForAppend(e, [Bucket(key(rows[n]), value(rows[n]))], k);
      assert [Bucket(key(rows[n]), value(rows[n]))][..0] == [];
    }
  }

  lemma {:induction false} EntriesSum<K>(rows: seq<CleanRow>, key: CleanRow -> K, value: CleanRow -> real)
    ensures Total(Entries(rows, KeyEntry(key, value))) == SumOver(rows, value)
  {
    if |rows| > 0 {
      var n := |rows| - 1;
      EntriesSum(rows[..n], key, value);
      assert Entries(rows, KeyEntry(key, value)) == Entries(rows[..n], KeyEntry(key, value)) + [Bucket(key(rows[n]), value(rows[n]))];
      TotalAppend(Entries(rows[..n], KeyEntry(key, value)), [Bucket(key(rows[n]), value(rows[n]))]);
      TotalOfAtMostOne([Bucket(key(rows[n]), value(rows[n]))]);
    }
  }

  /** The grouped totals: one bucket per key present among the rows, each holding that
      key's sum, largest first, together summing to the sum over all rows. */
  lemma KeyTotalsFacts<K(!new)>(rows: seq<CleanRow>, key: CleanRow -> K, value: CleanRow -> real)
    ensures DistinctKeys(KeyTotals(rows, key, value))
    ensures SortedBy(KeyTotals(rows, key, value), true)
    ensures forall b :: b in KeyTotals(rows, key, value) ==> b.value == KeySum(rows, key, value, b.key)
    ensures forall k :: k in KeysOf(KeyTotals(rows, key, value)) <==> exists r :: r in rows && key(r) == k
    ensures Total(KeyTotals(rows, key, value)) == SumOver(rows, value)
  {
    var e := Entries(rows, KeyEntry(key, value));
    var g := GroupSum(e);
    var t := SortBy(g, true);
    assert forall b :: b in t <==> b in multiset(g);
    SubMultisetDistinctKeys(t, g);
    forall b | b in t ensures b.value == KeySum(rows, key, value, b.key) {
      GroupMember(e, b);
      KeySumIsSumFor(rows, key, value, b.key);
    }
    KeyTotalsKeys(rows, key, value);
    TotalSortBy(g, true);
    GroupSumConserves(e);
    EntriesSum(rows, key, value);
  }

  lemma KeyTotalsKeys<K(!new)>(rows: seq<CleanRow>, key: CleanRow -> K, value: CleanRow -> real)
    ensures forall k :: k in KeysOf(KeyTotals(rows, key, value)) <==> exists r :: r in rows && key(r) == k
  {
    var g := GroupSum(Entries(rows, KeyEntry(key, value)));
    var t := SortBy(g, true);
    EntryKeys(rows, key, value);
    forall k ensures k in KeysOf(t) <==> k in KeysOf(g) {
      if k in KeysOf(t) {
        var i :| 0 <= i < |t| && KeysOf(t)[i] == k;
        assert t[i] in multiset(g);
        MemberKey(g, t[i]);
      }
      if k in KeysOf(g) {
        var i :| 0 <= i < |g| && KeysOf(g)[i] == k;
        assert g[i] in multiset(t);
        MemberKey(t, g[i]);
      }
    }
    ColumnMembers(rows, key);
  }

  lemma ColumnMembers<K>(rows: seq<CleanRow>, key: CleanRow -> K)
    ensures forall k :: k in Column(rows, key) <==> exists r :: r in rows && key(r) == k
  {
    forall k ensures k in Column(rows, key) <==> exists r :: r in rows && key(r) == k {
      if k in Column(rows, key) {
        var i :| 0 <= i < |rows| && Column(rows, key)[i] == k;
        assert rows[i] in rows;
      }
      if exists r :: r in rows && key(r) == k {
        var r :| r in rows && key(r) == k;
        var i :| 0 <= i < |rows| && rows[i] == r;
        assert Column(rows, key)[i] == k;
      }
    }
  }

  /** One row of the `states` list of `/api/state_totals`. */
  datatype StateTotal = StateTotal(state: string, totalEnrollments: int)

  /** One row of the `districts` list of `/api/district_totals`. */
  datatype DistrictTotal = DistrictTotal(state: string, district: string, totalEnrollments: int)

  datatype StateTotals = StateTotals(states: seq<StateTotal>, nationalTotal: int, ageGroups: seq<string>)

  datatype DistrictTotals = DistrictTotals(districts: seq<DistrictTotal>, nationalTotal: int, ageGroups: seq<string>)

  /** The rows of the `states` list, in ranking order. */
  function StateRows(t: seq<Bucket<string>>): (out: seq<StateTotal>)
    ensures |out| == |t|
    ensures forall i :: 0 <= i < |t| ==> out[i] == StateTotal(t[i].key, Trunc(t[i].value))
  {
    seq(|t|, i requires 0 <= i < |t| => StateTotal(t[i].key, Trunc(t[i].value)))
  }

  /** The rows of the `districts` list, in ranking order. */
  function DistrictRows(t: seq<Bucket<(string, string)>>): (out: seq<DistrictTotal>)
    ensures |out| == |t|
    ensures forall i :: 0 <= i < |t| ==> out[i] == DistrictTotal(t[i].key.0, t[i].key.1, Trunc(t[i].value))
  {
    seq(|t|, i requires 0 <= i < |t| => DistrictTotal(t[i].key.0, t[i].key.1, Trunc(t[i].value)))
  }

  function StateNames(out: seq<StateTotal>): (names: seq<string>)
    ensures |names| == |out|
    ensures forall i :: 0 <= i < |out| ==> names[i] == out[i].state
  {
    seq(|out|, i requires 0 <= i < |out| => out[i].state)
  }

  /** The `states` response for the rows that passed the filters. */
  function StateTotalsOf(f: seq<CleanRow>, selected: seq<string>): StateTotals {
    if |f| == 0 then StateTotals([], 0, selected)
    else StateTotals(StateRows(KeyTotals(f, StateOf, SelectedTotal(selected))), Trunc(SumOver(f, SelectedTotal(selected))), selected)
  }

  /** The `districts` response for the rows that passed the filters. */
  function DistrictTotalsOf(f: seq<CleanRow>, selected: seq<string>): DistrictTotals {
    if |f| == 0 then DistrictTotals([], 0, selected)
    else DistrictTotals(DistrictRows(KeyTotals(f, PlaceOf, SelectedTotal(selected))), Trunc(SumOver(f, SelectedTotal(selected))), selected)
  }

  /** `/api/state_totals`: the filtered rows' state totals under the selected age
      groups. */
  function GetStateTotals(df: seq<CleanRow>, parse: DateParser, q: CleaningFilter.Query, requested: seq<string>): StateTotals {
    StateTotalsOf(CleaningFilter.Filtered(parse, q, df), SelectedAgeGroups(requested))
  }

  /** `/api/district_totals`: the same, by (state, district) pair. */
  function GetDistrictTotals(df: seq<CleanRow>, parse: DateParser, q: CleaningFilter.Query, requested: seq<string>): DistrictTotals {
    DistrictTotalsOf(CleaningFilter.Filtered(parse, q, df), SelectedAgeGroups(requested))
  }

  /** Truncating the sums of a ranking keeps it a ranking of the truncated group sums. */
  lemma TruncatedRanking<K(!new)>(t: seq<Bucket<K>>, rows: seq<CleanRow>, key: CleanRow -> K, value: CleanRow -> real)
    requires DistinctKeys(t) && SortedBy(t, true)
    requires forall b :: b in t ==> b.value == KeySum(rows, key, value, b.key)
    ensures forall i, j :: 0 <= i < j < |t| ==> t[i].key != t[j].key && Trunc(t[i].value) >= Trunc(t[j].value)
    ensures forall i :: 0 <= i < |t| ==> Trunc(t[i].value) == Trunc(KeySum(rows, key, value, t[i].key))
  {
    forall i, j | 0 <= i < j < |t| ensures Trunc(t[i].value) >= Trunc(t[j].value) {
      TruncMonotone(t[j].value, t[i].value);
    }
    forall i | 0 <= i < |t| ensures Trunc(t[i].value) == Trunc(KeySum(rows, key, value, t[i].key)) {
      assert t[i] in t;
    }
  }

  /** The state totals: empty with a national total of 0 when no row passed the filters;
      otherwise each state of the passing rows once, with the truncated sum of its rows'
      selected ages, in descending order, and the national total is the truncated sum of
      the untruncated state sums. */
  lemma StateTotalsFacts(f: seq<CleanRow>, selected: seq<string>)
    ensures |f| == 0 ==> StateTotalsOf(f, selected).states == [] && StateTotalsOf(f, selected).nationalTotal == 0
    ensures var out := StateTotalsOf(f, selected).states;
      forall i, j :: 0 <= i < j < |out| ==> out[i].state != out[j].state && out[i].totalEnrollments >= out[j].totalEnrollments
    ensures var out := StateTotalsOf(f, selected).states;
      forall i :: 0 <= i < |out| ==> out[i].totalEnrollments == Trunc(KeySum(f, StateOf, SelectedTotal(selected), out[i].state))
    ensures var out := StateTotalsOf(f, selected).states;
      forall s :: s in StateNames(out) <==> exists r :: r in f && r.state == s
    ensures |f| > 0 ==> StateTotalsOf(f, selected).nationalTotal == Trunc(Total(KeyTotals(f, StateOf, SelectedTotal(selected))))
  {
    if |f| > 0 {
      var value := SelectedTotal(selected);
      KeyTotalsFacts(f, StateOf, value);
      StateRowsRanked(f, value);
      StateRowsNamed(f, value);
    }
  }

  /** The state rows are distinct and in descending order of their truncated sums. */
  lemma StateRowsRanked(f: seq<CleanRow>, value: CleanRow -> real)
    ensures var out := StateRows(KeyTotals(f, StateOf, value));
      forall i, j :: 0 <= i < j < |out| ==> out[i].state != out[j].state && out[i].totalEnrollments >= out[j].totalEnrollments
    ensures var out := StateRows(KeyTotals(f, StateOf, value));
      forall i :: 0 <= i < |out| ==> out[i].totalEnrollments == Trunc(KeySum(f, StateOf, value, out[i].state))
  {
    var t := KeyTotals(f, StateOf, value);
    KeyTotalsFacts(f, StateOf, value);
    TruncatedRanking(t, f, StateOf, value);
  }

  /** The state rows name exactly the states of the rows summed. */
  lemma StateRowsNamed(f: seq<CleanRow>, value: CleanRow -> real)
    ensures forall s :: s in StateNames(StateRows(KeyTotals(f, StateOf, value))) <==> exists r :: r in f && r.state == s
  {
    var t := KeyTotals(f, StateOf, value);
    KeyTotalsFacts(f, StateOf, value);
    assert StateNames(StateRows(t)) == KeysOf(t);
  }

  /** The district totals: each (state, district) pair of the passing rows once, so the
      same district name under two states stays two entries, with the truncated sum of
      its rows' selected ages, in descending order; the national total as for states. */
  lemma DistrictTotalsFacts(f: seq<CleanRow>, selected: seq<string>)
    ensures |f| == 0 ==> DistrictTotalsOf(f, selected).districts == [] && DistrictTotalsOf(f, selected).nationalTotal == 0
    ensures var out := DistrictTotalsOf(f, selected).districts;
      forall i, j :: 0 <= i < j < |out| ==>
        (out[i].state, out[i].district) != (out[j].state, out[j].district) && out[i].totalEnrollments >= out[j].totalEnrollments
    ensures var out := DistrictTotalsOf(f, selected).districts;
      forall i :: 0 <= i < |out| ==>
        out[i].totalEnrollments == Trunc(KeySum(f, PlaceOf, SelectedTotal(selected), (out[i].state, out[i].district)))
    ensures |f| > 0 ==> DistrictTotalsOf(f, selected).nationalTotal == Trunc(Total(KeyTotals(f, PlaceOf, SelectedTotal(selected))))
  {
    if |f| > 0 {
      var value := SelectedTotal(selected);
      var t := KeyTotals(f, PlaceOf, value);
      var out := DistrictRows(t);
      KeyTotalsFacts(f, PlaceOf, value);
      TruncatedRanking(t, f, PlaceOf, value);
      assert forall i :: 0 <= i < |out| ==> (out[i].state, out[i].district) == t[i].key;
    }
  }
}
