/** The accumulation pass of the sunburst chart
    (uidai-dashboard/src/components/charts/SunburstChart.jsx, first loop of the
    `sunburst` memo): per row, the contribution (the positive selected age values in age
    breakdown mode, the positive total otherwise) is added to the grand total, to its
    state and to its (state, district) pair, and each age value to its
    (state, district, age) triple. */
module SunburstTotals {
  import opened Common
  import opened Text
  import opened Aggregates
  import DashboardFilters
  import opened AdvancedAnalytics

  type Mode = SunburstMode

  type Pair = (string, string)
  type Triple = (string, string, string)

  /** The four maps and the grand total the loop leaves behind. */
  datatype Totals = Totals(
    grand: real,
    states: seq<Bucket<string>>,
    districts: seq<Bucket<Pair>>,
    ages: seq<Bucket<Triple>>)

  /** A state or district name as the chart uses it: trimmed, "Unknown" when blank. */
  function Place(raw: string): (r: string)
    ensures |r| > 0
  {
    var t := Trim(raw);
    if |t| == 0 then "Unknown" else t
  }

  /** One selected age value of a row, kept when positive. */
  function Part(r: Row, g: string): (p: seq<Bucket<string>>)
    ensures |p| <= 1
    ensures forall i :: 0 <= i < |p| ==> p[i].key == g && p[i].value > 0.0
  {
    var v := DashboardFilters.AgeOfKey(r, g);
    if v > 0.0 then [Bucket(g, v)] else []
  }

  /** The positive selected age values of a row, in selection order (`v <= 0` is
      skipped). */
  function Parts(r: Row, groups: seq<string>): (p: seq<Bucket<string>>)
    ensures |p| <= |groups|
    ensures forall i :: 0 <= i < |p| ==> p[i].value > 0.0
  {
    if |groups| == 0 then []
    else Parts(r, groups[..|groups| - 1]) + Part(r, groups[|groups| - 1])
  }

  lemma {:induction false} TotalOfPositive<K>(p: seq<Bucket<K>>)
    requires forall i :: 0 <= i < |p| ==> p[i].value > 0.0
    ensures Total(p) >= 0.0
    ensures Total(p) > 0.0 <==> |p| > 0
  {
    if |p| > 0 {
      assert forall i :: 0 <= i < |p[1..]| ==> p[1..][i].value > 0.0 by {
        forall i | 0 <= i < |p[1..]| ensures p[1..][i].value > 0.0 {
          assert p[1..][i] == p[i + 1];
        }
      }
      TotalOfPositive(p[1..]);
    }
  }

  /** What a row adds to the chart; 0 means the row is skipped. */
  function Contribution(r: Row, mode: Mode, groups: seq<string>): (c: real)
    ensures c >= 0.0
    ensures mode == AgeBreakdown ==> (c > 0.0 <==> |Parts(r, groups)| > 0)
  {
    TotalOfPositive(Parts(r, groups));
    if mode == AgeBreakdown then Total(Parts(r, groups))
    else if r.total > 0.0 then r.total
    else 0.0
  }

  function Key(r: Row): Pair {
    (Place(r.state), Place(r.district))
  }

  /** The age parts of a row keyed by (state, district, age). */
  function Tag(s: string, d: string, p: seq<Bucket<string>>): (t: seq<Bucket<Triple>>)
    ensures |t| == |p|
    ensures forall i :: 0 <= i < |t| ==> t[i] == Bucket((s, d, p[i].key), p[i].value)
  {
    seq(|p|, i requires 0 <= i < |p| => Bucket((s, d, p[i].key), p[i].value))
  }

  /** The entry `(k, c)` when c is positive, none otherwise. */
  function Positive<K>(k: K, c: real): (e: seq<Bucket<K>>)
    ensures |e| <= 1
    ensures forall i :: 0 <= i < |e| ==> e[i].value > 0.0
  {
    if c > 0.0 then [Bucket(k, c)] else []
  }

  /** A contributing row's (state, contribution) entry. */
  function StateEntry(r: Row, mode: Mode, groups: seq<string>): (e: seq<Bucket<string>>)
    ensures |e| <= 1
    ensures forall i :: 0 <= i < |e| ==> e[i].value > 0.0
  {
    Positive(Place(r.state), Contribution(r, mode, groups))
  }

  /** A contributing row's ((state, district), contribution) entry. */
  function DistrictEntry(r: Row, mode: Mode, groups: seq<string>): (e: seq<Bucket<Pair>>)
    ensures |e| <= 1
    ensures forall i :: 0 <= i < |e| ==> e[i].value > 0.0
  {
    Positive(Key(r), Contribution(r, mode, groups))
  }

  /** A row's ((state, district, age), value) entries, in age breakdown mode only. */
  function AgeEntry(r: Row, mode: Mode, groups: seq<string>): (e: seq<Bucket<Triple>>)
    ensures forall i :: 0 <= i < |e| ==> e[i].value > 0.0
  {
    if mode == AgeBreakdown then Tag(Place(r.state), Place(r.district), Parts(r, groups)) else []
  }

  /** The state entries of the contributing rows, in row order. */
  function StateEntries(data: seq<Row>, mode: Mode, groups: seq<string>): (e: seq<Bucket<string>>)
    ensures forall i :: 0 <= i < |e| ==> e[i].value > 0.0
  {
    if |data| == 0 then []
    else StateEntries(data[..|data| - 1], mode, groups) + StateEntry(data[|data| - 1], mode, groups)
  }

  /** The district entries of the contributing rows, in row order. */
  function DistrictEntries(data: seq<Row>, mode: Mode, groups: seq<string>): (e: seq<Bucket<Pair>>)
    ensures forall i :: 0 <= i < |e| ==> e[i].value > 0.0
  {
    if |data| == 0 then []
    else DistrictEntries(data[..|data| - 1], mode, groups) + DistrictEntry(data[|data| - 1], mode, groups)
  }

  /** The age entries of all rows, in row order. */
  function AgeEntries(data: seq<Row>, mode: Mode, groups: seq<string>): (e: seq<Bucket<Triple>>)
    ensures forall i :: 0 <= i < |e| ==> e[i].value > 0.0
  {
    if |data| == 0 then []
    else AgeEntries(data[..|data| - 1], mode, groups) + AgeEntry(data[|data| - 1], mode, groups)
  }

  /** The result of the accumulation loop. */
  function TotalsOf(data: seq<Row>, mode: Mode, groups: seq<string>): Totals {
    Totals(
      Total(StateEntries(data, mode, groups)),
      GroupSum(StateEntries(data, mode, groups)),
      GroupSum(DistrictEntries(data, mode, groups)),
      GroupSum(AgeEntries(data, mode, groups)))
  }

  lemma EntriesStep(data: seq<Row>, k: nat, mode: Mode, groups: seq<string>)
    requires k < |data|
    ensures StateEntries(data[..k + 1], mode, groups) == StateEntries(data[..k], mode, groups) + StateEntry(data[k], mode, groups)
    ensures DistrictEntries(data[..k + 1], mode, groups) == DistrictEntries(data[..k], mode, groups) + DistrictEntry(data[k], mode, groups)
    ensures AgeEntries(data[..k + 1], mode, groups) == AgeEntries(data[..k], mode, groups) + AgeEntry(data[k], mode, groups)
  {
    assert data[..k + 1][..k] == data[..k];
  }

  lemma PartsStep(r: Row, groups: seq<string>, j: nat)
    requires j < |groups|
    ensures Parts(r, groups[..j + 1]) == Parts(r, groups[..j]) + Part(r, groups[j])
  {
    assert groups[..j + 1][..j] == groups[..j];
  }

  lemma {:induction false} TagAppend(s: string, d: string, p: seq<Bucket<string>>, q: seq<Bucket<string>>)
    ensures Tag(s, d, p + q) == Tag(s, d, p) + Tag(s, d, q)
  {
    assert |Tag(s, d, p + q)| == |Tag(s, d, p) + Tag(s, d, q)|;
    forall i | 0 <= i < |p + q|
      ensures Tag(s, d, p + q)[i] == (Tag(s, d, p) + Tag(s, d, q))[i]
    {
      if i < |p| {
        assert (p + q)[i] == p[i];
      } else {
        assert (p + q)[i] == q[i - |p|];
      }
    }
  }

  /** One pass of the inner loop extends the row total and the age entries by one
      optional part. */
  lemma RowStep(r: Row, s: string, d: string, groups: seq<string>, j: nat, base: seq<Bucket<Triple>>)
    requires j < |groups|
    ensures Total(Parts(r, groups[..j + 1])) == Total(Parts(r, groups[..j])) + Total(Part(r, groups[j]))
    ensures base + Tag(s, d, Parts(r, groups[..j + 1])) ==
      (base + Tag(s, d, Parts(r, groups[..j]))) + Tag(s, d, Part(r, groups[j]))
  {
    PartsStep(r, groups, j);
    TotalAppend(Parts(r, groups[..j]), Part(r, groups[j]));
    TagAppend(s, d, Parts(r, groups[..j]), Part(r, groups[j]));
    ConcatAssoc(base, Tag(s, d, Parts(r, groups[..j])), Tag(s, d, Part(r, groups[j])));
  }

  lemma RowStart(r: Row, s: string, d: string, groups: seq<string>, base: seq<Bucket<Triple>>)
    ensures Total(Parts(r, groups[..0])) == 0.0
    ensures base + Tag(s, d, Parts(r, groups[..0])) == base
  {
    assert groups[..0] == [];
    assert Tag(s, d, Parts(r, [])) == [];
  }

  lemma ConcatAssoc<T>(a: seq<T>, b: seq<T>, c: seq<T>)
    ensures a + (b + c) == (a + b) + c
  {
  }

  /** Adds one optional age part to the row total and to the age map. */
  method AddPart(rowTotal: real, ages: seq<Bucket<Triple>>, ghost e: seq<Bucket<Triple>>, s: string, d: string, part: seq<Bucket<string>>)
    returns (rowTotal': real, ages': seq<Bucket<Triple>>)
    requires ages == GroupSum(e) && |part| <= 1
    ensures rowTotal' == rowTotal + Total(part)
    ensures ages' == GroupSum(e + Tag(s, d, part))
  {
    TotalOfAtMostOne(part);
    rowTotal' := rowTotal + if |part| == 1 then part[0].value else 0.0;
    ages' := BumpEntry(ages, e, Tag(s, d, part));
  }

  /** The inner loop over the selected age groups of one row: it sums the positive
      values and adds each to the row's (state, district, age) entry. */
  method RowAges(r: Row, s: string, d: string, groups: seq<string>, ages0: seq<Bucket<Triple>>, ghost base: seq<Bucket<Triple>>)
    returns (rowTotal: real, ages: seq<Bucket<Triple>>)
    requires ages0 == GroupSum(base)
    ensures rowTotal == Total(Parts(r, groups))
    ensures ages == GroupSum(base + Tag(s, d, Parts(r, groups)))
  {
    rowTotal := 0.0;
    ages := ages0;
    RowStart(r, s, d, groups, base);
    for j := 0 to |groups|
      invariant rowTotal == Total(Parts(r, groups[..j]))
      invariant ages == GroupSum(base + Tag(s, d, Parts(r, groups[..j])))
    {
      RowStep(r, s, d, groups, j, base);
      var part := Part(r, groups[j]);
      rowTotal, ages := AddPart(rowTotal, ages, base + Tag(s, d, Parts(r, groups[..j])), s, d, part);
    }
    assert groups[..|groups|] == groups;
  }

  /** The maps the loop holds are the grouped entries seen so far. */
  predicate Holds(t: Totals, se: seq<Bucket<string>>, de: seq<Bucket<Pair>>, ae: seq<Bucket<Triple>>) {
    t.grand == Total(se) && t.states == GroupSum(se) && t.districts == GroupSum(de) && t.ages == GroupSum(ae)
  }

  /** A row's contribution, and the age map with its age entries added. */
  method RowContribution(r: Row, mode: Mode, groups: seq<string>, ages0: seq<Bucket<Triple>>, ghost ae: seq<Bucket<Triple>>)
    returns (v: real, ages: seq<Bucket<Triple>>)
    requires ages0 == GroupSum(ae)
    ensures v == Contribution(r, mode, groups)
    ensures ages == GroupSum(ae + AgeEntry(r, mode, groups))
  {
    if mode == AgeBreakdown {
      v, ages := RowAges(r, Place(r.state), Place(r.district), groups, ages0, ae);
    } else {
      v := if r.total > 0.0 then r.total else 0.0;
      ages := ages0;
      assert ae + AgeEntry(r, mode, groups) == ae;
    }
  }

  /** One row's share of the loop: the maps are updated only for a contributing row. */
  method AddRow(t: Totals, r: Row, mode: Mode, groups: seq<string>,
                ghost se: seq<Bucket<string>>, ghost de: seq<Bucket<Pair>>, ghost ae: seq<Bucket<Triple>>)
    returns (t': Totals)
    requires Holds(t, se, de, ae)
    ensures Holds(t', se + StateEntry(r, mode, groups), de + DistrictEntry(r, mode, groups), ae + AgeEntry(r, mode, groups))
  {
    var v, ages := RowContribution(r, mode, groups, t.ages, ae);
    var grand, states := AddState(t.grand, t.states, r, mode, groups, v, se);
    var districts := BumpEntry(t.districts, de, Positive((Place(r.state), Place(r.district)), v));
    t' := Totals(grand, states, districts, ages);
  }

  /** The grand total and the state map with a row's state entry added. */
  method AddState(grand: real, states: seq<Bucket<string>>, r: Row, mode: Mode, groups: seq<string>, v: real,
                  ghost se: seq<Bucket<string>>)
    returns (grand': real, states': seq<Bucket<string>>)
    requires grand == Total(se) && states == GroupSum(se) && v == Contribution(r, mode, groups)
    ensures grand' == Total(se + StateEntry(r, mode, groups)) && states' == GroupSum(se + StateEntry(r, mode, groups))
  {
    var entry := Positive(Place(r.state), v);
    TotalAppend(se, entry);
    TotalOfAtMostOne(entry);
    states' := BumpEntry(states, se, entry);
    grand' := grand + (if |entry| == 1 then entry[0].value else 0.0);
  }

  /** The loop over the rows, proved to leave the maps of `TotalsOf`. */
  method Accumulate(data: seq<Row>, mode: Mode, groups: seq<string>) returns (t: Totals)
    ensures t == TotalsOf(data, mode, groups)
  {
    t := Totals(0.0, [], [], []);
    ghost var se: seq<Bucket<string>> := [];
    ghost var de: seq<Bucket<Pair>> := [];
    ghost var ae: seq<Bucket<Triple>> := [];
    assert data[..0] == [];
    for k := 0 to |data|
      invariant se == StateEntries(data[..k], mode, groups)
      invariant de == DistrictEntries(data[..k], mode, groups)
      invariant ae == AgeEntries(data[..k], mode, groups)
      invariant Holds(t, se, de, ae)
    {
      EntriesStep(data, k, mode, groups);
      t := AddRow(t, data[k], mode, groups, se, de, ae);
      se := se + StateEntry(data[k], mode, groups);
      de := de + DistrictEntry(data[k], mode, groups);
      ae := ae + AgeEntry(data[k], mode, groups);
    }
    assert data[..|data|] == data;
  }

  // ---------------------------------------------------------------------------
  // What the maps mean

  /** There is something to draw exactly when some row contributes: the grand total is
      never negative, positive when some row contributes and 0 when none does. */
  lemma GrandPositive(data: seq<Row>, mode: Mode, groups: seq<string>)
    ensures TotalsOf(data, mode, groups).grand >= 0.0
    ensures forall i :: 0 <= i < |data| && Contribution(data[i], mode, groups) > 0.0 ==>
      TotalsOf(data, mode, groups).grand > 0.0
    ensures (forall i :: 0 <= i < |data| ==> Contribution(data[i], mode, groups) == 0.0) ==>
      TotalsOf(data, mode, groups).grand == 0.0
  {
    TotalOfPositive(StateEntries(data, mode, groups));
    forall i | 0 <= i < |data| && Contribution(data[i], mode, groups) > 0.0
      ensures |StateEntries(data, mode, groups)| > 0
    {
      ContributingRow(data, mode, groups, data[i]);
    }
    if forall i :: 0 <= i < |data| ==> Contribution(data[i], mode, groups) == 0.0 {
      NoContributingRow(data, mode, groups);
    }
  }

  lemma {:induction false} ContributingRow(data: seq<Row>, mode: Mode, groups: seq<string>, r: Row)
    requires r in data && Contribution(r, mode, groups) > 0.0
    ensures |StateEntries(data, mode, groups)| > 0
  {
    var n := |data| - 1;
    StateEntriesSnoc(data, mode, groups);
    if r == data[n] {
      ActiveEntry(r, mode, groups);
    } else {
      PrefixHas(data, r);
      ContributingRow(data[..n], mode, groups, r);
    }
  }

  lemma PrefixHas(data: seq<Row>, r: Row)
    requires r in data && r != data[|data| - 1]
    ensures r in data[..|data| - 1]
  {
    assert data == data[..|data| - 1] + [data[|data| - 1]];
  }

  lemma StateEntriesSnoc(data: seq<Row>, mode: Mode, groups: seq<string>)
    requires |data| > 0
    ensures |StateEntries(data, mode, groups)| ==
      |StateEntries(data[..|data| - 1], mode, groups)| + |StateEntry(data[|data| - 1], mode, groups)|
  {
  }

  lemma ActiveEntry(r: Row, mode: Mode, groups: seq<string>)
    requires Contribution(r, mode, groups) > 0.0
    ensures |StateEntry(r, mode, groups)| == 1
  {
    PositiveKept(Place(r.state), Contribution(r, mode, groups));
  }

  lemma PositiveKept<K>(k: K, c: real)
    requires c > 0.0
    ensures Positive(k, c) == [Bucket(k, c)]
  {
  }

  lemma {:induction false} NoContributingRow(data: seq<Row>, mode: Mode, groups: seq<string>)
    requires forall i :: 0 <= i < |data| ==> Contribution(data[i], mode, groups) == 0.0
    ensures StateEntries(data, mode, groups) == []
  {
    if |data| > 0 {
      var n := |data| - 1;
      PrefixNoContribution(data, data[..n], mode, groups);
      NoContributingRow(data[..n], mode, groups);
      NoEntryOfIdle(data[n], mode, groups);
    }
  }

  lemma PrefixNoContribution(data: seq<Row>, prefix: seq<Row>, mode: Mode, groups: seq<string>)
    requires |data| > 0 && prefix == data[..|data| - 1]
    requires forall i :: 0 <= i < |data| ==> Contribution(data[i], mode, groups) == 0.0
    ensures forall i :: 0 <= i < |prefix| ==> Contribution(prefix[i], mode, groups) == 0.0
    ensures Contribution(data[|data| - 1], mode, groups) == 0.0
  {
  }

  lemma NoEntryOfIdle(r: Row, mode: Mode, groups: seq<string>)
    requires Contribution(r, mode, groups) == 0.0
    ensures StateEntry(r, mode, groups) == []
  {
  }

  /** The grand total is the sum of the state totals. */
  lemma GrandIsSumOfStates(data: seq<Row>, mode: Mode, groups: seq<string>)
    ensures Total(TotalsOf(data, mode, groups).states) == TotalsOf(data, mode, groups).grand
  {
    GroupSumConserves(StateEntries(data, mode, groups));
  }

  /** Every state, district and age entry of the maps holds a positive total. */
  lemma TotalsPositive(data: seq<Row>, mode: Mode, groups: seq<string>)
    ensures var t := TotalsOf(data, mode, groups);
      && (forall i :: 0 <= i < |t.states| ==> t.states[i].value > 0.0)
      && (forall i :: 0 <= i < |t.districts| ==> t.districts[i].value > 0.0)
      && (forall i :: 0 <= i < |t.ages| ==> t.ages[i].value > 0.0)
  {
    GroupedPositive(StateEntries(data, mode, groups));
    GroupedPositive(DistrictEntries(data, mode, groups));
    GroupedPositive(AgeEntries(data, mode, groups));
  }

  lemma GroupedPositive<K(!new)>(e: seq<Bucket<K>>)
    requires forall i :: 0 <= i < |e| ==> e[i].value > 0.0
    ensures forall i :: 0 <= i < |GroupSum(e)| ==> GroupSum(e)[i].value > 0.0
  {
    var m := GroupSum(e);
    forall i | 0 <= i < |m| ensures m[i].value > 0.0 {
      LookupAt(m, i);
      assert m[i].key == KeysOf(m)[i];
      assert m[i].key in KeysOf(e);
      SumForPositive(e, m[i].key);
    }
  }

  /** In total mode no age entry is kept. */
  lemma TotalModeHasNoAges(data: seq<Row>, groups: seq<string>)
    ensures TotalsOf(data, TotalOnly, groups).ages == []
  {
    NoAgeEntries(data, groups);
  }

  lemma {:induction false} NoAgeEntries(data: seq<Row>, groups: seq<string>)
    ensures AgeEntries(data, TotalOnly, groups) == []
  {
    if |data| > 0 {
      NoAgeEntries(data[..|data| - 1], groups);
    }
  }

  /** The districts of state s in the district map, in map order, keyed by district
      name (`[...districtTotals.entries()].filter(([k]) => k.startsWith(s + "||"))`). */
  function DistrictsOf(m: seq<Bucket<Pair>>, s: string): (r: seq<Bucket<string>>)
    ensures |r| <= |m|
  {
    if |m| == 0 then []
    else (if m[0].key.0 == s then [Bucket(m[0].key.1, m[0].value)] else []) + DistrictsOf(m[1..], s)
  }

  /** The sum of the entries of state s. */
  function StateSum(e: seq<Bucket<Pair>>, s: string): real {
    if |e| == 0 then 0.0
    else StateSum(e[..|e| - 1], s) + (if e[|e| - 1].key.0 == s then e[|e| - 1].value else 0.0)
  }

  lemma {:induction false} StateSumAppend(a: seq<Bucket<Pair>>, b: seq<Bucket<Pair>>, s: string)
    ensures StateSum(a + b, s) == StateSum(a, s) + StateSum(b, s)
  {
    if |b| > 0 {
      var n := |b| - 1;
      assert (a + b)[..|a + b| - 1] == a + b[..n];
      StateSumAppend(a, b[..n], s);
    } else {
      assert a + b == a;
    }
  }

  lemma {:induction false} DistrictsOfAdd(m: seq<Bucket<Pair>>, k: Pair, v: real, s: string)
    ensures Total(DistrictsOf(Add(m, k, v), s)) == Total(DistrictsOf(m, s)) + (if k.0 == s then v else 0.0)
  {
    var head := if k.0 == s then [Bucket(k.1, v)] else [];
    TotalOfAtMostOne(head);
    if |m| == 0 {
      assert DistrictsOf([Bucket(k, v)], s) == head + DistrictsOf([], s);
      assert head + [] == head;
    } else if m[0].key == k {
      var r := [Bucket(k, m[0].value + v)] + m[1..];
      var h := if k.0 == s then [Bucket(k.1, m[0].value + v)] else [];
      var h0 := if k.0 == s then [Bucket(k.1, m[0].value)] else [];
      TotalOfAtMostOne(h);
      TotalOfAtMostOne(h0);
      assert r[1..] == m[1..];
      TotalAppend(h, DistrictsOf(m[1..], s));
      TotalAppend(h0, DistrictsOf(m[1..], s));
    } else {
      var rest := Add(m[1..], k, v);
      var h0 := if m[0].key.0 == s then [Bucket(m[0].key.1, m[0].value)] else [];
      assert ([m[0]] + rest)[1..] == rest;
      DistrictsOfAdd(m[1..], k, v, s);
      TotalAppend(h0, DistrictsOf(rest, s));
      TotalAppend(h0, DistrictsOf(m[1..], s));
    }
  }

  lemma {:induction false} DistrictsOfGroupSum(e: seq<Bucket<Pair>>, s: string)
    ensures Total(DistrictsOf(GroupSum(e), s)) == StateSum(e, s)
  {
    if |e| > 0 {
      var n := |e| - 1;
      assert e == e[..n] + [e[n]];
      GroupSumStep(e[..n], e[n]);
      DistrictsOfAdd(GroupSum(e[..n]), e[n].key, e[n].value, s);
      DistrictsOfGroupSum(e[..n], s);
    }
  }

  /** A row adds the same amount to its state's sum as to the sum over its state's
      districts. */
  lemma EntryMatches(r: Row, mode: Mode, groups: seq<string>, s: string)
    ensures SumFor(StateEntry(r, mode, groups), s) == StateSum(DistrictEntry(r, mode, groups), s)
  {
    var se := StateEntry(r, mode, groups);
    var de := DistrictEntry(r, mode, groups);
    if |se| == 1 {
      assert se[..0] == [] && de[..0] == [];
    }
  }

  lemma {:induction false} StatesMatchDistricts(data: seq<Row>, mode: Mode, groups: seq<string>, s: string)
    ensures SumFor(StateEntries(data, mode, groups), s) == StateSum(DistrictEntries(data, mode, groups), s)
  {
    if |data| > 0 {
      var n := |data| - 1;
      var r := data[n];
      EntriesStep(data, n, mode, groups);
      assert data[..n + 1] == data;
      StatesMatchDistricts(data[..n], mode, groups, s);
      SumForAppend(StateEntries(data[..n], mode, groups), StateEntry(r, mode, groups), s);
      StateSumAppend(DistrictEntries(data[..n], mode, groups), DistrictEntry(r, mode, groups), s);
      EntryMatches(r, mode, groups, s);
    }
  }

  /** A state's total is the sum of its districts' totals. */
  lemma StateIsSumOfDistricts(data: seq<Row>, mode: Mode, groups: seq<string>, s: string)
    ensures var t := TotalsOf(data, mode, groups);
      Lookup(t.states, s) == Total(DistrictsOf(t.districts, s))
  {
    StatesMatchDistricts(data, mode, groups, s);
    DistrictsOfGroupSum(DistrictEntries(data, mode, groups), s);
  }

  /** The sum over the age groups gs of the (s, d, g) entries of an age map. */
  function AgeTotal(m: seq<Bucket<Triple>>, s: string, d: string, gs: seq<string>): real {
    if |gs| == 0 then 0.0
    else AgeTotal(m, s, d, gs[..|gs| - 1]) + Lookup(m, (s, d, gs[|gs| - 1]))
  }

  /** The sum over the age groups gs of the values entered under (s, d, g). */
  function AgeSumFor(e: seq<Bucket<Triple>>, s: string, d: string, gs: seq<string>): real {
    if |gs| == 0 then 0.0
    else AgeSumFor(e, s, d, gs[..|gs| - 1]) + SumFor(e, (s, d, gs[|gs| - 1]))
  }

  /** The sum over the keys gs of the values entered under each. */
  function KeySums(e: seq<Bucket<string>>, gs: seq<string>): real {
    if |gs| == 0 then 0.0
    else KeySums(e, gs[..|gs| - 1]) + SumFor(e, gs[|gs| - 1])
  }

  lemma {:induction false} AgeTotalGroupSum(e: seq<Bucket<Triple>>, s: string, d: string, gs: seq<string>)
    ensures AgeTotal(GroupSum(e), s, d, gs) == AgeSumFor(e, s, d, gs)
  {
    if |gs| > 0 {
      AgeTotalGroupSum(e, s, d, gs[..|gs| - 1]);
    }
  }

  lemma {:induction false} AgeSumForAppend(a: seq<Bucket<Triple>>, b: seq<Bucket<Triple>>, s: string, d: string, gs: seq<string>)
    ensures AgeSumFor(a + b, s, d, gs) == AgeSumFor(a, s, d, gs) + AgeSumFor(b, s, d, gs)
  {
    if |gs| > 0 {
      var g := gs[|gs| - 1];
      AgeSumForAppend(a, b, s, d, gs[..|gs| - 1]);
      SumForAppend(a, b, (s, d, g));
    }
  }

  lemma {:induction false} KeySumsAppend(a: seq<Bucket<string>>, b: seq<Bucket<string>>, gs: seq<string>)
    ensures KeySums(a + b, gs) == KeySums(a, gs) + KeySums(b, gs)
  {
    if |gs| > 0 {
      KeySumsAppend(a, b, gs[..|gs| - 1]);
      SumForAppend(a, b, gs[|gs| - 1]);
    }
  }

  lemma {:induction false} KeySumsAbsent(e: seq<Bucket<string>>, gs: seq<string>)
    requires forall i :: 0 <= i < |e| ==> e[i].key !in gs
    ensures KeySums(e, gs) == 0.0
  {
    if |gs| > 0 {
      var g := gs[|gs| - 1];
      KeySumsAbsent(e, gs[..|gs| - 1]);
      assert g !in KeysOf(e);
      SumForAbsent(e, g);
    }
  }

  lemma {:induction false} TagSumFor(s0: string, d0: string, p: seq<Bucket<string>>, s: string, d: string, g: string)
    ensures SumFor(Tag(s0, d0, p), (s, d, g)) == if (s0, d0) == (s, d) then SumFor(p, g) else 0.0
  {
    if |p| > 0 {
      var n := |p| - 1;
      var t := Tag(s0, d0, p);
      assert t[..n] == Tag(s0, d0, p[..n]);
      TagSumFor(s0, d0, p[..n], s, d, g);
    }
  }

  lemma {:induction false} AgeSumForTag(s0: string, d0: string, p: seq<Bucket<string>>, s: string, d: string, gs: seq<string>)
    ensures AgeSumFor(Tag(s0, d0, p), s, d, gs) == if (s0, d0) == (s, d) then KeySums(p, gs) else 0.0
  {
    if |gs| > 0 {
      AgeSumForTag(s0, d0, p, s, d, gs[..|gs| - 1]);
      TagSumFor(s0, d0, p, s, d, gs[|gs| - 1]);
    }
  }

  /** The parts of a row are keyed by selected groups. */
  lemma {:induction false} PartsKeys(r: Row, gs: seq<string>)
    ensures forall i :: 0 <= i < |Parts(r, gs)| ==> Parts(r, gs)[i].key in gs
  {
    if |gs| > 0 {
      var n := |gs| - 1;
      var q := Parts(r, gs[..n]);
      var x := Part(r, gs[n]);
      PartsKeys(r, gs[..n]);
      var all: seq<Bucket<string>> := q + x;
      assert Parts(r, gs) == all;
      forall i | 0 <= i < |all| ensures all[i].key in gs {
        if i < |q| {
          assert q[i].key in gs[..n];
        } else {
          assert x[i - |q|].key == gs[n];
        }
      }
    }
  }

  /** With distinct groups, summing a row's parts group by group gives the row's
      total over its parts. */
  lemma {:induction false} PartsSplit(r: Row, gs: seq<string>)
    requires forall i, j :: 0 <= i < j < |gs| ==> gs[i] != gs[j]
    ensures KeySums(Parts(r, gs), gs) == Total(Parts(r, gs))
  {
    if |gs| > 0 {
      var n := |gs| - 1;
      var g := gs[n];
      var front := gs[..n];
      var q := Parts(r, front);
      var x := Part(r, g);
      assert Parts(r, gs) == q + x;
      assert gs[..n] == front;
      assert g !in front by {
        forall i | 0 <= i < n ensures front[i] != g {
          assert front[i] == gs[i];
        }
      }
      PartsSplit(r, front);
      KeySumsAppend(q, x, front);
      KeySumsAbsent(x, front);
      PartsKeys(r, front);
      assert g !in KeysOf(q);
      SumForAbsent(q, g);
      SumForAppend(q, x, g);
      TotalAppend(q, x);
      TotalOfAtMostOne(x);
      if |x| == 1 {
        assert x[..0] == [];
      }
    }
  }

  /** A row adds the same amount to its district as to the district's age entries. */
  lemma RowMatches(r: Row, groups: seq<string>, s: string, d: string)
    requires forall i, j :: 0 <= i < j < |groups| ==> groups[i] != groups[j]
    ensures SumFor(DistrictEntry(r, AgeBreakdown, groups), (s, d)) ==
      AgeSumFor(AgeEntry(r, AgeBreakdown, groups), s, d, groups)
  {
    RowAgeSide(r, groups, s, d);
    RowDistrictSide(r, groups, s, d);
  }

  lemma RowAgeSide(r: Row, groups: seq<string>, s: string, d: string)
    requires forall i, j :: 0 <= i < j < |groups| ==> groups[i] != groups[j]
    ensures AgeSumFor(AgeEntry(r, AgeBreakdown, groups), s, d, groups) ==
      if Key(r) == (s, d) then Total(Parts(r, groups)) else 0.0
  {
    AgeSumForTag(Place(r.state), Place(r.district), Parts(r, groups), s, d, groups);
    PartsSplit(r, groups);
  }

  lemma RowDistrictSide(r: Row, groups: seq<string>, s: string, d: string)
    ensures SumFor(DistrictEntry(r, AgeBreakdown, groups), (s, d)) ==
      if Key(r) == (s, d) then Contribution(r, AgeBreakdown, groups) else 0.0
  {
    var de := DistrictEntry(r, AgeBreakdown, groups);
    if Contribution(r, AgeBreakdown, groups) > 0.0 {
      assert de == [Bucket(Key(r), Contribution(r, AgeBreakdown, groups))];
      assert de[..0] == [];
    } else {
      assert de == [];
    }
  }

  lemma DistrictSumStep(data: seq<Row>, groups: seq<string>, s: string, d: string)
    requires |data| > 0
    ensures SumFor(DistrictEntries(data, AgeBreakdown, groups), (s, d)) ==
      SumFor(DistrictEntries(data[..|data| - 1], AgeBreakdown, groups), (s, d)) +
      SumFor(DistrictEntry(data[|data| - 1], AgeBreakdown, groups), (s, d))
  {
    SumForAppend(DistrictEntries(data[..|data| - 1], AgeBreakdown, groups), DistrictEntry(data[|data| - 1], AgeBreakdown, groups), (s, d));
  }

  lemma AgeSumStep(data: seq<Row>, groups: seq<string>, s: string, d: string)
    requires |data| > 0
    ensures AgeSumFor(AgeEntries(data, AgeBreakdown, groups), s, d, groups) ==
      AgeSumFor(AgeEntries(data[..|data| - 1], AgeBreakdown, groups), s, d, groups) +
      AgeSumFor(AgeEntry(data[|data| - 1], AgeBreakdown, groups), s, d, groups)
  {
    AgeSumForAppend(AgeEntries(data[..|data| - 1], AgeBreakdown, groups), AgeEntry(data[|data| - 1], AgeBreakdown, groups), s, d, groups);
  }

  lemma {:induction false} DistrictsMatchAges(data: seq<Row>, groups: seq<string>, s: string, d: string)
    requires forall i, j :: 0 <= i < j < |groups| ==> groups[i] != groups[j]
    ensures SumFor(DistrictEntries(data, AgeBreakdown, groups), (s, d)) ==
      AgeSumFor(AgeEntries(data, AgeBreakdown, groups), s, d, groups)
  {
    if |data| > 0 {
      DistrictSumStep(data, groups, s, d);
      AgeSumStep(data, groups, s, d);
      DistrictsMatchAges(data[..|data| - 1], groups, s, d);
      RowMatches(data[|data| - 1], groups, s, d);
    } else {
      AgeSumForEmpty(s, d, groups);
    }
  }

  lemma {:induction false} AgeSumForEmpty(s: string, d: string, gs: seq<string>)
    ensures AgeSumFor([], s, d, gs) == 0.0
  {
    if |gs| > 0 {
      AgeSumForEmpty(s, d, gs[..|gs| - 1]);
    }
  }

  /** In age breakdown mode with distinct groups, a district's total is the sum of its
      age totals over the selected groups. */
  lemma DistrictIsSumOfAges(data: seq<Row>, groups: seq<string>, s: string, d: string)
    requires forall i, j :: 0 <= i < j < |groups| ==> groups[i] != groups[j]
    ensures var t := TotalsOf(data, AgeBreakdown, groups);
      Lookup(t.districts, (s, d)) == AgeTotal(t.ages, s, d, groups)
  {
    DistrictsMatchAges(data, groups, s, d);
    AgeTotalGroupSum(AgeEntries(data, AgeBreakdown, groups), s, d, groups);
  }
}
